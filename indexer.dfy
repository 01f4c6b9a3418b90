/** The per-genome computation of the Rearrangement Indexer.

    For every ALG a of a genome (after sub-parts are merged), with T_a the
    number of genes of a and the home chromosome the one holding most of them
    (ties going to the label that comes first):
      SCHR(a) = genes of a on home / T_a                   (splitting parameter)
      CCHR(a) = genes of a on home / genes on home          (combining parameter)
      RALG(a) = 1 - SCHR(a) * CCHR(a)                       (rearrangement index)
    Values are exact rationals.
 */
module Indexer {
  import opened Labels
  import opened Seqs
  import opened CrossTab
  import opened Aggregate

  /** h is the home chromosome of ALG a: it holds a gene of a, no chromosome
      holds more genes of a, and every chromosome whose label comes before h
      holds strictly fewer. */
  ghost predicate IsHome(genes: seq<Gene>, a: string, h: string) {
    && Count(genes, h, a) >= 1
    && (forall c :: Count(genes, c, a) <= Count(genes, h, a))
    && (forall c :: LabelLess(c, h) ==> Count(genes, c, a) < Count(genes, h, a))
  }

  /** The tie-break leaves no choice: an ALG has at most one home. */
  lemma HomeUnique(genes: seq<Gene>, a: string, h1: string, h2: string)
    requires IsHome(genes, a, h1) && IsHome(genes, a, h2)
    ensures h1 == h2
  {
    if h1 != h2 {
      LabelLessTotal(h1, h2);
    }
  }

  /** The table's first row with the largest count of a is the home of a. */
  lemma HomeChromosomeIsHome(genes: seq<Gene>, a: string)
    requires a in AlgSet(genes)
    ensures |Chromosomes(genes)| > 0
    ensures IsHome(genes, a, HomeChromosome(CrossTabulate(genes), Chromosomes(genes), a))
  {
    var cs := Chromosomes(genes);
    AlgFromRow(genes, a);
    var i :| 0 <= i < |genes| && genes[i].alg == a;
    RowInColumns(genes, i);
    assert genes[i] in multiset(genes);
    assert Count(genes, genes[i].chromosome, a) >= 1;
    forall c | c !in cs
      ensures Count(genes, c, a) == 0
    {
      if Gene(c, a) in genes {
        var j :| 0 <= j < |genes| && genes[j] == Gene(c, a);
        RowInColumns(genes, j);
      }
    }
  }

  /** What the table computes for an ALG is its SCHR and CCHR: the column sum
      is T_a, the row sum of the home chromosome is its gene count, and the
      table's first-maximum row is the home. */
  lemma TableMetrics(genes: seq<Gene>, a: string)
    requires a in AlgSet(genes)
    ensures |Chromosomes(genes)| > 0
    ensures
      var tab, cs, algs := CrossTabulate(genes), Chromosomes(genes), Algs(genes);
      var h := HomeChromosome(tab, cs, a);
      && h == Home(genes, a)
      && ColumnTotal(tab, cs, a) >= 1
      && RowTotal(tab, h, algs) >= 1
      && CountOf(tab, h, a) as real / ColumnTotal(tab, cs, a) as real == Splitting(genes, a)
      && CountOf(tab, h, a) as real / RowTotal(tab, h, algs) as real == Combining(genes, a)
  {
    var tab, cs, algs := CrossTabulate(genes), Chromosomes(genes), Algs(genes);
    HomeChromosomeIsHome(genes, a);
    var h := HomeChromosome(tab, cs, a);
    HomeUnique(genes, a, h, Home(genes, a));
    ColumnTotalIsAlgSize(genes, cs, a);
    RowTotalIsChromSize(genes, h, algs);
    AlgSizePositive(genes, a);
    CountBounds(genes, h, h, a);
  }

  /** The home chromosome of an ALG that occurs in the genome. */
  ghost function Home(genes: seq<Gene>, a: string): (h: string)
    requires a in AlgSet(genes)
    ensures IsHome(genes, a, h)
  {
    HomeChromosomeIsHome(genes, a);
    var h :| IsHome(genes, a, h);
    h
  }

  /** SCHR: the share of a's genes that lie on its home chromosome. */
  ghost function Splitting(genes: seq<Gene>, a: string): (s: real)
    requires a in AlgSet(genes)
    ensures 0.0 < s <= 1.0
  {
    var h := Home(genes, a);
    CountBounds(genes, h, h, a);
    ShareBounds(Count(genes, h, a), AlgSize(genes, a));
    Count(genes, h, a) as real / AlgSize(genes, a) as real
  }

  /** SCHR is the largest share of a's genes found on any one chromosome. */
  lemma SplittingIsMaximum(genes: seq<Gene>, a: string)
    requires a in AlgSet(genes)
    ensures forall c :: Count(genes, c, a) as real / AlgSize(genes, a) as real <= Splitting(genes, a)
    ensures exists c :: Count(genes, c, a) as real / AlgSize(genes, a) as real == Splitting(genes, a)
  {
    var h := Home(genes, a);
    AlgSizePositive(genes, a);
    var total := AlgSize(genes, a) as real;
    forall c ensures Count(genes, c, a) as real / total <= Count(genes, h, a) as real / total {
      DivideMonotone(Count(genes, c, a) as real, Count(genes, h, a) as real, total);
    }
    assert Count(genes, h, a) as real / total == Splitting(genes, a);
  }

  /** CCHR: the share of the home chromosome's genes that belong to a. */
  ghost function Combining(genes: seq<Gene>, a: string): (c: real)
    requires a in AlgSet(genes)
    ensures 0.0 < c <= 1.0
  {
    var h := Home(genes, a);
    CountBounds(genes, h, h, a);
    ShareBounds(Count(genes, h, a), ChromSize(genes, h));
    Count(genes, h, a) as real / ChromSize(genes, h) as real
  }

  /** RALG as the formula 1 - SCHR * CCHR. */
  function Ralg(splitting: real, combining: real): (r: real)
    requires 0.0 < splitting <= 1.0 && 0.0 < combining <= 1.0
    ensures 0.0 <= r < 1.0
    ensures r == 0.0 <==> splitting == 1.0 && combining == 1.0
  {
    ProductBounds(splitting, combining);
    1.0 - splitting * combining
  }

  /** RALG of ALG a in the genome. */
  ghost function Rearrangement(genes: seq<Gene>, a: string): (r: real)
    requires a in AlgSet(genes)
    ensures 0.0 <= r < 1.0
  {
    Ralg(Splitting(genes, a), Combining(genes, a))
  }

  /** A part of a non-empty whole is a share in (0, 1]. */
  lemma ShareBounds(part: nat, whole: nat)
    requires 0 < part <= whole
    ensures 0.0 < part as real / whole as real <= 1.0
  {
  }

  /** Multiplying two shares in (0, 1] gives a share in (0, 1], which is 1
      only when both are. */
  lemma ProductBounds(s: real, c: real)
    requires 0.0 < s <= 1.0 && 0.0 < c <= 1.0
    ensures 0.0 < s * c <= 1.0
    ensures s * c == 1.0 <==> s == 1.0 && c == 1.0
  {
    assert s * c <= s * 1.0;
    if s < 1.0 {
      assert s * c < 1.0 * c;
    } else if c < 1.0 {
      assert s * c < s * 1.0;
    }
  }

  /** SCHR is the same for every chromosome holding the most genes of a,
      so the tie-break does not affect it. */
  lemma SplittingAnyMaximal(genes: seq<Gene>, a: string, c: string)
    requires a in AlgSet(genes)
    requires forall c' :: Count(genes, c', a) <= Count(genes, c, a)
    ensures Splitting(genes, a) == Count(genes, c, a) as real / AlgSize(genes, a) as real
  {
  }

  /** An ALG is not rearranged exactly when all its genes lie on one
      chromosome that carries no gene of any other ALG. */
  lemma RearrangementZeroIff(genes: seq<Gene>, a: string)
    requires a in AlgSet(genes)
    ensures Rearrangement(genes, a) == 0.0 <==>
      exists c :: Count(genes, c, a) == AlgSize(genes, a) && Count(genes, c, a) == ChromSize(genes, c)
  {
    var h := Home(genes, a);
    var onHome := Count(genes, h, a);
    AlgSizePositive(genes, a);
    CountBounds(genes, h, h, a);
    ShareIsOne(onHome, AlgSize(genes, a));
    ShareIsOne(onHome, ChromSize(genes, h));
    assert Rearrangement(genes, a) == 0.0 <==> onHome == AlgSize(genes, a) && onHome == ChromSize(genes, h);
    forall c | Count(genes, c, a) == AlgSize(genes, a)
      ensures c == h
    {
      if c != h {
        CountBounds(genes, h, c, a);
      }
    }
  }

  /** A part of a non-empty whole is all of it exactly when the share is 1. */
  lemma ShareIsOne(part: nat, whole: nat)
    requires 0 < whole
    ensures part as real / whole as real == 1.0 <==> part == whole
  {
  }

  /** The per-genome computation: merge ALG sub-parts, then compute the
      three per-ALG result maps (RALG, SCHR, CCHR) of the merged table. */
  method ProcessGenome(genes: seq<Gene>)
    returns (rearrangement: map<string, real>, splitting: map<string, real>, combining: map<string, real>)
    ensures forall a :: a in splitting <==> a in AlgSet(MergeAlgs(genes))
    ensures forall a :: a in combining <==> a in splitting
    ensures forall a :: a in rearrangement <==> a in splitting
    ensures forall a :: a in splitting ==>
      && splitting[a] == Splitting(MergeAlgs(genes), a)
      && combining[a] == Combining(MergeAlgs(genes), a)
      && rearrangement[a] == Rearrangement(MergeAlgs(genes), a)
    ensures |rearrangement| >= 1 ==> 0.0 <= RearrangementIndex(rearrangement) < 1.0
  {
    var merged := MergeAlgs(genes);
    rearrangement, splitting, combining := AlgMetrics(merged);
  }

  /** The loop over the ALGs of one (already merged) genome: for each column
      of the table, its SCHR, CCHR and RALG are entered in the three result
      maps under the ALG's label. Every ALG it visits is a column of the
      table, so no entry is ever left undefined. */
  method AlgMetrics(genes: seq<Gene>)
    returns (rearrangement: map<string, real>, splitting: map<string, real>, combining: map<string, real>)
    ensures forall a :: a in splitting <==> a in AlgSet(genes)
    ensures forall a :: a in combining <==> a in splitting
    ensures forall a :: a in rearrangement <==> a in splitting
    ensures forall a :: a in splitting ==>
      && splitting[a] == Splitting(genes, a)
      && combining[a] == Combining(genes, a)
      && rearrangement[a] == Rearrangement(genes, a)
    ensures |rearrangement| >= 1 ==> 0.0 <= RearrangementIndex(rearrangement) < 1.0
  {
    var tab := CrossTabulate(genes);
    var chroms := Chromosomes(genes);
    var algs := Algs(genes);
    rearrangement, splitting, combining := map[], map[], map[];
    for i := 0 to |algs|
      invariant forall a :: a in splitting <==> a in algs[..i]
      invariant forall a :: a in combining <==> a in splitting
      invariant forall a :: a in rearrangement <==> a in splitting
      invariant forall a :: a in splitting ==>
        && a in AlgSet(genes)
        && splitting[a] == Splitting(genes, a)
        && combining[a] == Combining(genes, a)
        && rearrangement[a] == Rearrangement(genes, a)
    {
      var a := algs[i];
      var schr, cchr := HomeProportions(genes, tab, chroms, algs, a);
      splitting := splitting[a := schr];
      combining := combining[a := cchr];
      rearrangement := rearrangement[a := Ralg(schr, cchr)];
      PrefixExtend(algs, i);
    }
    assert algs[..|algs|] == algs;
    if |rearrangement| >= 1 {
      RearrangementIndexBounds(rearrangement);
    }
  }

  /** One iteration of the loop: reads the table's cell at the ALG's home
      row, the ALG's column sum and the home row's total, and divides. */
  method HomeProportions(genes: seq<Gene>, tab: Table, chroms: seq<string>, algs: seq<string>, a: string)
    returns (schr: real, cchr: real)
    requires tab == CrossTabulate(genes) && chroms == Chromosomes(genes) && algs == Algs(genes)
    requires a in algs
    ensures schr == Splitting(genes, a) && cchr == Combining(genes, a)
  {
    TableMetrics(genes, a);
    var home := HomeChromosome(tab, chroms, a);
    var onHome := CountOf(tab, home, a);
    schr := onHome as real / ColumnTotal(tab, chroms, a) as real;
    cchr := onHome as real / RowTotal(tab, home, algs) as real;
  }

  // ---------------------------------------------------------------------
  // Properties relating several genomes

  /** The results depend on the gene rows only, not on their order in the
      table. */
  lemma MetricsOrderIndependent(genes1: seq<Gene>, genes2: seq<Gene>, a: string)
    requires multiset(genes1) == multiset(genes2)
    requires a in AlgSet(genes1)
    ensures a in AlgSet(genes2)
    ensures Home(genes1, a) == Home(genes2, a)
    ensures Splitting(genes1, a) == Splitting(genes2, a)
    ensures Combining(genes1, a) == Combining(genes2, a)
    ensures Rearrangement(genes1, a) == Rearrangement(genes2, a)
  {
    CountsOrderIndependent(genes1, genes2);
    var h1, h2 := Home(genes1, a), Home(genes2, a);
    assert IsHome(genes2, a, h1);
    HomeUnique(genes2, a, h1, h2);
  }

  /** Reordering the rows of the input table, before the sub-parts are
      merged, leaves every result unchanged. */
  lemma ProcessGenomeOrderIndependent(genes1: seq<Gene>, genes2: seq<Gene>)
    requires multiset(genes1) == multiset(genes2)
    ensures AlgSet(MergeAlgs(genes1)) == AlgSet(MergeAlgs(genes2))
    ensures forall a :: a in AlgSet(MergeAlgs(genes1)) ==>
      && Splitting(MergeAlgs(genes1), a) == Splitting(MergeAlgs(genes2), a)
      && Combining(MergeAlgs(genes1), a) == Combining(MergeAlgs(genes2), a)
      && Rearrangement(MergeAlgs(genes1), a) == Rearrangement(MergeAlgs(genes2), a)
  {
    var merged1, merged2 := MergeAlgs(genes1), MergeAlgs(genes2);
    MergeAlgsOrderIndependent(genes1, genes2);
    CountsOrderIndependent(merged1, merged2);
    forall a | a in AlgSet(merged1)
      ensures && Splitting(merged1, a) == Splitting(merged2, a)
              && Combining(merged1, a) == Combining(merged2, a)
              && Rearrangement(merged1, a) == Rearrangement(merged2, a)
    {
      MetricsOrderIndependent(merged1, merged2, a);
    }
  }

  // ---------------------------------------------------------------------
  // Worked genomes

  /** The columns of a three-row genome. */
  lemma ThreeRowColumns(g0: Gene, g1: Gene, g2: Gene)
    ensures ChromosomeColumn([g0, g1, g2]) == [g0.chromosome, g1.chromosome, g2.chromosome]
    ensures AlgColumn([g0, g1, g2]) == [g0.alg, g1.alg, g2.alg]
  {
    ColumnsAppend([], g0);
    ColumnsAppend([g0], g1);
    ColumnsAppend([g0, g1], g2);
    assert [] + [g0] == [g0] && [g0] + [g1] == [g0, g1] && [g0, g1] + [g2] == [g0, g1, g2];
  }

  /** Fission: ALG X is split over two chromosomes, two genes on "1" and
      one on "2", and shares neither with another ALG. */
  function FissionGenome(): seq<Gene> {
    [Gene("1", "X"), Gene("1", "X"), Gene("2", "X")]
  }

  lemma FissionGenomeSizes()
    ensures "X" in AlgSet(FissionGenome()) && AlgSize(FissionGenome(), "X") == 3
    ensures ChromSize(FissionGenome(), "1") == 2
  {
    ThreeRowColumns(Gene("1", "X"), Gene("1", "X"), Gene("2", "X"));
    assert multiset(ChromosomeColumn(FissionGenome())) == multiset{"1", "1", "2"};
    assert multiset(AlgColumn(FissionGenome())) == multiset{"X", "X", "X"};
  }

  lemma FissionGenomeCells()
    ensures Count(FissionGenome(), "1", "X") == 2
    ensures forall c :: c != "1" ==> Count(FissionGenome(), c, "X") <= 1
  {
    assert multiset(FissionGenome()) == multiset{Gene("1", "X"), Gene("1", "X"), Gene("2", "X")};
  }

  /** A split ALG: home "1" holds 2 of its 3 genes (SCHR 2/3) and nothing
      else (CCHR 1), so RALG is 1/3. */
  lemma FissionExample()
    ensures "X" in AlgSet(FissionGenome())
    ensures Home(FissionGenome(), "X") == "1"
    ensures Splitting(FissionGenome(), "X") == 2.0 / 3.0
    ensures Combining(FissionGenome(), "X") == 1.0
    ensures Rearrangement(FissionGenome(), "X") == 1.0 / 3.0
  {
    var genes := FissionGenome();
    FissionGenomeSizes();
    FissionGenomeCells();
    assert IsHome(genes, "X", "1");
    HomeUnique(genes, "X", "1", Home(genes, "X"));
  }

  /** Fusion: ALGs X and Y share chromosome "1"; ALG Z is alone on "2". */
  function FusionGenome(): seq<Gene> {
    [Gene("1", "X"), Gene("1", "Y"), Gene("2", "Z")]
  }

  lemma FusionGenomeSizes()
    ensures "X" in AlgSet(FusionGenome()) && AlgSize(FusionGenome(), "X") == 1
    ensures "Z" in AlgSet(FusionGenome()) && AlgSize(FusionGenome(), "Z") == 1
    ensures ChromSize(FusionGenome(), "1") == 2 && ChromSize(FusionGenome(), "2") == 1
  {
    ThreeRowColumns(Gene("1", "X"), Gene("1", "Y"), Gene("2", "Z"));
    assert multiset(ChromosomeColumn(FusionGenome())) == multiset{"1", "1", "2"};
    assert multiset(AlgColumn(FusionGenome())) == multiset{"X", "Y", "Z"};
  }

  lemma FusionGenomeCells()
    ensures Count(FusionGenome(), "1", "X") == 1 && Count(FusionGenome(), "2", "Z") == 1
  {
    assert multiset(FusionGenome()) == multiset{Gene("1", "X"), Gene("1", "Y"), Gene("2", "Z")};
  }

  /** A fused ALG: all of X lies on "1" (SCHR 1), but half of "1" is Y
      (CCHR 1/2), so RALG is 1/2. */
  lemma FusionExample()
    ensures "X" in AlgSet(FusionGenome())
    ensures Home(FusionGenome(), "X") == "1"
    ensures Splitting(FusionGenome(), "X") == 1.0
    ensures Combining(FusionGenome(), "X") == 0.5
    ensures Rearrangement(FusionGenome(), "X") == 0.5
  {
    var genes := FusionGenome();
    FusionGenomeSizes();
    FusionGenomeCells();
    forall c ensures Count(genes, c, "X") <= 1 {
      CountBounds(genes, c, c, "X");
    }
    assert IsHome(genes, "X", "1");
    HomeUnique(genes, "X", "1", Home(genes, "X"));
  }

  /** In the same genome Z, alone on "2", is not rearranged. */
  lemma FusionIsolatedAlg()
    ensures "Z" in AlgSet(FusionGenome())
    ensures Rearrangement(FusionGenome(), "Z") == 0.0
  {
    FusionGenomeSizes();
    FusionGenomeCells();
    RearrangementZeroIff(FusionGenome(), "Z");
  }

  /** A genome in which ALG A has one gene on chromosome "1" and one on
      chromosome "2", and "2" also carries a gene of ALG B. */
  function TieGenome(): seq<Gene> {
    [Gene("1", "A"), Gene("2", "A"), Gene("2", "B")]
  }

  lemma TieGenomeSizes()
    ensures "A" in AlgSet(TieGenome())
    ensures ChromSize(TieGenome(), "1") == 1 && ChromSize(TieGenome(), "2") == 2
  {
    ThreeRowColumns(Gene("1", "A"), Gene("2", "A"), Gene("2", "B"));
    assert multiset(ChromosomeColumn(TieGenome())) == multiset{"1", "2", "2"};
  }

  lemma TieGenomeCells()
    ensures Count(TieGenome(), "1", "A") == 1 && Count(TieGenome(), "2", "A") == 1
    ensures forall c :: c != "1" && c != "2" ==> Count(TieGenome(), c, "A") == 0
  {
    assert multiset(TieGenome()) == multiset{Gene("1", "A"), Gene("2", "A"), Gene("2", "B")};
  }

  /** Which of several tied chromosomes is the home matters: A is tied
      between "1" and "2"; the first label, "1", is the home and gives CCHR 1,
      while "2" would have given 1/2. */
  lemma TieBreakDecidesCombining()
    ensures "A" in AlgSet(TieGenome())
    ensures Count(TieGenome(), "1", "A") == Count(TieGenome(), "2", "A")
    ensures Home(TieGenome(), "A") == "1"
    ensures Combining(TieGenome(), "A") == 1.0
    ensures Count(TieGenome(), "2", "A") as real / ChromSize(TieGenome(), "2") as real == 0.5
  {
    var genes := TieGenome();
    TieGenomeSizes();
    TieGenomeCells();
    LabelLessIrreflexive("1");
    assert !LabelLess("2", "1");
    assert IsHome(genes, "A", "1");
    HomeUnique(genes, "A", "1", Home(genes, "A"));
  }
}
