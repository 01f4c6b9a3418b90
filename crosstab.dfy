/** The chromosome x ALG cross-tabulation of one genome table.

    The indexer groups the gene rows by (chromosome, ALG), counts each group,
    lays the counts out as a table with one row per chromosome and one column
    per ALG (absent pairs read as 0), sums each row, and finds for each column
    the first row holding its largest count.  Here the table is a map from
    (chromosome, ALG) pairs to counts, built row by row from the genes; what
    it computes is stated against counts taken directly from the multiset of
    gene rows (Count, ChromSize, AlgSize), which do not depend on row order.
 */
module CrossTab {
  import opened Labels
  import opened Seqs

  /** A gene row of a genome table, reduced to the two columns the index
      reads: the chromosome it lies on and its ALG label. */
  datatype Gene = Gene(chromosome: string, alg: string)

  function ChromosomeOf(g: Gene): string { g.chromosome }

  function AlgOf(g: Gene): string { g.alg }

  function MergeGene(g: Gene): Gene { Gene(g.chromosome, MergeAlg(g.alg)) }

  /** The genome table with its ALG column relabelled by MergeAlg. */
  function MergeAlgs(genes: seq<Gene>): (merged: seq<Gene>)
    ensures |merged| == |genes|
    ensures forall i :: 0 <= i < |genes| ==>
      merged[i].chromosome == genes[i].chromosome && merged[i].alg == MergeAlg(genes[i].alg)
    ensures forall g :: g in merged ==> g.alg !in SubPartParent
  {
    MapSeq(MergeGene, genes)
  }

  lemma MergeAlgsIdempotent(genes: seq<Gene>)
    ensures MergeAlgs(MergeAlgs(genes)) == MergeAlgs(genes)
  {
  }

  lemma MergeAlgsOrderIndependent(genes1: seq<Gene>, genes2: seq<Gene>)
    requires multiset(genes1) == multiset(genes2)
    ensures multiset(MergeAlgs(genes1)) == multiset(MergeAlgs(genes2))
  {
    MapSeqPermutation(MergeGene, genes1, genes2);
  }

  // ---------------------------------------------------------------------
  // Counts taken directly from the gene rows

  /** The chromosome column of the table, in row order. */
  function ChromosomeColumn(genes: seq<Gene>): seq<string> {
    if genes == [] then [] else ChromosomeColumn(genes[..|genes| - 1]) + [genes[|genes| - 1].chromosome]
  }

  /** The ALG column of the table, in row order. */
  function AlgColumn(genes: seq<Gene>): seq<string> {
    if genes == [] then [] else AlgColumn(genes[..|genes| - 1]) + [genes[|genes| - 1].alg]
  }

  /** The columns are the rows projected onto one field. */
  lemma {:induction false} ColumnsAreProjections(genes: seq<Gene>)
    ensures ChromosomeColumn(genes) == MapSeq(ChromosomeOf, genes)
    ensures AlgColumn(genes) == MapSeq(AlgOf, genes)
    decreases |genes|
  {
    if genes != [] {
      var n := |genes| - 1;
      assert genes == genes[..n] + [genes[n]];
      ColumnsAreProjections(genes[..n]);
      MapSeqAppend(ChromosomeOf, genes[..n], [genes[n]]);
      MapSeqAppend(AlgOf, genes[..n], [genes[n]]);
    }
  }

  lemma ColumnsAppend(genes: seq<Gene>, g: Gene)
    ensures ChromosomeColumn(genes + [g]) == ChromosomeColumn(genes) + [g.chromosome]
    ensures AlgColumn(genes + [g]) == AlgColumn(genes) + [g.alg]
  {
    assert (genes + [g])[..|genes|] == genes;
  }

  /** Number of genes on chromosome c whose ALG is a. */
  function Count(genes: seq<Gene>, c: string, a: string): nat {
    multiset(genes)[Gene(c, a)]
  }

  /** Number of genes on chromosome c. */
  function ChromSize(genes: seq<Gene>, c: string): nat {
    multiset(ChromosomeColumn(genes))[c]
  }

  /** Number of genes of ALG a (T_a). */
  function AlgSize(genes: seq<Gene>, a: string): nat {
    multiset(AlgColumn(genes))[a]
  }

  /** The chromosomes that carry a gene. */
  function ChromSet(genes: seq<Gene>): set<string> {
    set c | c in ChromosomeColumn(genes)
  }

  /** The ALGs that occur in the table. */
  function AlgSet(genes: seq<Gene>): set<string> {
    set a | a in AlgColumn(genes)
  }

  /** Every row contributes its chromosome and its ALG. */
  lemma {:induction false} RowInColumns(genes: seq<Gene>, i: nat)
    requires i < |genes|
    ensures genes[i].chromosome in ChromSet(genes) && genes[i].alg in AlgSet(genes)
    decreases |genes|
  {
    var n := |genes| - 1;
    if i < n {
      RowInColumns(genes[..n], i);
    }
  }

  /** Every ALG of the table comes from some row. */
  lemma {:induction false} AlgFromRow(genes: seq<Gene>, a: string)
    requires a in AlgSet(genes)
    ensures exists i :: 0 <= i < |genes| && genes[i].alg == a
    decreases |genes|
  {
    var n := |genes| - 1;
    if genes[n].alg != a {
      AlgFromRow(genes[..n], a);
      var i :| 0 <= i < n && genes[..n][i].alg == a;
      assert genes[i].alg == a;
    }
  }

  lemma ChromSizeAppend(genes: seq<Gene>, g: Gene, c: string)
    ensures ChromSize(genes + [g], c) == ChromSize(genes, c) + (if g.chromosome == c then 1 else 0)
  {
    ColumnsAppend(genes, g);
  }

  lemma AlgSizeAppend(genes: seq<Gene>, g: Gene, a: string)
    ensures AlgSize(genes + [g], a) == AlgSize(genes, a) + (if g.alg == a then 1 else 0)
  {
    ColumnsAppend(genes, g);
  }

  /** A group is no larger than its chromosome or its ALG, and two groups of
      one ALG on different chromosomes together are no larger than the ALG. */
  lemma {:induction false} CountBounds(genes: seq<Gene>, c: string, c': string, a: string)
    ensures Count(genes, c, a) <= ChromSize(genes, c)
    ensures Count(genes, c, a) <= AlgSize(genes, a)
    ensures c != c' ==> Count(genes, c, a) + Count(genes, c', a) <= AlgSize(genes, a)
    decreases |genes|
  {
    if genes != [] {
      var n := |genes| - 1;
      assert genes == genes[..n] + [genes[n]];
      CountBounds(genes[..n], c, c', a);
      ChromSizeAppend(genes[..n], genes[n], c);
      AlgSizeAppend(genes[..n], genes[n], a);
    }
  }

  /** An ALG occurs in the table exactly when it has at least one gene. */
  lemma AlgSizePositive(genes: seq<Gene>, a: string)
    ensures a in AlgSet(genes) <==> AlgSize(genes, a) >= 1
  {
  }

  /** Permuting the rows changes none of the counts. */
  lemma CountsOrderIndependent(genes1: seq<Gene>, genes2: seq<Gene>)
    requires multiset(genes1) == multiset(genes2)
    ensures forall c, a :: Count(genes1, c, a) == Count(genes2, c, a)
    ensures forall c :: ChromSize(genes1, c) == ChromSize(genes2, c)
    ensures forall a :: AlgSize(genes1, a) == AlgSize(genes2, a)
    ensures ChromSet(genes1) == ChromSet(genes2)
    ensures AlgSet(genes1) == AlgSet(genes2)
  {
    ColumnsPermutation(genes1, genes2);
    SameMultisetSameSet(ChromosomeColumn(genes1), ChromosomeColumn(genes2));
    SameMultisetSameSet(AlgColumn(genes1), AlgColumn(genes2));
  }

  /** Permuting the rows permutes both columns. */
  lemma ColumnsPermutation(genes1: seq<Gene>, genes2: seq<Gene>)
    requires multiset(genes1) == multiset(genes2)
    ensures multiset(ChromosomeColumn(genes1)) == multiset(ChromosomeColumn(genes2))
    ensures multiset(AlgColumn(genes1)) == multiset(AlgColumn(genes2))
  {
    ColumnsAreProjections(genes1);
    ColumnsAreProjections(genes2);
    MapSeqPermutation(ChromosomeOf, genes1, genes2);
    MapSeqPermutation(AlgOf, genes1, genes2);
  }

  // ---------------------------------------------------------------------
  // The table

  /** Counts keyed by (chromosome, ALG); only observed pairs are stored. */
  type Table = map<(string, string), nat>

  /** A cell of the unstacked table: a pair never observed reads as 0. */
  function CountOf(tab: Table, c: string, a: string): nat {
    if (c, a) in tab then tab[(c, a)] else 0
  }

  /** Groups the genes by (chromosome, ALG) and counts each group. */
  function CrossTabulate(genes: seq<Gene>): (tab: Table)
    ensures forall c, a :: CountOf(tab, c, a) == Count(genes, c, a)
    ensures forall k :: k in tab ==> tab[k] >= 1
  {
    if genes == [] then map[]
    else
      var n := |genes| - 1;
      var g := genes[n];
      var tab' := CrossTabulate(genes[..n]);
      assert genes == genes[..n] + [g];
      assert multiset(genes) == multiset(genes[..n]) + multiset{g};
      var tab := tab'[(g.chromosome, g.alg) := CountOf(tab', g.chromosome, g.alg) + 1];
      assert forall c, a :: CountOf(tab, c, a) == CountOf(tab', c, a) + (if Gene(c, a) == g then 1 else 0);
      tab
  }

  /** The row labels of the table: every chromosome carrying a gene, once. */
  function Chromosomes(genes: seq<Gene>): (cs: seq<string>)
    ensures NoDuplicates(cs)
    ensures forall c :: c in cs <==> c in ChromSet(genes)
  {
    Distinct(ChromosomeColumn(genes))
  }

  /** The column labels of the table: every ALG in the table, once. */
  function Algs(genes: seq<Gene>): (algs: seq<string>)
    ensures NoDuplicates(algs)
    ensures forall a :: a in algs <==> a in AlgSet(genes)
  {
    Distinct(AlgColumn(genes))
  }

  /** Sum of row c over the given columns. */
  function RowTotal(tab: Table, c: string, algs: seq<string>): (total: nat)
    ensures forall a :: a in algs ==> CountOf(tab, c, a) <= total
    ensures total == 0 <==> forall a :: a in algs ==> CountOf(tab, c, a) == 0
  {
    if algs == [] then 0
    else
      assert forall a :: a in algs ==> a == algs[0] || a in algs[1..];
      CountOf(tab, c, algs[0]) + RowTotal(tab, c, algs[1..])
  }

  /** Sum of column a over the given rows. */
  function ColumnTotal(tab: Table, cs: seq<string>, a: string): (total: nat)
    ensures forall c :: c in cs ==> CountOf(tab, c, a) <= total
    ensures total == 0 <==> forall c :: c in cs ==> CountOf(tab, c, a) == 0
  {
    if cs == [] then 0
    else
      assert forall c :: c in cs ==> c == cs[0] || c in cs[1..];
      CountOf(tab, cs[0], a) + ColumnTotal(tab, cs[1..], a)
  }

  lemma {:induction false} RowTotalEmpty(c: string, algs: seq<string>)
    ensures RowTotal(CrossTabulate([]), c, algs) == 0
    decreases |algs|
  {
    if algs != [] {
      RowTotalEmpty(c, algs[1..]);
    }
  }

  lemma {:induction false} RowTotalStep(genes: seq<Gene>, g: Gene, c: string, algs: seq<string>)
    requires NoDuplicates(algs)
    ensures RowTotal(CrossTabulate(genes + [g]), c, algs)
         == RowTotal(CrossTabulate(genes), c, algs) + (if g.chromosome == c && g.alg in algs then 1 else 0)
    decreases |algs|
  {
    if algs != [] {
      assert multiset(genes + [g]) == multiset(genes) + multiset{g};
      RowTotalStep(genes, g, c, algs[1..]);
    }
  }

  /** The row sum over all columns is the number of genes on the chromosome. */
  lemma {:induction false} RowTotalIsChromSize(genes: seq<Gene>, c: string, algs: seq<string>)
    requires NoDuplicates(algs)
    requires forall a :: a in AlgSet(genes) ==> a in algs
    ensures RowTotal(CrossTabulate(genes), c, algs) == ChromSize(genes, c)
    decreases |genes|
  {
    if genes == [] {
      RowTotalEmpty(c, algs);
    } else {
      var n := |genes| - 1;
      assert genes == genes[..n] + [genes[n]];
      RowTotalIsChromSize(genes[..n], c, algs);
      RowTotalStep(genes[..n], genes[n], c, algs);
      ChromSizeAppend(genes[..n], genes[n], c);
    }
  }

  lemma {:induction false} ColumnTotalEmpty(cs: seq<string>, a: string)
    ensures ColumnTotal(CrossTabulate([]), cs, a) == 0
    decreases |cs|
  {
    if cs != [] {
      ColumnTotalEmpty(cs[1..], a);
    }
  }

  lemma {:induction false} ColumnTotalStep(genes: seq<Gene>, g: Gene, cs: seq<string>, a: string)
    requires NoDuplicates(cs)
    ensures ColumnTotal(CrossTabulate(genes + [g]), cs, a)
         == ColumnTotal(CrossTabulate(genes), cs, a) + (if g.alg == a && g.chromosome in cs then 1 else 0)
    decreases |cs|
  {
    if cs != [] {
      assert multiset(genes + [g]) == multiset(genes) + multiset{g};
      ColumnTotalStep(genes, g, cs[1..], a);
    }
  }

  /** The column sum over all rows is the number of genes of the ALG. */
  lemma {:induction false} ColumnTotalIsAlgSize(genes: seq<Gene>, cs: seq<string>, a: string)
    requires NoDuplicates(cs)
    requires forall c :: c in ChromSet(genes) ==> c in cs
    ensures ColumnTotal(CrossTabulate(genes), cs, a) == AlgSize(genes, a)
    decreases |genes|
  {
    if genes == [] {
      ColumnTotalEmpty(cs, a);
    } else {
      var n := |genes| - 1;
      assert genes == genes[..n] + [genes[n]];
      ColumnTotalIsAlgSize(genes[..n], cs, a);
      ColumnTotalStep(genes[..n], genes[n], cs, a);
      AlgSizeAppend(genes[..n], genes[n], a);
    }
  }

  /** The row of column a holding its largest count; among rows that tie, the
      one whose label comes first. */
  function HomeChromosome(tab: Table, cs: seq<string>, a: string): (h: string)
    requires |cs| > 0
    ensures h in cs
    ensures forall c :: c in cs ==> CountOf(tab, c, a) <= CountOf(tab, h, a)
    ensures forall c :: c in cs && LabelLess(c, h) ==> CountOf(tab, c, a) < CountOf(tab, h, a)
  {
    LabelLessStrictOrder();
    if |cs| == 1 then cs[0]
    else
      var h := HomeChromosome(tab, cs[1..], a);
      var first, best := CountOf(tab, cs[0], a), CountOf(tab, h, a);
      assert forall c :: c in cs ==> c == cs[0] || c in cs[1..];
      if first > best || (first == best && LabelLess(cs[0], h)) then cs[0] else h
  }
}
