# Rearrangement Indexer — a verified model of the per-genome computation

The Rearrangement Indexer summarises interchromosomal rearrangement in a
genome. Each gene is assigned to an ancestral linkage group (ALG). For each
ALG `a` of a genome the indexer computes three values:

- **SCHR(a)**, the splitting parameter: the largest share of `a`'s genes that
  lie on one chromosome. That chromosome is the "home" of `a`.
- **CCHR(a)**, the combining parameter: the share of the home chromosome's
  genes that belong to `a`.
- **RALG(a)** = 1 − SCHR(a) × CCHR(a), the rearrangement index of `a`.

The genome index is Ri = ΣRALG / N over the N ALGs of the genome.

The model covers `process_tsv_file` from the point where the gene table is
in memory. A genome is a sequence of `Gene(chromosome, alg)` rows. The model
has these parts:

- **Relabelling (module `Labels`, `CrossTab.MergeAlgs`).** ALG sub-parts are
  folded into their parent group: A1a/A1b become A1, Ea/Eb become E and Qa–Qd
  become Q.
- **Cross-tabulation (module `CrossTab`).** Genes are counted per
  (chromosome, ALG) pair, and the table's rows are summed. Counts are
  specified directly from the multiset of gene rows: `Count`, `ChromSize` and
  the ALG total `AlgSize` = T_a. The table built row by row
  (`CrossTabulate`), its row sums and its column sums are proved equal to
  them.
- **Home chromosome.** `idxmax` over the table's chromosome index returns the
  first chromosome holding the largest count of `a`. The index is sorted by
  label, so ties go to the label that comes first in code-point order
  (`Labels.LabelLess`). `Indexer.IsHome` states this, and `Indexer.HomeUnique`
  shows it leaves no choice.
- **The per-ALG loop (`Indexer.AlgMetrics`).** This is a method that builds
  the table once and then fills the three result maps, one entry per ALG
  column of the table. Its postcondition
  ties every entry to the specification functions `Splitting`, `Combining`
  and `Rearrangement`. `Indexer.ProcessGenome` is the whole computation:
  relabel, then run the loop.
- **Genome index (module `Aggregate`).** Ri is the sum of a per-ALG map
  divided by its size, for N ≥ 1.

All ratios are exact rationals (`real`).

When several chromosomes tie for the largest count of an ALG, SCHR does not
depend on which one is chosen (`Indexer.SplittingAnyMaximal`). CCHR can,
because tied chromosomes may carry different numbers of genes. The model
follows `idxmax`, which picks the first tied label.
`Indexer.TieBreakDecidesCombining` exhibits a genome in which ALG A is tied
between chromosomes "1" and "2". The chosen home, "1", gives CCHR 1; choosing
"2" would give 1/2.

Three small genomes illustrate the parameters. In the fission genome, ALG X
has two genes on chromosome "1" and one on "2". In the fusion genome,
chromosome "1" carries one gene each of ALGs X and Y, and chromosome "2"
carries the one gene of ALG Z.

## Model

| member | source | states |
|---|---|---|
| Labels.MergeAlg | RearrangementIndexer.py:119 | A1a/A1b (and A1) map to A1, Ea/Eb (and E) to E, Qa–Qd (and Q) to Q, each as an if-and-only-if; every other label is left unchanged, and no result is a sub-part label |
| Labels.MergeAlgIdempotent | RearrangementIndexer.py:119 | relabelling twice is the same as relabelling once |
| Labels.LabelLessStrictOrder | RearrangementIndexer.py:122 | the label order of the table index is irreflexive and transitive |
| Labels.LabelLessTotal | RearrangementIndexer.py:122 | any two distinct labels are ordered, so the sorted index has a unique first label among any ties |
| CrossTab.MergeAlgs | RearrangementIndexer.py:119 | the relabelled table keeps every row and its chromosome, relabels each ALG, and contains no sub-part label |
| CrossTab.MergeAlgsIdempotent | RearrangementIndexer.py:119 | relabelling the whole table twice equals relabelling it once |
| CrossTab.MergeAlgsOrderIndependent | RearrangementIndexer.py:119 | reordering the input rows only reorders the relabelled rows |
| CrossTab.CrossTabulate | RearrangementIndexer.py:122 | every cell of the grouped and unstacked table, with absent pairs read as 0, equals the number of gene rows with that chromosome and ALG; every stored cell is at least 1 |
| CrossTab.Chromosomes | RearrangementIndexer.py:122 | the table's row labels are exactly the chromosomes carrying a gene, each once |
| CrossTab.Algs | RearrangementIndexer.py:131 | the table's column labels are exactly the ALGs occurring in the genome, each once |
| CrossTab.RowTotal | RearrangementIndexer.py:125 | a chromosome's row sum is at least each of its cells, and is 0 exactly when every cell of the row is 0 |
| CrossTab.ColumnTotal | RearrangementIndexer.py:147 | an ALG's column sum is at least each of its cells, and is 0 exactly when every cell of the column is 0 |
| CrossTab.RowTotalIsChromSize | RearrangementIndexer.py:125 | a chromosome's row sum over all ALG columns is the number of genes on it |
| CrossTab.ColumnTotalIsAlgSize | RearrangementIndexer.py:147 | an ALG's column sum over all chromosome rows is T_a, its number of genes |
| CrossTab.CountBounds | RearrangementIndexer.py:122-125 | a cell is at most its row total and at most its column total; two cells of one column on different rows sum to at most the column total |
| CrossTab.AlgSizePositive | RearrangementIndexer.py:131 | an ALG is a column of the table exactly when T_a ≥ 1, so no division by T_a is by zero |
| CrossTab.CountsOrderIndependent | RearrangementIndexer.py:122-125 | permuting the gene rows changes no cell, no row or column total, and no set of row or column labels |
| CrossTab.HomeChromosome | RearrangementIndexer.py:134 | the chosen row is a table row whose count of the ALG is at least that of every row, and every row with a smaller label has a strictly smaller count |
| Indexer.HomeUnique | RearrangementIndexer.py:134 | the first-maximum rule determines the home chromosome uniquely |
| Indexer.HomeChromosomeIsHome | RearrangementIndexer.py:134 | for every ALG of the table, the table's first-maximum row holds a gene of the ALG and is its home over all chromosomes, not only over the table's rows |
| Indexer.Home | RearrangementIndexer.py:134 | the home chromosome holds at least one gene of the ALG and a maximal number of them, with ties going to the first label |
| Indexer.TableMetrics | RearrangementIndexer.py:142-154 | the cell at the home row divided by the column sum is SCHR, and divided by the home row's sum is CCHR; both divisors are at least 1 |
| Indexer.Splitting | RearrangementIndexer.py:147 | SCHR lies in (0, 1] |
| Indexer.SplittingIsMaximum | RearrangementIndexer.py:51-53 | SCHR is the highest proportion of the ALG's genes found on any single chromosome, and some chromosome attains it |
| Indexer.SplittingAnyMaximal | RearrangementIndexer.py:51-53 | any chromosome with the maximal count gives the same SCHR, so the tie-break does not affect SCHR |
| Indexer.Combining | RearrangementIndexer.py:154 | CCHR lies in (0, 1] |
| Indexer.Ralg | RearrangementIndexer.py:49 | for parameters in (0, 1], RALG lies in [0, 1) and is 0 exactly when both parameters are 1 |
| Indexer.Rearrangement | RearrangementIndexer.py:161 | RALG of an ALG of the genome lies in [0, 1) |
| Indexer.RearrangementZeroIff | RearrangementIndexer.py:49-56 | RALG is 0 exactly when some chromosome carries all of the ALG's genes and no gene of any other ALG |
| Indexer.TieBreakDecidesCombining | RearrangementIndexer.py:134 | in a genome where ALG A is tied between chromosomes "1" and "2", the home is "1" and CCHR is 1, while "2" would give 1/2 |
| Indexer.FissionExample | RearrangementIndexer.py:41-56 | in the fission genome, X's home is "1", SCHR is 2/3, CCHR is 1 and RALG is 1/3 |
| Indexer.FusionExample | RearrangementIndexer.py:41-56 | in the fusion genome, X's home is "1", SCHR is 1, CCHR is 1/2 and RALG is 1/2 |
| Indexer.FusionIsolatedAlg | RearrangementIndexer.py:41-56 | in the fusion genome, Z is kept together and kept in isolation, so its RALG is 0 |
| Indexer.AlgMetrics | RearrangementIndexer.py:141-164 | the three result maps each have exactly one key per ALG of the table, and each entry is that ALG's SCHR, CCHR and RALG; when non-empty, their Ri lies in [0, 1) |
| Indexer.HomeProportions | RearrangementIndexer.py:142-154 | one loop step computes exactly the ALG's SCHR and CCHR |
| Indexer.ProcessGenome | RearrangementIndexer.py:118-171 | after relabelling, the result maps have one key per ALG of the relabelled genome, holding its SCHR, CCHR and RALG; Ri of a non-empty result lies in [0, 1) |
| Indexer.MetricsOrderIndependent | RearrangementIndexer.py:122-164 | two orderings of the same gene rows have the same ALGs, homes, SCHR, CCHR and RALG |
| Indexer.ProcessGenomeOrderIndependent | RearrangementIndexer.py:118-164 | reordering the input rows before relabelling leaves the set of ALGs and every SCHR, CCHR and RALG unchanged |
| Aggregate.SumValues | RearrangementIndexer.py:60 | a sum of non-negative RALG values is non-negative and at least each of them |
| Aggregate.SumValuesBetween | RearrangementIndexer.py:60 | N values between lo and hi sum to between N·lo and N·hi |
| Aggregate.RearrangementIndex | RearrangementIndexer.py:58-64 | Ri = ΣRALG / N for N ≥ 1 lies between the smallest and the largest RALG of the genome |
| Aggregate.SumValuesPick | RearrangementIndexer.py:60 | the sum of the RALG values does not depend on the order in which the ALGs are added |
| Aggregate.SumValuesBounds | RearrangementIndexer.py:60 | N values in [0, 1) sum to at least 0 and at most N, and to less than N when N ≥ 1 |
| Aggregate.SumValuesZero | RearrangementIndexer.py:60 | a sum of non-negative RALG values is 0 exactly when each of them is 0 |
| Aggregate.SumValuesMonotone | RearrangementIndexer.py:60 | raising RALG values never lowers their sum |
| Aggregate.RearrangementIndexBounds | RearrangementIndexer.py:58-64 | Ri of N ≥ 1 ALGs whose RALG lie in [0, 1) lies in [0, 1) |
| Aggregate.RearrangementIndexZero | RearrangementIndexer.py:58-64 | Ri is 0 exactly when no ALG is rearranged |
| Aggregate.RearrangementIndexMonotone | RearrangementIndexer.py:65-66 | over the same ALGs, higher RALG values give a higher or equal Ri |

## Left out

- File loading (`pd.read_csv`, RearrangementIndexer.py:113) is I/O. That includes the error it raises on an empty file. The model takes the gene rows as an in-memory sequence.
- The Index, Status, Start and End columns (RearrangementIndexer.py:116) are read but never used, so a row keeps only its chromosome and ALG.
- `chrom_alg_proportions` (RearrangementIndexer.py:128) is computed but never read, so it is not modelled.
- The progress and citation prints (RearrangementIndexer.py:106, 110, 143) are output only.
- `main`, the command-line check, `pd.concat` across genomes and `to_csv` (RearrangementIndexer.py:173-216) are I/O and table plumbing. They are not part of this model.
- Values are exact rationals. pandas computes them in IEEE double precision, and that rounding is not modelled.
- The `pd.NA` branches (RearrangementIndexer.py:148-149, 155-156, 162-163) are never taken, because the loop visits only the table's own columns. `Indexer.TableMetrics`, which each loop step of `Indexer.AlgMetrics` reaches through `Indexer.HomeProportions`, proves that the column sum of every visited ALG is at least 1, and `CrossTab.AlgSizePositive` proves T_a ≥ 1 for every ALG of the table, so the model has no such branch.
- Rows whose chromosome or ALG is missing are dropped by pandas `groupby`. A `Gene` always has both labels, so that case is not represented.
- Label order is code-point order on strings. pandas sorts an index whose labels were parsed as numbers numerically, and that case is not modelled.
- The order of entries in the three result series is not modelled; the maps are unordered.
- Aggregate.RearrangementIndex: the script never computes Ri; it appears only in its documentation (RearrangementIndexer.py:58-64). The model defines it for N ≥ 1 only, since 0/0 has no value.
