/** Labels of chromosomes and ancestral linkage groups (ALGs).

    Two things about labels matter to the indexer: the order in which the
    cross-tabulation lists chromosome labels (it decides which chromosome is
    the "home" of an ALG when several tie), and the fixed relabelling that
    folds ALG sub-parts into their parent group before anything is counted.
 */
module Labels {

  /** The order of labels in the cross-tabulation's index: labels are compared
      character by character by code point, and a proper prefix comes first. */
  predicate LabelLess(x: string, y: string)
    decreases |x|
  {
    if |x| == 0 then |y| > 0
    else |y| > 0 && (x[0] < y[0] || (x[0] == y[0] && LabelLess(x[1..], y[1..])))
  }

  lemma {:induction false} LabelLessIrreflexive(x: string)
    ensures !LabelLess(x, x)
    decreases |x|
  {
    if |x| > 0 {
      LabelLessIrreflexive(x[1..]);
    }
  }

  lemma {:induction false} LabelLessTransitive(x: string, y: string, z: string)
    requires LabelLess(x, y) && LabelLess(y, z)
    ensures LabelLess(x, z)
    decreases |x|
  {
    if |x| > 0 && x[0] == y[0] && y[0] == z[0] {
      LabelLessTransitive(x[1..], y[1..], z[1..]);
    }
  }

  /** Any two distinct labels are ordered one way or the other. */
  lemma {:induction false} LabelLessTotal(x: string, y: string)
    requires x != y
    ensures LabelLess(x, y) || LabelLess(y, x)
    decreases |x|
  {
    if |x| > 0 && |y| > 0 && x[0] == y[0] {
      assert x == [x[0]] + x[1..] && y == [y[0]] + y[1..];
      LabelLessTotal(x[1..], y[1..]);
    }
  }

  /** LabelLess is a strict order, stated for all labels at once. */
  lemma LabelLessStrictOrder()
    ensures forall x :: !LabelLess(x, x)
    ensures forall x, y, z :: LabelLess(x, y) && LabelLess(y, z) ==> LabelLess(x, z)
  {
    forall x {
      LabelLessIrreflexive(x);
    }
    forall x, y, z | LabelLess(x, y) && LabelLess(y, z) {
      LabelLessTransitive(x, y, z);
    }
  }

  /** The sub-parts of split ALGs and the parent group each one is folded into. */
  const SubPartParent: map<string, string> :=
    map["A1a" := "A1", "A1b" := "A1",
        "Ea" := "E", "Eb" := "E",
        "Qa" := "Q", "Qb" := "Q", "Qc" := "Q", "Qd" := "Q"]

  /** The relabelling applied to the ALG column before counting. */
  function MergeAlg(alg: string): (merged: string)
    ensures merged == "A1" <==> alg in {"A1", "A1a", "A1b"}
    ensures merged == "E" <==> alg in {"E", "Ea", "Eb"}
    ensures merged == "Q" <==> alg in {"Q", "Qa", "Qb", "Qc", "Qd"}
    ensures alg !in SubPartParent ==> merged == alg
    ensures merged !in SubPartParent
  {
    if alg in SubPartParent then SubPartParent[alg] else alg
  }

  lemma MergeAlgIdempotent(alg: string)
    ensures MergeAlg(MergeAlg(alg)) == MergeAlg(alg)
  {
  }
}
