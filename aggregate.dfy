/** The genome-level Rearrangement Index: Ri = (sum of RALG) / N, where N is
    the number of ALGs the genome's per-ALG result holds. */
module Aggregate {

  /** Sum of the values of a per-ALG map. The key taken first is an arbitrary
      one; SumValuesPick shows the sum does not depend on that choice. */
  ghost function SumValues(m: map<string, real>): (s: real)
    ensures (forall k :: k in m ==> 0.0 <= m[k]) ==> 0.0 <= s && forall k :: k in m ==> m[k] <= s
    decreases |m|
  {
    if m == map[] then 0.0
    else
      var k :| k in m;
      assert (m - {k}).Keys == m.Keys - {k};
      assert forall k' :: k' in m && k' != k ==> k' in m - {k};
      m[k] + SumValues(m - {k})
  }

  /** Any key may be taken out first. */
  lemma {:induction false} SumValuesPick(m: map<string, real>, k: string)
    requires k in m
    ensures SumValues(m) == m[k] + SumValues(m - {k})
    decreases |m|
  {
    var k' :| k' in m && SumValues(m) == m[k'] + SumValues(m - {k'});
    if k' != k {
      assert (m - {k'}).Keys == m.Keys - {k'};
      assert (m - {k}).Keys == m.Keys - {k};
      SumValuesPick(m - {k'}, k);
      SumValuesPick(m - {k}, k');
      assert m - {k'} - {k} == m - {k} - {k'};
    }
  }

  /** Ri for a genome whose per-ALG result holds at least one ALG. */
  ghost function RearrangementIndex(ralg: map<string, real>): (ri: real)
    requires |ralg| >= 1
    ensures exists a :: a in ralg && ralg[a] <= ri
    ensures exists a :: a in ralg && ri <= ralg[a]
  {
    var lo, hi := MinKey(ralg), MaxKey(ralg);
    var sum := SumValues(ralg);
    SumValuesBetween(ralg, ralg[lo], ralg[hi]);
    MeanBetween(sum, |ralg|, ralg[lo], ralg[hi]);
    sum / |ralg| as real
  }

  /** A key holding the smallest value of a non-empty map. */
  ghost function MinKey(m: map<string, real>): (k: string)
    requires m != map[]
    ensures k in m && forall k' :: k' in m ==> m[k] <= m[k']
    decreases |m|
  {
    var k :| k in m;
    var rest := m - {k};
    assert rest.Keys == m.Keys - {k};
    assert forall k' :: k' in m && k' != k ==> k' in rest;
    if rest == map[] then k
    else
      var k' := MinKey(rest);
      if m[k'] < m[k] then k' else k
  }

  /** A key holding the largest value of a non-empty map. */
  ghost function MaxKey(m: map<string, real>): (k: string)
    requires m != map[]
    ensures k in m && forall k' :: k' in m ==> m[k'] <= m[k]
    decreases |m|
  {
    var k :| k in m;
    var rest := m - {k};
    assert rest.Keys == m.Keys - {k};
    assert forall k' :: k' in m && k' != k ==> k' in rest;
    if rest == map[] then k
    else
      var k' := MaxKey(rest);
      if m[k'] > m[k] then k' else k
  }

  /** x added n times. */
  function Scale(n: nat, x: real): (r: real)
    ensures r == n as real * x
  {
    if n == 0 then 0.0 else ScaleStep(n, x); Scale(n - 1, x) + x
  }

  lemma ScaleStep(n: nat, x: real)
    requires n >= 1
    ensures n as real * x == (n - 1) as real * x + x
  {
  }

  /** N values between lo and hi sum to between N * lo and N * hi. */
  lemma {:induction false} SumValuesBetween(m: map<string, real>, lo: real, hi: real)
    requires forall k :: k in m ==> lo <= m[k] <= hi
    ensures Scale(|m|, lo) <= SumValues(m) <= Scale(|m|, hi)
    decreases |m|
  {
    if m != map[] {
      var k :| k in m;
      var rest := m - {k};
      assert rest.Keys == m.Keys - {k};
      SumValuesPick(m, k);
      SumValuesBetween(rest, lo, hi);
      assert |m| == |rest| + 1;
    }
  }

  /** The mean of n values between lo and hi lies between lo and hi. */
  lemma MeanBetween(sum: real, n: nat, lo: real, hi: real)
    requires n >= 1 && Scale(n, lo) <= sum <= Scale(n, hi)
    ensures lo <= sum / n as real <= hi
  {
    DivideBelow(lo, n as real, sum);
    DivideAbove(hi, n as real, sum);
  }

  lemma DivideBelow(x: real, d: real, y: real)
    requires d > 0.0 && d * x <= y
    ensures x <= y / d
  {
    assert y / d - x == (y - d * x) / d;
  }

  lemma DivideAbove(x: real, d: real, y: real)
    requires d > 0.0 && y <= d * x
    ensures y / d <= x
  {
    assert x - y / d == (d * x - y) / d;
  }

  /** The sum of N values in [0, 1) lies in [0, N), and is N only if empty. */
  lemma {:induction false} SumValuesBounds(m: map<string, real>)
    requires forall k :: k in m ==> 0.0 <= m[k] < 1.0
    ensures 0.0 <= SumValues(m) <= |m| as real
    ensures m != map[] ==> SumValues(m) < |m| as real
    decreases |m|
  {
    if m != map[] {
      var k :| k in m;
      assert (m - {k}).Keys == m.Keys - {k};
      SumValuesPick(m, k);
      SumValuesBounds(m - {k});
    }
  }

  /** A sum of non-negative values is 0 exactly when every value is 0. */
  lemma {:induction false} SumValuesZero(m: map<string, real>)
    requires forall k :: k in m ==> 0.0 <= m[k]
    ensures 0.0 <= SumValues(m)
    ensures SumValues(m) == 0.0 <==> forall k :: k in m ==> m[k] == 0.0
    decreases |m|
  {
    if m != map[] {
      var k :| k in m;
      assert (m - {k}).Keys == m.Keys - {k};
      SumValuesPick(m, k);
      SumValuesZero(m - {k});
      if SumValues(m) == 0.0 {
        forall k' | k' in m ensures m[k'] == 0.0 {
          if k' != k {
            assert k' in m - {k};
          }
        }
      }
    }
  }

  /** Raising any ALG's value never lowers the sum. */
  lemma {:induction false} SumValuesMonotone(m1: map<string, real>, m2: map<string, real>)
    requires m1.Keys == m2.Keys
    requires forall k :: k in m1 ==> m1[k] <= m2[k]
    ensures SumValues(m1) <= SumValues(m2)
    decreases |m1|
  {
    if m1 != map[] {
      var k :| k in m1;
      assert (m1 - {k}).Keys == m1.Keys - {k} == (m2 - {k}).Keys;
      SumValuesPick(m1, k);
      SumValuesPick(m2, k);
      SumValuesMonotone(m1 - {k}, m2 - {k});
    }
  }

  lemma DivideMonotone(x: real, y: real, d: real)
    requires x <= y && d > 0.0
    ensures x / d <= y / d
  {
  }

  /** When every RALG lies in [0, 1), so does Ri. */
  lemma RearrangementIndexBounds(ralg: map<string, real>)
    requires |ralg| >= 1
    requires forall a :: a in ralg ==> 0.0 <= ralg[a] < 1.0
    ensures 0.0 <= RearrangementIndex(ralg) < 1.0
  {
    SumValuesBounds(ralg);
  }

  /** Ri is 0 exactly when no ALG is rearranged. */
  lemma RearrangementIndexZero(ralg: map<string, real>)
    requires |ralg| >= 1
    requires forall a :: a in ralg ==> 0.0 <= ralg[a]
    ensures RearrangementIndex(ralg) == 0.0 <==> forall a :: a in ralg ==> ralg[a] == 0.0
  {
    SumValuesZero(ralg);
  }

  /** Over the same ALGs, more rearrangement per ALG gives a higher Ri. */
  lemma RearrangementIndexMonotone(ralg1: map<string, real>, ralg2: map<string, real>)
    requires |ralg1| >= 1 && ralg1.Keys == ralg2.Keys
    requires forall a :: a in ralg1 ==> ralg1[a] <= ralg2[a]
    ensures RearrangementIndex(ralg1) <= RearrangementIndex(ralg2)
  {
    SumValuesMonotone(ralg1, ralg2);
    assert |ralg1| == |ralg2| by {
      assert ralg1.Keys == ralg2.Keys;
    }
    DivideMonotone(SumValues(ralg1), SumValues(ralg2), |ralg1| as real);
  }
}
