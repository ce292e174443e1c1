/** The running statistics of one sensor (`gateway/src/types.rs`): Welford's online update, Chan's
    pairwise merge, and the proof that both compute the plain definitions of mean and squared deviation.

    Readings are exact reals and counts are unbounded; `min` and `max` keep the source's infinities.
 */
module SensorStatistics {

  /** An extended real: the source starts `min` at +infinity and `max` at -infinity. */
  datatype Extended = NegInfinity | Finite(value: real) | PosInfinity

  predicate Less(a: Extended, b: Extended) {
    match (a, b)
    case (NegInfinity, NegInfinity) => false
    case (NegInfinity, _) => true
    case (Finite(x), Finite(y)) => x < y
    case (Finite(_), PosInfinity) => true
    case _ => false
  }

  function Lower(a: Extended, b: Extended): Extended {
    if Less(b, a) then b else a
  }

  function Higher(a: Extended, b: Extended): Extended {
    if Less(a, b) then b else a
  }

  datatype SensorStats = SensorStats(count: nat, min: Extended, max: Extended, mean: real, m2: real)

  const DEFAULT := SensorStats(0, PosInfinity, NegInfinity, 0.0, 0.0)

  /** Every state the program builds: an empty state is the default one. */
  predicate Valid(s: SensorStats) {
    s.count == 0 ==> s == DEFAULT
  }

  /** The state after one more reading. */
  function Updated(s: SensorStats, x: real): SensorStats {
    if s.count == 0 then
      SensorStats(1, Finite(x), Finite(x), x, 0.0)
    else
      var n := s.count + 1;
      var delta := x - s.mean;
      var mean := s.mean + delta / n as real;
      SensorStats(n, Lower(s.min, Finite(x)), Higher(s.max, Finite(x)), mean, s.m2 + delta * (x - mean))
  }

  /** Chan's merge of two states. */
  function Merge(a: SensorStats, b: SensorStats): SensorStats {
    if a.count == 0 then b
    else if b.count == 0 then a
    else
      var na, nb := a.count as real, b.count as real;
      var n := na + nb;
      var delta := b.mean - a.mean;
      SensorStats(a.count + b.count, Lower(a.min, b.min), Higher(a.max, b.max),
                  a.mean + delta * (nb / n),
                  a.m2 + b.m2 + delta * delta * (na * nb / n))
  }

  function VarianceSample(s: SensorStats): real {
    if s.count <= 1 then 0.0 else s.m2 / (s.count - 1) as real
  }

  /** The source's mutable statistics record. */
  class StatsCell {
    var count: nat
    var min: Extended
    var max: Extended
    var mean: real
    var m2: real

    function View(): SensorStats
      reads this
    {
      SensorStats(count, min, max, mean, m2)
    }

    constructor ()
      ensures View() == DEFAULT
    {
      count, min, max, mean, m2 := 0, PosInfinity, NegInfinity, 0.0, 0.0;
    }

    method Update(x: real)
      modifies this
      ensures View() == Updated(old(View()), x)
    {
      if count == 0 {
        count, min, max, mean, m2 := 1, Finite(x), Finite(x), x, 0.0;
        return;
      }
      count := count + 1;
      if Less(Finite(x), min) {
        min := Finite(x);
      }
      if Less(max, Finite(x)) {
        max := Finite(x);
      }
      var delta := x - mean;
      mean := mean + delta / (count as real);
      var delta2 := x - mean;
      m2 := m2 + delta * delta2;
      assert mean == Updated(old(View()), x).mean;
      assert delta * delta2 == delta * (x - Updated(old(View()), x).mean);
    }
  }

  // ---------- The plain definitions ----------

  /** What one sequential pass of `update` over the readings leaves. */
  function Fold(xs: seq<real>): SensorStats {
    if xs == [] then DEFAULT else Updated(Fold(xs[..|xs| - 1]), xs[|xs| - 1])
  }

  function Sum(xs: seq<real>): real {
    if xs == [] then 0.0 else Sum(xs[..|xs| - 1]) + xs[|xs| - 1]
  }

  function SumOfSquares(xs: seq<real>): real {
    if xs == [] then 0.0 else SumOfSquares(xs[..|xs| - 1]) + xs[|xs| - 1] * xs[|xs| - 1]
  }

  /** The sum of squared deviations of the readings from `c`. */
  function SquaredDeviation(xs: seq<real>, c: real): real {
    if xs == [] then 0.0
    else SquaredDeviation(xs[..|xs| - 1], c) + (xs[|xs| - 1] - c) * (xs[|xs| - 1] - c)
  }

  ghost predicate IsLeast(e: Extended, xs: seq<real>) {
    e.Finite? && e.value in xs && forall x :: x in xs ==> e.value <= x
  }

  ghost predicate IsGreatest(e: Extended, xs: seq<real>) {
    e.Finite? && e.value in xs && forall x :: x in xs ==> x <= e.value
  }

  // ---------- Moments: the coordinates in which merging is addition ----------

  datatype Moments = Moments(count: nat, sum: real, sumSq: real, min: Extended, max: Extended)

  function MomentsOf(s: SensorStats): Moments {
    Moments(s.count, s.count as real * s.mean, s.m2 + s.count as real * s.mean * s.mean, s.min, s.max)
  }

  function Add(a: Moments, b: Moments): Moments {
    Moments(a.count + b.count, a.sum + b.sum, a.sumSq + b.sumSq, Lower(a.min, b.min), Higher(a.max, b.max))
  }

  /** A non-empty state is determined by its moments. */
  lemma MomentsDetermine(a: SensorStats, b: SensorStats)
    requires Valid(a) && Valid(b) && MomentsOf(a) == MomentsOf(b)
    ensures a == b
  {
  }

  lemma BoundsCommute(a: Extended, b: Extended)
    ensures Lower(a, b) == Lower(b, a) && Higher(a, b) == Higher(b, a)
  {
  }

  lemma BoundsAssociate(a: Extended, b: Extended, c: Extended)
    ensures Lower(Lower(a, b), c) == Lower(a, Lower(b, c))
    ensures Higher(Higher(a, b), c) == Higher(a, Higher(b, c))
  {
  }

  /** Chan's merge adds moments. */
  lemma MergeAddsMoments(a: SensorStats, b: SensorStats)
    requires Valid(a) && Valid(b)
    ensures Valid(Merge(a, b))
    ensures MomentsOf(Merge(a, b)) == Add(MomentsOf(a), MomentsOf(b))
  {
  }

  /** Welford's update is Chan's merge with a single reading. */
  lemma UpdateIsMerge(s: SensorStats, x: real)
    requires Valid(s)
    ensures Valid(Updated(s, x))
    ensures Updated(s, x) == Merge(s, Fold([x]))
  {
  }

  // ---------- Main results on one sensor ----------

  lemma {:induction false} FoldAppend(xs: seq<real>, x: real)
    ensures Fold(xs + [x]) == Updated(Fold(xs), x)
  {
    hide Updated;
    assert (xs + [x])[..|xs + [x]| - 1] == xs;
  }

  lemma {:induction false} FoldValid(xs: seq<real>)
    ensures Valid(Fold(xs)) && Fold(xs).count == |xs|
  {
    if xs != [] {
      FoldValid(xs[..|xs| - 1]);
      UpdateIsMerge(Fold(xs[..|xs| - 1]), xs[|xs| - 1]);
    }
  }

  /** Folding a concatenation is merging the folds. */
  lemma {:induction false} FoldIsHomomorphism(a: seq<real>, b: seq<real>)
    ensures Fold(a + b) == Merge(Fold(a), Fold(b))
  {
    FoldValid(a);
    if b == [] {
      assert a + b == a;
    } else {
      var b0, x := b[..|b| - 1], b[|b| - 1];
      assert (a + b)[..|a + b| - 1] == a + b0;
      FoldIsHomomorphism(a, b0);
      FoldValid(b0);
      FoldValid([x]);
      MergeAddsMoments(Fold(a), Fold(b0));
      UpdateIsMerge(Merge(Fold(a), Fold(b0)), x);
      UpdateIsMerge(Fold(b0), x);
      MergeAssociative(Fold(a), Fold(b0), Fold([x]));
    }
  }

  /** Merging is associative and commutative, and the default state is its identity, on all valid states. */
  lemma MergeAssociative(a: SensorStats, b: SensorStats, c: SensorStats)
    requires Valid(a) && Valid(b) && Valid(c)
    ensures Merge(Merge(a, b), c) == Merge(a, Merge(b, c))
  {
    MergeAddsMoments(a, b);
    MergeAddsMoments(b, c);
    MergeAddsMoments(Merge(a, b), c);
    MergeAddsMoments(a, Merge(b, c));
    BoundsAssociate(a.min, b.min, c.min);
    BoundsAssociate(a.max, b.max, c.max);
    MomentsDetermine(Merge(Merge(a, b), c), Merge(a, Merge(b, c)));
  }

  lemma MergeCommutative(a: SensorStats, b: SensorStats)
    requires Valid(a) && Valid(b)
    ensures Merge(a, b) == Merge(b, a)
  {
    MergeAddsMoments(a, b);
    MergeAddsMoments(b, a);
    BoundsCommute(a.min, b.min);
    BoundsCommute(a.max, b.max);
    MomentsDetermine(Merge(a, b), Merge(b, a));
  }

  /** The default state is a left identity everywhere and a right identity on exactly the valid states. */
  lemma MergeIdentity(s: SensorStats)
    ensures Merge(DEFAULT, s) == s
    ensures Merge(s, DEFAULT) == s <==> Valid(s)
  {
  }

  /** The squared deviation from `c` of `n` readings whose sum is `sum` and whose squares add up to `q`. */
  function Recentred(q: real, c: real, sum: real, n: real): real {
    q - 2.0 * c * sum + n * c * c
  }

  lemma RecentredOneMore(q: real, c: real, sum: real, n: real, x: real, q': real, sum': real, n': real)
    requires q' == q + x * x && sum' == sum + x && n' == n + 1.0
    ensures Recentred(q', c, sum', n') == Recentred(q, c, sum, n) + (x - c) * (x - c)
  {
  }

  lemma {:induction false} DeviationFromMoments(xs: seq<real>, c: real)
    ensures SquaredDeviation(xs, c) == Recentred(SumOfSquares(xs), c, Sum(xs), |xs| as real)
  {
    hide Recentred;
    if xs == [] {
      RecentredNothing(c);
    } else {
      var ys, x := xs[..|xs| - 1], xs[|xs| - 1];
      DeviationFromMoments(ys, c);
      RecentredOneMore(SumOfSquares(ys), c, Sum(ys), |ys| as real, x,
                       SumOfSquares(xs), Sum(xs), |xs| as real);
    }
  }

  lemma RecentredNothing(c: real)
    ensures Recentred(0.0, c, 0.0, 0.0) == 0.0
  {
  }

  lemma SingleReading(x: real)
    ensures Fold([x]) == SensorStats(1, Finite(x), Finite(x), x, 0.0)
    ensures MomentsOf(Fold([x])) == Moments(1, x, x * x, Finite(x), Finite(x))
  {
    assert [x][..0] == [];
    assert 1.0 * x * x == x * x;
  }

  lemma MomentsOfUpdate(s: SensorStats, x: real)
    requires Valid(s)
    ensures MomentsOf(Updated(s, x)) == Add(MomentsOf(s), Moments(1, x, x * x, Finite(x), Finite(x)))
  {
  }

  lemma MomentsOfNothing()
    ensures MomentsOf(DEFAULT) == Moments(0, 0.0, 0.0, PosInfinity, NegInfinity)
  {
  }

  lemma {:induction false} FoldMoments(xs: seq<real>)
    ensures MomentsOf(Fold(xs)).sum == Sum(xs)
    ensures MomentsOf(Fold(xs)).sumSq == SumOfSquares(xs)
  {
    hide Updated, MomentsOf;
    if xs == [] {
      MomentsOfNothing();
    } else {
      var ys, x := xs[..|xs| - 1], xs[|xs| - 1];
      FoldMoments(ys);
      FoldValid(ys);
      MomentsOfUpdate(Fold(ys), x);
    }
  }

  lemma {:induction false} FoldBounds(xs: seq<real>)
    requires xs != []
    ensures IsLeast(Fold(xs).min, xs) && IsGreatest(Fold(xs).max, xs)
  {
    var ys, x := xs[..|xs| - 1], xs[|xs| - 1];
    assert xs == ys + [x];
    FoldValid(ys);
    if ys == [] {
      assert xs == [x];
      SingleReading(x);
    } else {
      FoldBounds(ys);
      BoundsOfOneMore(Fold(ys).min, Fold(ys).max, ys, x);
    }
  }

  lemma BoundsOfOneMore(lo: Extended, hi: Extended, ys: seq<real>, x: real)
    requires IsLeast(lo, ys) && IsGreatest(hi, ys)
    ensures IsLeast(Lower(lo, Finite(x)), ys + [x]) && IsGreatest(Higher(hi, Finite(x)), ys + [x])
  {
  }

  /** The online update computes the definitions: mean is sum over count, `m2` is the sum of squared
      deviations from that mean, and `min`/`max` are the least and greatest readings. */
  lemma {:induction false} FoldMeetsDefinition(xs: seq<real>)
    requires xs != []
    ensures Fold(xs).count == |xs|
    ensures Fold(xs).mean == Sum(xs) / |xs| as real
    ensures Fold(xs).m2 == SquaredDeviation(xs, Fold(xs).mean)
    ensures IsLeast(Fold(xs).min, xs) && IsGreatest(Fold(xs).max, xs)
  {
    FoldBounds(xs);
    FoldValid(xs);
    FoldMoments(xs);
    var s := Fold(xs);
    DeviationFromMoments(xs, s.mean);
    MeanAndSpread(s, MomentsOf(s));
  }

  /** What the moments of a state say about its mean and `m2`. */
  lemma MeanAndSpread(s: SensorStats, m: Moments)
    requires s.count > 0 && m == MomentsOf(s)
    ensures s.mean == m.sum / m.count as real
    ensures s.m2 == Recentred(m.sumSq, s.mean, m.sum, m.count as real)
  {
    assert s.mean * m.sum == m.count as real * s.mean * s.mean;
  }

  lemma SquareSign(d: real, m: real)
    requires m == d * d
    ensures m >= 0.0
    ensures m == 0.0 ==> d == 0.0
  {
    if d != 0.0 {
      assert m / d == d;
    }
  }

  lemma {:induction false} DeviationNonNegative(xs: seq<real>, c: real)
    ensures SquaredDeviation(xs, c) >= 0.0
    ensures SquaredDeviation(xs, c) == 0.0 <==> forall x :: x in xs ==> x == c
  {
    if xs != [] {
      var ys, x := xs[..|xs| - 1], xs[|xs| - 1];
      assert xs == ys + [x];
      DeviationNonNegative(ys, c);
      var d := x - c;
      var m := d * d;
      SquareSign(d, m);
      assert SquaredDeviation(xs, c) == SquaredDeviation(ys, c) + m;
      assert x in xs && forall y :: y in xs <==> y == x || y in ys;
    }
  }

  /** The order of the readings does not matter. */
  lemma {:induction false} FoldOrderIndependent(a: seq<real>, b: seq<real>)
    requires multiset(a) == multiset(b)
    ensures Fold(a) == Fold(b)
    decreases |a|
  {
    if a == [] {
      assert |multiset(b)| == 0;
    } else {
      var a0, x := a[..|a| - 1], a[|a| - 1];
      assert a == a0 + [x];
      assert x in multiset(b);
      var i :| 0 <= i < |b| && b[i] == x;
      var b1, b2 := b[..i], b[i + 1..];
      assert b == b1 + [x] + b2;
      assert multiset(b1 + b2) == multiset(b) - multiset{x};
      assert multiset(a0) == multiset(a) - multiset{x};
      FoldOrderIndependent(a0, b1 + b2);
      FoldMoveToEnd(b1, x, b2);
      assert a == a0 + [x];
      FoldIsHomomorphism(a0, [x]);
      FoldIsHomomorphism(b1 + b2, [x]);
    }
  }

  lemma {:induction false} FoldMoveToEnd(b1: seq<real>, x: real, b2: seq<real>)
    ensures Fold(b1 + [x] + b2) == Fold(b1 + b2 + [x])
  {
    FoldIsHomomorphism(b1 + [x], b2);
    FoldIsHomomorphism(b1, [x]);
    FoldIsHomomorphism(b1 + b2, [x]);
    FoldIsHomomorphism(b1, b2);
    FoldValid(b1);
    FoldValid([x]);
    FoldValid(b2);
    MergeAssociative(Fold(b1), Fold([x]), Fold(b2));
    MergeCommutative(Fold([x]), Fold(b2));
    MergeAssociative(Fold(b1), Fold(b2), Fold([x]));
  }
}
