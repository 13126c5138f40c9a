/** How often the calendar queue resizes, and when a sample yields a positive bucket width. */
module CalendarResizing {
  import opened Arithmetic
  import opened Common
  import opened Calendar
  import opened CalendarShape
  import opened CalendarOps
  import opened CalendarOrder
  import opened CalendarRuns

  // ---------- thresholds between operations ----------

  /** Between operations the size is within the thresholds; only at the maximal number of buckets
      may it grow past the upper one. */
  ghost predicate Settled(c: Cal) {
    Shape(c) && c.resizeEnabled && !TooFull(c) && !TooEmpty(c)
  }

  lemma InitSettled()
    ensures Settled(Init())
  {
    InitOrdered();
  }

  /** The size moves by at most one; a resize to m buckets leaves m - 3 or m + 1 nodes, and happens
      exactly when a threshold is crossed. */
  ghost predicate Moves(c: Cal, r: Cal) {
    var m := r.Nbuckets();
    && c.qsize - 1 <= r.qsize <= c.qsize + 1
    && (m != c.Nbuckets() ==>
      (m == 2 * c.Nbuckets() && r.qsize == m + 1) || (2 * m == c.Nbuckets() && r.qsize == m - 3))
    && (m == c.Nbuckets() <==> c.botThreshold <= r.qsize && (r.qsize <= c.topThreshold || c.Nbuckets() == MAXNBUCKETS))
  }

  lemma PutSettled(c: Cal, x: Node)
    requires Settled(c) && x.priority >= 0.0 && Put(c, x).Ok?
    ensures Settled(Put(c, x).value) && Moves(c, Put(c, x).value)
  {
    PutConserves(c, x);
    PutShape(c, x);
    var c1 := PutRaw(c, x);
    if TooFull(c1) {
      HalveDouble(c1);
      ResizeShape(c1, 2 * c1.Nbuckets());
    }
  }

  lemma DeqSettled(c: Cal)
    requires Settled(c) && Deq(c).Ok?
    ensures Settled(Deq(c).value.0) && Moves(c, Deq(c).value.0)
  {
    DeqConserves(c);
    if c.qsize > 0 {
      DeqShape(c);
      var c1 := DeqRaw(c).0;
      if TooEmpty(c1) {
        HalveDouble(c1);
        ResizeShape(c1, c1.Nbuckets() / 2);
      }
    }
  }

  lemma StepSettled(c: Cal, op: Op)
    requires Settled(c) && (op.OpPut? ==> op.x.priority >= 0.0) && Step(c, op).Ok?
    ensures Settled(Step(c, op).value.0) && Moves(c, Step(c, op).value.0)
  {
    match op
    case OpPut(x) => PutSettled(c, x);
    case OpGet => DeqSettled(c);
  }

  /** The thresholds hold at the end of every run. */
  lemma {:induction false} RunSettled(c: Cal, ops: seq<Op>)
    requires Settled(c) && Survives(c, ops)
    ensures Settled(Final(c, ops))
    decreases |ops|
  {
    if ops != [] {
      StepSettled(c, ops[0]);
      RunSettled(Step(c, ops[0]).value.0, ops[1..]);
    }
  }

  predicate NonNegativePuts(ops: seq<Op>) {
    forall i :: 0 <= i < |ops| && ops[i].OpPut? ==> ops[i].x.priority >= 0.0
  }

  function PutCount(ops: seq<Op>): nat {
    if ops == [] then 0 else PutCount(ops[1..]) + if ops[0].OpPut? then 1 else 0
  }

  function GetCount(ops: seq<Op>): (n: nat)
    ensures n == |ops| - PutCount(ops)
  {
    if ops == [] then 0 else GetCount(ops[1..]) + if ops[0].OpPut? then 0 else 1
  }

  /** An operation that cannot bring the size past a threshold does not resize, and so succeeds. */
  lemma QuietStep(c: Cal, op: Op)
    requires Settled(c) && (op.OpPut? ==> op.x.priority >= 0.0)
    requires if op.OpPut? then c.qsize < c.topThreshold else c.botThreshold < c.qsize
    ensures Step(c, op).Ok? && Step(c, op).value.0.Nbuckets() == c.Nbuckets()
    ensures var r := Step(c, op).value.0;
      r.qsize == c.qsize + if op.OpPut? then 1 else if c.qsize > 0 then -1 else 0
  {
    match op
    case OpPut(x) => PutShape(c, x);
    case OpGet =>
      if c.qsize > 0 {
        DeqShape(c);
      }
  }

  /** While the puts cannot bring the size above the upper threshold, nor the gets below the lower one,
      no resize is attempted. */
  lemma {:induction false} QuietRun(c: Cal, ops: seq<Op>)
    requires Settled(c) && NonNegativePuts(ops)
    requires c.botThreshold + GetCount(ops) <= c.qsize <= c.topThreshold - PutCount(ops)
    ensures Survives(c, ops) && Final(c, ops).Nbuckets() == c.Nbuckets()
    decreases |ops|
  {
    hide Step, Put, Deq, Shape, Layout;
    ShapeOf(c);
    if ops != [] {
      QuietStep(c, ops[0]);
      StepSettled(c, ops[0]);
      var r := Step(c, ops[0]).value.0;
      SameThresholds(c, r);
      assert NonNegativePuts(ops[1..]) by {
        forall i | 0 <= i < |ops[1..]| && ops[1..][i].OpPut? ensures ops[1..][i].x.priority >= 0.0 {
          assert ops[1..][i] == ops[i + 1];
        }
      }
      QuietRun(r, ops[1..]);
    }
  }

  lemma ShapeOf(c: Cal)
    requires Settled(c)
    ensures Shape(c) && c.resizeEnabled
  {
  }

  lemma SameThresholds(c: Cal, r: Cal)
    requires Settled(c) && Settled(r) && r.Nbuckets() == c.Nbuckets()
    ensures r.botThreshold == c.botThreshold && r.topThreshold == c.topThreshold
  {
  }

  /** After an operation that resized to m buckets, fewer than m / 2 further operations never attempt to
      resize again, whatever they are. */
  lemma Hysteresis(c: Cal, op: Op, ops: seq<Op>)
    requires Settled(c) && (op.OpPut? ==> op.x.priority >= 0.0) && NonNegativePuts(ops)
    requires Step(c, op).Ok?
    requires var r := Step(c, op).value.0;
      r.Nbuckets() != c.Nbuckets() && |ops| < r.Nbuckets() / 2
    ensures Survives(c, [op] + ops)
    ensures Final(c, [op] + ops).Nbuckets() == Step(c, op).value.0.Nbuckets()
  {
    hide Step;
    StepSettled(c, op);
    var r := Step(c, op).value.0;
    QuietRun(r, ops);
    assert ([op] + ops)[1..] == ops && ([op] + ops)[0] == op;
  }

  // ---------- the width of a sample ----------

  function Gap(s: seq<Node>, i: int): real
    requires 1 <= i < |s|
  {
    s[i].priority - s[i - 1].priority
  }

  ghost predicate GapsAtLeast(s: seq<Node>, low: real) {
    forall i :: 1 <= i < |s| ==> Gap(s, i) >= low
  }

  ghost predicate Increasing(s: seq<Node>) {
    forall i :: 1 <= i < |s| ==> Gap(s, i) > 0.0
  }

  lemma PrefixAtLeast(s: seq<Node>, low: real)
    requires |s| >= 2 && GapsAtLeast(s, low)
    ensures GapsAtLeast(s[..|s| - 1], low) && Gap(s, |s| - 1) >= low
  {
    var t := s[..|s| - 1];
    forall i | 1 <= i < |t| ensures Gap(t, i) >= low {
      assert Gap(t, i) == Gap(s, i);
    }
  }

  lemma {:induction false} GapSumAtLeast(s: seq<Node>, low: real)
    requires |s| >= 1 && GapsAtLeast(s, low)
    ensures GapSum(s) >= (|s| - 1) as real * low
    decreases |s|
  {
    if |s| >= 2 {
      PrefixAtLeast(s, low);
      GapSumAtLeast(s[..|s| - 1], low);
      assert (|s| - 1) as real * low == (|s| - 2) as real * low + low;
    }
  }

  lemma {:induction false} GapSumZero(s: seq<Node>)
    requires |s| >= 1 && GapsAtLeast(s, 0.0) && GapSum(s) == 0.0
    ensures forall i :: 1 <= i < |s| ==> Gap(s, i) == 0.0
    decreases |s|
  {
    if |s| >= 2 {
      var t := s[..|s| - 1];
      PrefixAtLeast(s, 0.0);
      GapSumAtLeast(t, 0.0);
      GapSumZero(t);
      forall i | 1 <= i < |s| - 1 ensures Gap(s, i) == 0.0 {
        assert Gap(t, i) == Gap(s, i);
      }
    }
  }

  predicate SumBelow(sum: real, j: nat, bound: real) {
    if j == 0 then sum == 0.0 else sum < j as real * bound
  }

  lemma OneMore(sum: real, j: nat, gap: real, bound: real)
    requires SumBelow(sum, j, bound) && gap < bound
    ensures SumBelow(sum + gap, j + 1, bound)
  {
    assert (j + 1) as real == j as real + 1.0;
  }

  /** What the second pass of new_width adds up, for samples in nondecreasing order. */
  lemma {:induction false} KeptBounds(s: seq<Node>, bound: real)
    requires |s| >= 1 && GapsAtLeast(s, 0.0)
    ensures var (sum, j) := KeptGaps(s, bound);
      && 0.0 <= sum && (j == 0 <==> GapsAtLeast(s, bound))
      && SumBelow(sum, j, bound)
    decreases |s|
  {
    if |s| >= 2 {
      var t := s[..|s| - 1];
      PrefixAtLeast(s, 0.0);
      KeptBounds(t, bound);
      var (sum, j) := KeptGaps(t, bound);
      var gap := Gap(s, |s| - 1);
      if gap < bound {
        OneMore(sum, j, gap, bound);
      }
      assert forall i :: 1 <= i < |t| ==> Gap(t, i) == Gap(s, i);
    }
  }

  ghost predicate KeepsGap(s: seq<Node>, bound: real) {
    exists i :: 1 <= i < |s| && 0.0 < Gap(s, i) < bound
  }

  lemma {:induction false} KeptSumPositive(s: seq<Node>, bound: real)
    requires |s| >= 1 && GapsAtLeast(s, 0.0)
    ensures KeptGaps(s, bound).0 > 0.0 <==> KeepsGap(s, bound)
    decreases |s|
  {
    if |s| >= 2 {
      var t := s[..|s| - 1];
      PrefixAtLeast(s, 0.0);
      KeptSumPositive(t, bound);
      KeptBounds(t, bound);
      assert forall i :: 1 <= i < |t| ==> Gap(t, i) == Gap(s, i);
      assert KeepsGap(s, bound) <==> KeepsGap(t, bound) || 0.0 < Gap(s, |s| - 1) < bound;
    }
  }

  lemma AverageScaled(s: seq<Node>)
    requires |s| >= 2
    ensures GapSum(s) == (|s| - 1) as real * AverageGap(s)
  {
  }

  /** For samples in nondecreasing order: the width is undefined exactly when all samples tie; it is
      less than six times the average gap; and it is positive exactly when some gap lies strictly
      between zero and twice the average. */
  lemma WidthOfSorted(s: seq<Node>)
    requires |s| >= 2 && GapsAtLeast(s, 0.0)
    ensures Width(s).None? <==> forall i :: 1 <= i < |s| ==> Gap(s, i) == 0.0
    ensures Width(s).Some? ==> 0.0 <= Width(s).value < 6.0 * AverageGap(s)
    ensures Positive(Width(s)) <==> KeepsGap(s, AverageGap(s) * 2.0)
  {
    hide KeptGaps, GapSum;
    var a := AverageGap(s);
    var (sum, j) := KeptGaps(s, a * 2.0);
    KeptBounds(s, a * 2.0);
    KeptSumPositive(s, a * 2.0);
    AverageScaled(s);
    GapSumAtLeast(s, 0.0);
    MulSign((|s| - 1) as real, a);
    if j == 0 {
      GapSumAtLeast(s, a * 2.0);
      assert (|s| - 1) as real * (a * 2.0) == 2.0 * ((|s| - 1) as real * a);
      assert GapSum(s) == 0.0;
      GapSumZero(s);
    } else {
      WidthBounds(sum, j, a);
      if forall i :: 1 <= i < |s| ==> Gap(s, i) == 0.0 {
        GapSumOfZeros(s);
      }
    }
  }

  lemma {:induction false} GapSumOfZeros(s: seq<Node>)
    requires |s| >= 1 && forall i :: 1 <= i < |s| ==> Gap(s, i) == 0.0
    ensures GapSum(s) == 0.0
    decreases |s|
  {
    if |s| >= 2 {
      var t := s[..|s| - 1];
      forall i | 1 <= i < |t| ensures Gap(t, i) == 0.0 {
        assert Gap(t, i) == Gap(s, i);
      }
      GapSumOfZeros(t);
      assert Gap(s, |s| - 1) == 0.0;
    }
  }

  lemma WidthBounds(sum: real, j: nat, a: real)
    requires j > 0 && 0.0 <= sum < j as real * (a * 2.0)
    ensures 0.0 <= sum / j as real * 3.0 < 6.0 * a
    ensures sum / j as real * 3.0 > 0.0 <==> sum > 0.0
  {
    var q := sum / j as real;
    assert q * j as real == sum;
    MulSign(j as real, q);
    MulSign(j as real, q - a * 2.0);
    assert j as real * (q - a * 2.0) == sum - j as real * (a * 2.0);
  }

  /** Strictly increasing samples always give a width strictly between zero and six average gaps. */
  lemma WidthOfIncreasing(s: seq<Node>)
    requires |s| >= 2 && Increasing(s)
    ensures Positive(Width(s)) && Width(s).value < 6.0 * AverageGap(s)
  {
    WidthOfSorted(s);
    assert Gap(s, 1) > 0.0;
    if Width(s).Some? {
      KeptBounds(s, AverageGap(s) * 2.0);
    }
  }

  // ---------- sampling from an ordered queue ----------

  /** None of the n removals of a sample meets a missing state. */
  ghost predicate SamplesWell(c: Cal, n: nat)
    requires Shape(c) && n <= c.qsize
    decreases n
  {
    n == 0 || (SamplesWell(c, n - 1) && !Misses(Sample(c, n - 1).0))
  }

  ghost predicate Distinct(m: multiset<Node>) {
    forall x, y :: x in m && y in m && x.priority == y.priority ==> x == y && m[x] == 1
  }

  lemma DistinctRest(m: multiset<Node>, e: Node, rest: multiset<Node>)
    requires Distinct(m) && m == rest + multiset{e}
    ensures Distinct(rest) && forall x :: x in rest ==> x.priority != e.priority
  {
    forall x, y | x in rest && y in rest && x.priority == y.priority ensures x == y && rest[x] == 1 {
      assert x in m && y in m;
    }
    forall x | x in rest ensures x.priority != e.priority {
      assert x in m && e in m;
    }
  }

  /** No node of m is before the last sample; if priorities differ pairwise, all are after it. */
  ghost predicate Behind(m: multiset<Node>, s: seq<Node>, strict: bool) {
    s != [] ==> forall x :: x in m ==>
      s[|s| - 1].priority <= x.priority && (strict ==> s[|s| - 1].priority != x.priority)
  }

  lemma SnocGaps(s: seq<Node>, e: Node)
    requires s != [] ==> s[|s| - 1].priority <= e.priority
    ensures GapsAtLeast(s, 0.0) ==> GapsAtLeast(s + [e], 0.0)
    ensures Increasing(s) && (s != [] ==> s[|s| - 1].priority < e.priority) ==> Increasing(s + [e])
  {
    var t := s + [e];
    forall i | 1 <= i < |s| ensures Gap(t, i) == Gap(s, i) {
      assert t[i] == s[i];
    }
    assert s != [] ==> Gap(t, |s|) == e.priority - s[|s| - 1].priority;
  }

  /** One more removal continues an ordered sample. */
  lemma SampleGrows(d: Cal, s: seq<Node>, lag: int, strict: bool)
    requires Ready(d, lag) && !Misses(d) && d.qsize > 0 && GapsAtLeast(s, 0.0) && Behind(Items(d.buckets), s, strict)
    requires strict ==> Increasing(s) && Distinct(Items(d.buckets))
    ensures NextBucket(d) != -1
    ensures var (r, e) := DeqRaw(d);
      && Ready(r, NextLag(d, lag)) && GapsAtLeast(s + [e], 0.0) && Behind(Items(r.buckets), s + [e], strict)
      && (strict ==> Increasing(s + [e]) && Distinct(Items(r.buckets)))
  {
    hide GapsAtLeast, Increasing;
    RemovesMinimum(d, lag);
    DeqReady(d, lag);
    DeqShape(d);
    hide DeqRaw, NextBucket, Ready, Misses, Items;
    var (r, e) := DeqRaw(d);
    assert e in Items(d.buckets) && forall x :: x in Items(r.buckets) ==> x in Items(d.buckets);
    SnocGaps(s, e);
    if strict {
      DistinctRest(Items(d.buckets), e, Items(r.buckets));
    }
  }

  /** A sample taken without missing is in nondecreasing order, and strictly increasing when the
      stored priorities are pairwise different. */
  lemma {:induction false} SampleSorted(c: Cal, lag: int, n: nat) returns (lag': int)
    requires Ready(c, lag) && n <= c.qsize && SamplesWell(c, n)
    ensures Ready(Sample(c, n).0, lag')
    ensures GapsAtLeast(Sample(c, n).1, 0.0)
    ensures Behind(Items(Sample(c, n).0.buckets), Sample(c, n).1, Distinct(Items(c.buckets)))
    ensures Distinct(Items(c.buckets)) ==>
      Increasing(Sample(c, n).1) && Distinct(Items(Sample(c, n).0.buckets))
    decreases n
  {
    hide DeqRaw, NextBucket, Misses, Distinct;
    if n == 0 {
      return lag;
    }
    var mid := SampleSorted(c, lag, n - 1);
    var (d, s) := Sample(c, n - 1);
    SampleGrows(d, s, mid, Distinct(Items(c.buckets)));
    var (r, e) := DeqRaw(d);
    assert Sample(c, n) == (r, s + [e]);
    lag' := NextLag(d, mid);
  }

  // ---------- when a resize finds a usable width ----------

  /** The nodes a resize samples. */
  function SampleOf(c: Cal): (s: seq<Node>)
    requires Shape(c) && c.qsize >= 2
    ensures |s| >= 2
  {
    Sample(Disabled(c), SampleSize(c.qsize)).1
  }

  lemma {:induction false} NothingKept(s: seq<Node>, bound: real)
    ensures KeptGaps(s, bound).1 == 0 ==> KeptGaps(s, bound).0 == 0.0
    decreases |s|
  {
    if |s| >= 2 {
      NothingKept(s[..|s| - 1], bound);
    }
  }

  lemma AverageSign(sum: real, j: nat)
    requires j > 0
    ensures sum / j as real * 3.0 > 0.0 <==> sum > 0.0
  {
    MulSign(j as real, sum / j as real);
    assert sum / j as real * j as real == sum;
  }

  /** For samples in whatever order: the width is positive exactly when the kept gaps, those below twice
      the average, have a positive sum. */
  lemma WidthPositiveExactly(s: seq<Node>)
    requires |s| >= 2
    ensures Positive(Width(s)) <==> KeptGaps(s, AverageGap(s) * 2.0).0 > 0.0
  {
    var (sum, j) := KeptGaps(s, AverageGap(s) * 2.0);
    NothingKept(s, AverageGap(s) * 2.0);
    if j > 0 {
      AverageSign(sum, j);
    }
  }

  /** A resize of any queue finds a usable width if and only if fewer than two nodes are stored or the
      kept gaps of the sample have a positive sum. */
  lemma ResizeWorksExactly(c: Cal, newsize: nat)
    requires Shape(c) && c.resizeEnabled && newsize > 0
    ensures Resize(c, newsize).Ok? <==>
      c.qsize < 2 || KeptGaps(SampleOf(c), AverageGap(SampleOf(c)) * 2.0).0 > 0.0
  {
    hide KeptGaps, Width, CopyAll, Sample, LocalInit, Reinsert;
    if c.qsize >= 2 {
      WidthPositiveExactly(SampleOf(c));
    }
  }

  /** Some gap of the sample lies strictly between zero and twice the average. */
  ghost predicate SampleKeepsGap(c: Cal)
    requires Shape(c)
  {
    c.qsize < 2 || KeepsGap(SampleOf(c), AverageGap(SampleOf(c)) * 2.0)
  }

  ghost predicate SampledWell(c: Cal)
    requires Shape(c)
  {
    c.qsize < 2 || SamplesWell(Disabled(c), SampleSize(c.qsize))
  }

  /** A resize of an ordered queue that is sampled in order finds a usable width if and only if the
      sample has a gap strictly between zero and twice the average gap. */
  lemma ResizeFindsWidth(c: Cal, newsize: nat)
    requires Ordered(c) && newsize > 0 && SampledWell(c)
    ensures Resize(c, newsize).Ok? <==> SampleKeepsGap(c)
  {
    hide KeptGaps, Width, CopyAll, Sample, LocalInit, Reinsert, SamplesWell, KeepsGap;
    if c.qsize >= 2 {
      var lag :| Ready(c, lag);
      assert Ready(Disabled(c), lag);
      var lag' := SampleSorted(Disabled(c), lag, SampleSize(c.qsize));
      WidthOfSorted(SampleOf(c));
    }
  }

  /** Pairwise different priorities always leave such a gap. */
  lemma DistinctKeepsGap(c: Cal, lag: int)
    requires Ready(c, lag) && Distinct(Items(c.buckets)) && SampledWell(c)
    ensures SampleKeepsGap(c)
  {
    hide KeptGaps, Width, Sample, SamplesWell, KeepsGap, Increasing;
    if c.qsize >= 2 {
      assert Ready(Disabled(c), lag);
      var lag' := SampleSorted(Disabled(c), lag, SampleSize(c.qsize));
      WidthOfIncreasing(SampleOf(c));
      WidthOfSorted(SampleOf(c));
    }
  }

  /** If all stored priorities are equal, the width is 0/0. */
  lemma TiesGiveNoWidth(c: Cal)
    requires Shape(c) && c.resizeEnabled && c.qsize >= 2
    requires forall x, y :: x in Items(c.buckets) && y in Items(c.buckets) ==> x.priority == y.priority
    ensures NewWidth(c).1 == None
  {
    var s := SampleOf(c);
    SampleContents(Disabled(c), SampleSize(c.qsize));
    forall i | 1 <= i < |s| ensures Gap(s, i) == 0.0 {
      assert s[i] in multiset(s) && s[i - 1] in multiset(s);
      assert s[i] in Items(c.buckets) && s[i - 1] in Items(c.buckets);
    }
    WidthOfSorted(s);
  }

  /** The sampling loop never asks for more nodes than there are, nor for more than 25, and with two
      nodes or more it takes at least two. */
  lemma SampleSizeBounds(q: nat)
    ensures SampleSize(q) <= q && SampleSize(q) <= 25
    ensures q >= 2 ==> SampleSize(q) >= 2
  {
  }
}
