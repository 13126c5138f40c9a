/**
 What a resize samples, and which width it makes of that, without reference to how the loops of
 new_width go about it.
 */
module CalendarWidth {
  import opened Common
  import opened Calendar
  import opened CalendarOps
  import opened CalendarOrder
  import opened CalendarResizing

  // ---------- how many nodes are sampled ----------

  /** n nodes are sampled from q: all of up to five, then one more for every ten, up to 25. */
  predicate SampledFrom(n: int, q: int) {
    if q <= 5 then n == q
    else if q < 210 then 10 * (n - 5) <= q < 10 * (n - 4)
    else n == 25
  }

  lemma SampleSizeExactly(q: nat, n: int)
    ensures SampleSize(q) == n <==> SampledFrom(n, q)
    ensures q >= 200 ==> SampleSize(q) == 25
  {
  }

  /** The sample is part of the queue, as large as the queue's size asks for, and its width is the one
      that new_width finds. */
  lemma NewWidthSamples(c: Cal)
    requires Shape(c) && c.qsize >= 2
    ensures SampledFrom(|SampleOf(c)|, c.qsize)
    ensures multiset(SampleOf(c)) <= Items(c.buckets)
    ensures NewWidth(c).1 == Width(SampleOf(c))
  {
    hide Items, Width, Reinsert, Sample, Placed;
    SampleContents(Disabled(c), SampleSize(c.qsize));
  }

  lemma {:induction false} LastIsLargest(s: seq<Node>, i: nat)
    requires i < |s| && GapsAtLeast(s, 0.0)
    ensures s[i].priority <= s[|s| - 1].priority
    decreases |s| - i
  {
    if i < |s| - 1 {
      assert Gap(s, i + 1) >= 0.0;
      LastIsLargest(s, i + 1);
    }
  }

  /** Sampled in order, it consists of the smallest nodes. */
  lemma SampleIsSmallest(c: Cal)
    requires Ordered(c) && SampledWell(c) && c.qsize >= 2
    ensures forall x, y :: x in multiset(SampleOf(c)) && y in Items(c.buckets) - multiset(SampleOf(c)) ==>
      x.priority <= y.priority
  {
    hide Sample, SamplesWell;
    var lag :| Ready(c, lag);
    assert Ready(Disabled(c), lag);
    var n := SampleSize(c.qsize);
    var lag' := SampleSorted(Disabled(c), lag, n);
    SampleContents(Disabled(c), n);
    var (d, s) := Sample(Disabled(c), n);
    forall x, y | x in multiset(s) && y in Items(c.buckets) - multiset(s) ensures x.priority <= y.priority {
      assert y in Items(d.buckets);
      var i :| 0 <= i < |s| && s[i] == x;
      LastIsLargest(s, i);
    }
  }

  // ---------- which width is made of them ----------

  /** The gaps between neighbours, in order. */
  function Gaps(s: seq<Node>): seq<real> {
    if s == [] then [] else seq(|s| - 1, i requires 0 <= i < |s| - 1 => Gap(s, i + 1))
  }

  function Sum(g: seq<real>): real {
    if g == [] then 0.0 else g[0] + Sum(g[1..])
  }

  function Below(g: seq<real>, bound: real): seq<real> {
    if g == [] then [] else (if g[0] < bound then [g[0]] else []) + Below(g[1..], bound)
  }

  lemma {:induction false} SumSnoc(g: seq<real>, x: real)
    ensures Sum(g + [x]) == Sum(g) + x
  {
    if g == [] {
      assert [] + [x] == [x];
    } else {
      assert (g + [x])[1..] == g[1..] + [x];
      SumSnoc(g[1..], x);
    }
  }

  lemma {:induction false} BelowSnoc(g: seq<real>, x: real, bound: real)
    ensures Below(g + [x], bound) == Below(g, bound) + if x < bound then [x] else []
  {
    if g == [] {
      assert [] + [x] == [x];
    } else {
      assert (g + [x])[1..] == g[1..] + [x];
      BelowSnoc(g[1..], x, bound);
    }
  }

  lemma GapsSnoc(s: seq<Node>)
    requires |s| >= 2
    ensures Gaps(s) == Gaps(s[..|s| - 1]) + [Gap(s, |s| - 1)]
  {
    var t := s[..|s| - 1];
    assert forall i :: 1 <= i < |t| ==> Gap(t, i) == Gap(s, i);
  }

  /** The two passes of new_width over the sample. */
  lemma {:induction false} PassesAddUp(s: seq<Node>, bound: real)
    requires |s| >= 1
    ensures GapSum(s) == s[|s| - 1].priority - s[0].priority
    ensures KeptGaps(s, bound) == (Sum(Below(Gaps(s), bound)), |Below(Gaps(s), bound)|)
    decreases |s|
  {
    if |s| >= 2 {
      var t, gap := s[..|s| - 1], Gap(s, |s| - 1);
      PassesAddUp(t, bound);
      GapsSnoc(s);
      BelowSnoc(Gaps(t), gap, bound);
      SumSnoc(Below(Gaps(t), bound), gap);
      hide Gaps, Below, Sum;
      var kept := Below(Gaps(t), bound);
      assert KeptGaps(s, bound) == if gap < bound then (Sum(kept) + gap, |kept| + 1) else (Sum(kept), |kept|);
      assert kept + [] == kept;
    }
  }

  /** The gaps that count: those below twice the average gap, from first to last sample. */
  function KeptOf(s: seq<Node>): seq<real>
    requires |s| >= 2
  {
    Below(Gaps(s), 2.0 * ((s[|s| - 1].priority - s[0].priority) / (|s| - 1) as real))
  }

  /** Samples in whatever order: the width is three times the average of the gaps that count, and there
      is none if none counts. */
  lemma WidthIsKeptAverage(s: seq<Node>)
    requires |s| >= 2
    ensures Width(s) == if KeptOf(s) == [] then None else Some(3.0 * (Sum(KeptOf(s)) / |KeptOf(s)| as real))
  {
    hide KeptGaps, GapSum, Gaps, Below, Sum;
    PassesAddUp(s, AverageGap(s) * 2.0);
  }

  /** The bucket width of every resize that works: 1.0 if fewer than two nodes are stored, and otherwise
      three times the average of the gaps that count in the sample. */
  lemma ResizedWidth(c: Cal, newsize: nat)
    requires Shape(c) && c.resizeEnabled && newsize > 0 && Resize(c, newsize).Ok?
    ensures c.qsize < 2 ==> Resize(c, newsize).value.cwidth == 1.0
    ensures c.qsize >= 2 ==>
      KeptOf(SampleOf(c)) != []
      && Resize(c, newsize).value.cwidth == 3.0 * (Sum(KeptOf(SampleOf(c))) / |KeptOf(SampleOf(c))| as real)
  {
    hide Width, Reinsert, Sample, Shape, KeptOf, Sum;
    if c.qsize >= 2 {
      NewWidthSamples(c);
      WidthIsKeptAverage(SampleOf(c));
    }
  }
}
