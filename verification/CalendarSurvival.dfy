/**
 Which runs of the calendar queue survive: a resize that finds no positive bucket width ends a run.
 The conditions here do not presuppose that the run survives; they are about each operation that is
 reached.
 */
module CalendarSurvival {
  import opened Arithmetic
  import opened Common
  import opened Calendar
  import opened CalendarShape
  import opened CalendarOps
  import opened CalendarOrder
  import opened CalendarRuns
  import opened CalendarResizing

  // ---------- bucket numbers as the C code computes them ----------

  /** `(int)` cuts off towards zero, and `%` takes the sign of its first operand. */
  function Truncated(x: real): int {
    if x >= 0.0 then x.Floor else -((-x).Floor)
  }

  function CRemainder(v: int, nb: int): int
    requires nb > 0
  {
    if v >= 0 then v % nb else -((-v) % nb)
  }

  function CBucket(p: real, w: real, nb: int): int
    requires w != 0.0 && nb > 0
  {
    CRemainder(Truncated(p / w), nb)
  }

  /** With a positive width they are those of the model, for priorities that are not negative.  Where
      priority and width have opposite signs they are at or before the start of the array, and never after it;
      a negative priority above -w is filed in bucket 0. */
  lemma BucketNumbers(p: real, w: real, nb: int)
    requires w != 0.0 && nb > 0
    ensures p >= 0.0 && w > 0.0 ==> CBucket(p, w, nb) == Home(p, w, nb)
    ensures (p >= 0.0 && w < 0.0) || (p < 0.0 && w > 0.0) ==>
      -nb < CBucket(p, w, nb) <= 0 && (CBucket(p, w, nb) == 0 <==> (-p / w).Floor % nb == 0)
    ensures w > 0.0 && -w < p < 0.0 ==> CBucket(p, w, nb) == 0
  {
    hide Home, VirtualBucket, CRemainder, Truncated;
    QuotientSigns(p, w);
    Truncations(p / w, nb);
    assert w > 0.0 ==> Home(p, w, nb) == (p / w).Floor % nb by {
      if w > 0.0 {
        HomeIs(p, w, nb);
      }
    }
  }

  lemma HomeIs(p: real, w: real, nb: int)
    requires w > 0.0 && nb > 0
    ensures Home(p, w, nb) == (p / w).Floor % nb
  {
  }

  lemma Truncations(q: real, nb: int)
    requires nb > 0
    ensures q >= 0.0 ==> CRemainder(Truncated(q), nb) == q.Floor % nb
    ensures q <= 0.0 ==> CRemainder(Truncated(q), nb) == -((-q).Floor % nb)
    ensures -1.0 < q <= 0.0 ==> (-q).Floor == 0
  {
  }

  lemma QuotientSigns(p: real, w: real)
    requires w != 0.0
    ensures -p / w == -(p / w)
    ensures p >= 0.0 && w > 0.0 ==> p / w >= 0.0
    ensures (p >= 0.0 && w < 0.0) || (p < 0.0 && w > 0.0) ==> p / w <= 0.0
    ensures w > 0.0 && -w < p < 0.0 ==> -1.0 < p / w <= 0.0
  {
    NegatedQuotient(p, w);
    var q := p / w;
    assert w * q == p;
    if w > 0.0 {
      MulSign(w, q);
      if -w < p {
        AboveMinusOne(p, q, w);
      }
    } else {
      MulSign(-w, q);
      assert -w * q == -p;
    }
  }

  lemma AboveMinusOne(p: real, q: real, w: real)
    requires w > 0.0 && p == w * q && p + w > 0.0
    ensures q > -1.0
  {
    MulSign(w, q + 1.0);
  }

  lemma NegatedQuotient(p: real, w: real)
    requires w != 0.0
    ensures -p / w == -(p / w)
  {
    assert (-p / w + p / w) * w == 0.0;
  }

  /** The queue an operation resizes, if it resizes one. */
  function Resized(c: Cal, op: Op): Option<Cal>
    requires Shape(c) && (op.OpPut? ==> op.x.priority >= 0.0)
  {
    match op
    case OpPut(x) =>
      var c1 := PutRaw(c, x);
      if TooFull(c1) then Some(c1) else None
    case OpGet =>
      if c.qsize == 0 then None else
        SomethingToTake(c);
        var c1 := DeqRaw(c).0;
        if TooEmpty(c1) then Some(c1) else None
  }

  lemma ResizedShape(c: Cal, op: Op)
    requires Shape(c) && (op.OpPut? ==> op.x.priority >= 0.0) && Resized(c, op).Some?
    ensures Shape(Resized(c, op).value) && Resized(c, op).value.resizeEnabled == c.resizeEnabled
  {
    match op
    case OpPut(x) => PutShape(c, x);
    case OpGet => DeqShape(c);
  }

  /** The gaps a resize of c keeps have a positive sum, or it does not sample. */
  ghost predicate GapsSumUp(c: Cal)
    requires Shape(c)
  {
    c.qsize < 2 || KeptGaps(SampleOf(c), AverageGap(SampleOf(c)) * 2.0).0 > 0.0
  }

  lemma ResizeByGaps(c: Cal, newsize: nat)
    requires Shape(c) && c.resizeEnabled && newsize > 0
    ensures Resize(c, newsize).Ok? <==> GapsSumUp(c)
  {
    hide KeptGaps, SampleOf, AverageGap;
    ResizeWorksExactly(c, newsize);
  }

  /** An operation succeeds if and only if it resizes nothing or the gaps the resize keeps sum up. */
  lemma StepWorksExactly(c: Cal, op: Op)
    requires Shape(c) && c.resizeEnabled && (op.OpPut? ==> op.x.priority >= 0.0)
    requires Resized(c, op).Some? ==> Shape(Resized(c, op).value)
    ensures Step(c, op).Ok? <==> Resized(c, op).None? || GapsSumUp(Resized(c, op).value)
  {
    hide GapsSumUp, Resize;
    if Resized(c, op).Some? {
      ResizedShape(c, op);
      var d := Resized(c, op).value;
      ResizeByGaps(d, if op.OpPut? then 2 * d.Nbuckets() else d.Nbuckets() / 2);
    }
  }

  // ---------- whole runs ----------

  /** No put is before the last dequeued priority. */
  ghost predicate Forwards(c: Cal, ops: seq<Op>)
    decreases |ops|
  {
    && Shape(c) && c.resizeEnabled
    && (ops != [] ==>
      && (ops[0].OpPut? ==> ops[0].x.priority >= c.lastprio)
      && (Step(c, ops[0]).Ok? ==> Forwards(Step(c, ops[0]).value.0, ops[1..])))
  }

  /** No removal of the sample starts at lag 1. */
  ghost predicate SampledOffLagOne(c: Cal)
    requires Shape(c)
  {
    c.qsize < 2 || forall k: nat {:trigger Sample(Disabled(c), k)} :: k < SampleSize(c.qsize) ==>
      !LagIs(Sample(Disabled(c), k).0, 1)
  }

  /** No removal starts at lag 1, be it of a get or of the sampling in a resize. */
  ghost predicate OffLagOne(c: Cal, ops: seq<Op>)
    requires Forwards(c, ops)
    decreases |ops|
  {
    ops != [] ==>
      && (ops[0].OpGet? ==> !LagIs(c, 1))
      && (Resized(c, ops[0]).Some? ==> Shape(Resized(c, ops[0]).value) && SampledOffLagOne(Resized(c, ops[0]).value))
      && (Step(c, ops[0]).Ok? ==> OffLagOne(Step(c, ops[0]).value.0, ops[1..]))
  }

  /** Every resize samples a gap strictly between zero and twice the average gap. */
  ghost predicate KeepsGaps(c: Cal, ops: seq<Op>)
    requires Forwards(c, ops)
    decreases |ops|
  {
    ops != [] ==>
      && (Resized(c, ops[0]).Some? ==> Shape(Resized(c, ops[0]).value) && SampleKeepsGap(Resized(c, ops[0]).value))
      && (Step(c, ops[0]).Ok? ==> KeepsGaps(Step(c, ops[0]).value.0, ops[1..]))
  }

  /** Removals that do not start at lag 1 are of smallest nodes. */
  lemma {:induction false} SampleStaysGood(c: Cal, lag: int, n: nat) returns (lag': int)
    requires Ready(c, lag) && lag >= 2 - c.Nbuckets() && n <= c.qsize
    requires forall k: nat {:trigger Sample(c, k)} :: k < n ==> !LagIs(Sample(c, k).0, 1)
    ensures SamplesWell(c, n) && Ready(Sample(c, n).0, lag') && lag' >= 2 - c.Nbuckets()
    decreases n
  {
    if n == 0 {
      return lag;
    }
    var mid := SampleStaysGood(c, lag, n - 1);
    var d := Sample(c, n - 1).0;
    assert mid != 1;
    NoMissOffLagOne(d, mid);
    RemovesMinimum(d, mid);
    LagBounds(d, mid);
    DeqReady(d, mid);
    lag' := NextLag(d, mid);
  }

  lemma NoMissOffLagOne(c: Cal, lag: int)
    requires Ready(c, lag) && lag >= 2 - c.Nbuckets() && lag != 1
    ensures !Misses(c)
  {
    forall lag' ensures !MissesAt(c, lag') {
      if LagIs(c, lag') {
        LagUnique(c, lag, lag');
      }
    }
  }

  // ---------- one operation ----------

  lemma PutRawGood(c: Cal, x: Node) returns (lag: int)
    requires GoodLag(c) && x.priority >= c.lastprio
    ensures Ordered(PutRaw(c, x)) && Ready(PutRaw(c, x), lag) && lag >= 2 - PutRaw(c, x).Nbuckets()
  {
    lag :| Ready(c, lag) && lag >= 2 - c.Nbuckets();
    PutShape(c, x);
    AheadAt(PutRaw(c, x));
    assert Ready(PutRaw(c, x), lag);
  }

  lemma DeqRawGood(c: Cal) returns (lag: int)
    requires GoodLag(c) && !LagIs(c, 1) && c.qsize > 0 && NextBucket(c) != -1
    ensures Ordered(DeqRaw(c).0) && Ready(DeqRaw(c).0, lag) && lag >= 2 - DeqRaw(c).0.Nbuckets()
  {
    var was :| Ready(c, was) && was >= 2 - c.Nbuckets();
    NoMissOffLagOne(c, was);
    RemovesMinimum(c, was);
    LagBounds(c, was);
    DeqReady(c, was);
    DeqShape(c);
    lag := NextLag(c, was);
  }

  lemma ResizedGood(c: Cal, op: Op) returns (lag: int)
    requires GoodLag(c) && (op.OpPut? ==> op.x.priority >= c.lastprio) && (op.OpGet? ==> !LagIs(c, 1))
    requires Resized(c, op).Some?
    ensures var d := Resized(c, op).value;
      Ordered(d) && Ready(d, lag) && lag >= 2 - d.Nbuckets()
  {
    hide Ready;
    match op
    case OpPut(x) => lag := PutRawGood(c, x);
    case OpGet =>
      SomethingToTake(c);
      lag := DeqRawGood(c);
  }

  /** A queue sampled without starting at lag 1 finds a usable width if and only if the sample keeps
      a gap. */
  lemma OffLagOneKeepsGap(d: Cal, lag: int)
    requires Ordered(d) && Ready(d, lag) && lag >= 2 - d.Nbuckets() && SampledOffLagOne(d)
    ensures SampledWell(d) && (GapsSumUp(d) <==> SampleKeepsGap(d))
  {
    hide KeptGaps, KeepsGap, AverageGap;
    if d.qsize >= 2 {
      assert Ready(Disabled(d), lag);
      var lag' := SampleStaysGood(Disabled(d), lag, SampleSize(d.qsize));
      ResizeFindsWidth(d, 1);
      ResizeByGaps(d, 1);
    }
  }

  /** One operation off lag 1: it succeeds exactly if its resize keeps a gap, and leaves a good lag. */
  lemma StepOffLagOne(c: Cal, op: Op)
    requires GoodLag(c) && (op.OpPut? ==> op.x.priority >= c.lastprio) && (op.OpGet? ==> !LagIs(c, 1))
    requires Resized(c, op).Some? ==> Shape(Resized(c, op).value) && SampledOffLagOne(Resized(c, op).value)
    ensures Step(c, op).Ok? <==> Resized(c, op).None? || SampleKeepsGap(Resized(c, op).value)
    ensures Step(c, op).Ok? ==> GoodLag(Step(c, op).value.0)
    ensures op.OpGet? && c.qsize > 0 ==> !Misses(c)
  {
    hide SampledOffLagOne, SampleKeepsGap, GapsSumUp, Ready, LagIs;
    StepWorksExactly(c, op);
    if Resized(c, op).Some? {
      var lag := ResizedGood(c, op);
      OffLagOneKeepsGap(Resized(c, op).value, lag);
    }
    match op {
      case OpPut(x) =>
        if Step(c, op).Ok? {
          PutGoodLag(c, x);
        }
      case OpGet =>
        GoodLagNeverMisses(c);
        if Step(c, op).Ok? && c.qsize > 0 {
          DeqGoodLag(c);
        }
    }
  }

  // ---------- whole runs ----------

  /** The gaps every resize keeps have a positive sum. */
  ghost predicate AllGapsSumUp(c: Cal, ops: seq<Op>)
    requires Forwards(c, ops)
    decreases |ops|
  {
    ops != [] ==>
      && (Resized(c, ops[0]).Some? ==> Shape(Resized(c, ops[0]).value) && GapsSumUp(Resized(c, ops[0]).value))
      && (Step(c, ops[0]).Ok? ==> AllGapsSumUp(Step(c, ops[0]).value.0, ops[1..]))
  }

  /** For every run that puts nothing before the last dequeued priority: it survives if and only if
      the gaps every resize keeps sum up. */
  lemma {:induction false} SurvivesExactly(c: Cal, ops: seq<Op>)
    requires Forwards(c, ops)
    ensures Survives(c, ops) <==> AllGapsSumUp(c, ops)
    ensures Survives(c, ops) ==> Legal(c, ops)
    decreases |ops|
  {
    hide Step, Resized, GapsSumUp;
    if ops != [] {
      if Resized(c, ops[0]).Some? {
        ResizedShape(c, ops[0]);
      }
      StepWorksExactly(c, ops[0]);
      if Step(c, ops[0]).Ok? {
        SurvivesExactly(Step(c, ops[0]).value.0, ops[1..]);
      }
    }
  }

  /** For every such run on which no removal, of a get or of a sample, starts at lag 1: it survives if
      and only if every resize samples a gap strictly between zero and twice the average gap, and if
      it survives no get meets a missing state. */
  lemma {:induction false} GapsDecide(c: Cal, ops: seq<Op>)
    requires GoodLag(c) && Forwards(c, ops) && OffLagOne(c, ops)
    ensures Survives(c, ops) <==> KeepsGaps(c, ops)
    ensures Survives(c, ops) ==> Legal(c, ops) && NeverMisses(c, ops)
    decreases |ops|
  {
    hide Step, Resized, SampledOffLagOne, SampleKeepsGap, GoodLag, LagIs, Misses;
    if ops != [] {
      if Resized(c, ops[0]).Some? {
        ResizedShape(c, ops[0]);
      }
      StepOffLagOne(c, ops[0]);
      if Step(c, ops[0]).Ok? {
        GapsDecide(Step(c, ops[0]).value.0, ops[1..]);
      }
    }
  }

  // ---------- pairwise different priorities ----------

  lemma DistinctPart(m: multiset<Node>, part: multiset<Node>)
    requires Distinct(m) && part <= m
    ensures Distinct(part)
  {
    forall x, y | x in part && y in part && x.priority == y.priority ensures x == y && part[x] == 1 {
      assert x in m && y in m;
      assert part[x] <= m[x];
    }
  }

  // What an operation resizes or leaves, with what is still to be put, is part of what there was and
  // was to come.

  lemma PutShrinks(c: Cal, x: Node)
    requires Shape(c) && c.resizeEnabled && x.priority >= 0.0
    ensures Items(PutRaw(c, x).buckets) == Items(c.buckets) + multiset{x}
    ensures Put(c, x).Ok? ==> Items(Put(c, x).value.buckets) == Items(c.buckets) + multiset{x}
  {
    PutShape(c, x);
    if Put(c, x).Ok? {
      PutConserves(c, x);
    }
  }

  lemma DeqShrinks(c: Cal)
    requires Shape(c) && c.resizeEnabled
    ensures c.qsize > 0 ==> NextBucket(c) != -1 && Items(DeqRaw(c).0.buckets) <= Items(c.buckets)
    ensures Deq(c).Ok? ==> Items(Deq(c).value.0.buckets) <= Items(c.buckets)
  {
    if c.qsize > 0 {
      DeqShape(c);
    }
    if Deq(c).Ok? {
      DeqConserves(c);
    }
  }

  lemma ContentsShrink(c: Cal, ops: seq<Op>)
    requires Shape(c) && c.resizeEnabled && ops != [] && (ops[0].OpPut? ==> ops[0].x.priority >= 0.0)
    ensures Resized(c, ops[0]).Some? ==> Items(Resized(c, ops[0]).value.buckets) <= Items(c.buckets) + Stored(ops)
    ensures Step(c, ops[0]).Ok? ==>
      Items(Step(c, ops[0]).value.0.buckets) + Stored(ops[1..]) <= Items(c.buckets) + Stored(ops)
  {
    hide Items, Put, Deq, PutRaw, DeqRaw;
    match ops[0]
    case OpPut(x) => PutShrinks(c, x);
    case OpGet => DeqShrinks(c);
  }

  /** The priorities stored and to be put differ pairwise. */
  ghost predicate DistinctRun(c: Cal, ops: seq<Op>) {
    Distinct(Items(c.buckets) + Stored(ops))
  }

  lemma DistinctNext(c: Cal, ops: seq<Op>)
    requires Shape(c) && c.resizeEnabled && ops != [] && (ops[0].OpPut? ==> ops[0].x.priority >= 0.0)
    requires DistinctRun(c, ops) && Step(c, ops[0]).Ok?
    ensures DistinctRun(Step(c, ops[0]).value.0, ops[1..])
  {
    hide Step, Resized, Items, Stored, Distinct;
    ContentsShrink(c, ops);
    DistinctPart(Items(c.buckets) + Stored(ops), Items(Step(c, ops[0]).value.0.buckets) + Stored(ops[1..]));
  }

  lemma DistinctStep(c: Cal, ops: seq<Op>)
    requires GoodLag(c) && ops != [] && DistinctRun(c, ops)
    requires (ops[0].OpPut? ==> ops[0].x.priority >= c.lastprio) && (ops[0].OpGet? ==> !LagIs(c, 1))
    requires Resized(c, ops[0]).Some? ==> Shape(Resized(c, ops[0]).value) && SampledOffLagOne(Resized(c, ops[0]).value)
    ensures Step(c, ops[0]).Ok?
  {
    hide SampledOffLagOne, SampleKeepsGap, LagIs, Distinct, Items, Stored, Ready, Step;
    ContentsShrink(c, ops);
    hide Resized;
    StepOffLagOne(c, ops[0]);
    if Resized(c, ops[0]).Some? {
      var d := Resized(c, ops[0]).value;
      var lag := ResizedGood(c, ops[0]);
      OffLagOneKeepsGap(d, lag);
      DistinctPart(Items(c.buckets) + Stored(ops), Items(d.buckets));
      DistinctKeepsGap(d, lag);
    }
  }

  /** If the priorities stored and to be put differ pairwise, then off lag 1 every run survives. */
  lemma {:induction false} DistinctSurvives(c: Cal, ops: seq<Op>)
    requires GoodLag(c) && Forwards(c, ops) && OffLagOne(c, ops) && DistinctRun(c, ops)
    ensures Legal(c, ops) && NeverMisses(c, ops)
    decreases |ops|
  {
    hide Step, Resized, SampledOffLagOne, SampleKeepsGap, GoodLag, LagIs, Misses, DistinctRun;
    if ops != [] {
      DistinctStep(c, ops);
      StepOffLagOne(c, ops[0]);
      DistinctNext(c, ops);
      DistinctSurvives(Step(c, ops[0]).value.0, ops[1..]);
    }
  }

  /** From calqueue_init on: every run that puts nothing before the last dequeued priority, whose
      priorities differ pairwise and in which no removal starts at lag 1 survives, and is answered
      as by a plain priority queue. */
  lemma InitSurvives(ops: seq<Op>)
    requires Forwards(Init(), ops) && OffLagOne(Init(), ops) && Distinct(Stored(ops))
    ensures Legal(Init(), ops) && PlainRun(multiset{}, ops, Answers(Init(), ops))
  {
    InitGoodLag();
    InitOrdered();
    assert Items(Init().buckets) + Stored(ops) == Stored(ops);
    DistinctSurvives(Init(), ops);
    InitRefinesPlainQueue(ops);
  }
}
