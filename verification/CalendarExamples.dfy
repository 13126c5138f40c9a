/** Runs of the calendar queue that pass over the smallest node, or that end in an unusable width. */
module CalendarExamples {
  import opened Common
  import opened Calendar
  import opened CalendarShape
  import opened CalendarOps
  import opened CalendarOrder
  import opened CalendarRuns
  import opened CalendarResizing
  import opened CalendarSurvival

  /** A queue of two buckets of width one. */
  function Small(b0: Bucket, b1: Bucket, qsize: nat, lastprio: real, lastbucket: int, top: real): Cal {
    Cal(0, 1.0, [b0, b1], qsize, lastprio, lastbucket, top, -1, 4, true)
  }

  lemma HomeSmall(p: real)
    ensures Home(p, 1.0, 2) == p.Floor % 2
  {
    assert p / 1.0 == p;
  }

  function PutPlace(b0: Bucket, b1: Bucket, x: Node): (Bucket, Bucket) {
    if x.priority.Floor % 2 == 0 then (Insert(b0, x), b1) else (b0, Insert(b1, x))
  }

  lemma PutRawSmall(b0: Bucket, b1: Bucket, q: nat, last: real, lb: int, top: real, x: Node)
    ensures var (a0, a1) := PutPlace(b0, b1, x);
      PutRaw(Small(b0, b1, q, last, lb, top), x) == Small(a0, a1, q + 1, last, lb, top)
  {
    hide Home;
    HomeSmall(x.priority);
    assert [b0, b1][0 := Insert(b0, x)] == [Insert(b0, x), b1];
    assert [b0, b1][1 := Insert(b1, x)] == [b0, Insert(b1, x)];
  }

  lemma PutSmall(b0: Bucket, b1: Bucket, q: nat, last: real, lb: int, top: real, x: Node)
    requires Shape(Small(b0, b1, q, last, lb, top)) && x.priority >= 0.0 && q < 4
    ensures Put(Small(b0, b1, q, last, lb, top), x) ==
      Ok(if x.priority.Floor % 2 == 0 then Small(Insert(b0, x), b1, q + 1, last, lb, top)
         else Small(b0, Insert(b1, x), q + 1, last, lb, top))
  {
    hide PutRaw, Shape, Resize;
    PutRawSmall(b0, b1, q, last, lb, top, x);
  }

  lemma SweepSmall(c: Cal)
    requires c.Nbuckets() == 2 && 0 <= c.lastbucket < 2 && c.cwidth == 1.0
    ensures Sweep(c, 0) ==
      if Accepts(c.buckets[c.lastbucket], c.buckettop) then 0
      else if Accepts(c.buckets[1 - c.lastbucket], c.buckettop + 1.0) then 1 else 2
  {
    assert Sweep(c, 1) == if Hit(c, 1) then 1 else 2;
  }

  /** The sweep, starting at bucket 1, takes e from bucket `i` in step k. */
  lemma GetSmall(c: Cal, e: Node, i: int, k: nat, c': Cal)
    requires Shape(c) && c.qsize > 0 && c.botThreshold == -1 && c.cwidth == 1.0
    requires 0 <= i == NextBucket(c) && k == Sweep(c, 0) && e == c.buckets[i][0]
    requires c' == c.(buckets := c.buckets[i := c.buckets[i][1..]], qsize := c.qsize - 1,
                      lastprio := e.priority, lastbucket := i, buckettop := StepTop(c.buckettop, k, c.cwidth))
    ensures Step(c, OpGet) == Ok((c', [Some(e)]))
  {
    DeqShape(c);
  }

  lemma FirstPut(a: Node)
    requires a.priority == 3.0
    ensures Step(Init(), OpPut(a)) == Ok((Small([], [a], 1, 0.0, 0, 1.5), []))
    ensures Shape(Small([], [a], 1, 0.0, 0, 1.5))
  {
    InitOrdered();
    assert VirtualBucket(0.0, 1.0) == 0;
    assert Init() == Small([], [], 0, 0.0, 0, 1.5);
    PutSmall([], [], 0, 0.0, 0, 1.5, a);
    assert Insert([], a) == [a];
    PutConserves(Init(), a);
  }

  /** The direct search leaves the cursor at lag 1. */
  lemma FirstGet(a: Node)
    requires a.priority == 3.0 && Shape(Small([], [a], 1, 0.0, 0, 1.5))
    ensures Step(Small([], [a], 1, 0.0, 0, 1.5), OpGet) == Ok((Small([], [], 0, 3.0, 1, 3.5), [Some(a)]))
    ensures Shape(Small([], [], 0, 3.0, 1, 3.5))
  {
    var c, c2 := Small([], [a], 1, 0.0, 0, 1.5), Small([], [], 0, 3.0, 1, 3.5);
    SweepSmall(c);
    DirectFinds(c.buckets, 0, -1);
    assert [a][1..] == [];
    assert c.buckets[1 := []] == c2.buckets;
    GetSmall(c, a, 1, 2, c2);
    DeqConserves(c);
  }

  lemma SecondPut(b: Node)
    requires b.priority == 3.7 && Shape(Small([], [], 0, 3.0, 1, 3.5))
    ensures Step(Small([], [], 0, 3.0, 1, 3.5), OpPut(b)) == Ok((Small([], [b], 1, 3.0, 1, 3.5), []))
    ensures Shape(Small([], [b], 1, 3.0, 1, 3.5))
  {
    PutSmall([], [], 0, 3.0, 1, 3.5, b);
    assert Insert([], b) == [b];
    PutConserves(Small([], [], 0, 3.0, 1, 3.5), b);
  }

  lemma ThirdPut(b: Node, d: Node)
    requires d.priority == 4.2 && Shape(Small([], [b], 1, 3.0, 1, 3.5))
    ensures Step(Small([], [b], 1, 3.0, 1, 3.5), OpPut(d)) == Ok((Small([d], [b], 2, 3.0, 1, 3.5), []))
    ensures Shape(Small([d], [b], 2, 3.0, 1, 3.5))
  {
    PutSmall([], [b], 1, 3.0, 1, 3.5, d);
    assert Insert([], d) == [d];
    PutConserves(Small([], [b], 1, 3.0, 1, 3.5), d);
  }

  /** Half a bucket behind, the sweep rejects 3.7 and accepts 4.2. */
  lemma SecondGet(b: Node, d: Node)
    requires b.priority == 3.7 && d.priority == 4.2 && Shape(Small([d], [b], 2, 3.0, 1, 3.5))
    ensures Step(Small([d], [b], 2, 3.0, 1, 3.5), OpGet) == Ok((Small([], [b], 1, 4.2, 0, 4.5), [Some(d)]))
    ensures Shape(Small([], [b], 1, 4.2, 0, 4.5))
  {
    var c4, c5 := Small([d], [b], 2, 3.0, 1, 3.5), Small([], [b], 1, 4.2, 0, 4.5);
    SweepSmall(c4);
    assert [d][1..] == [];
    assert c4.buckets[0 := []] == c5.buckets;
    GetSmall(c4, d, 0, 1, c5);
    DeqConserves(c4);
  }

  /** A run whose answers after the first step are known. */
  lemma RunCons(c: Cal, ops: seq<Op>, r: Cal, out: seq<Option<Node>>, outs: seq<Option<Node>>)
    requires Shape(c) && c.resizeEnabled && ops != []
    requires ops[0].OpPut? ==> ops[0].x.priority >= c.lastprio
    requires Step(c, ops[0]) == Ok((r, out))
    requires Legal(r, ops[1..]) && Answers(r, ops[1..]) == outs
    ensures Legal(c, ops) && Answers(c, ops) == out + outs
  {
  }

  /** The run from lag 1 on. */
  lemma LastThree(b: Node, d: Node, ops: seq<Op>)
    requires b.priority == 3.7 && d.priority == 4.2 && Shape(Small([], [], 0, 3.0, 1, 3.5))
    requires |ops| == 3 && ops[0] == OpPut(b) && ops[1] == OpPut(d) && ops[2] == OpGet
    ensures Legal(Small([], [], 0, 3.0, 1, 3.5), ops)
    ensures Answers(Small([], [], 0, 3.0, 1, 3.5), ops) == [Some(d)]
  {
    SecondPut(b);
    ThirdPut(b, d);
    SecondGet(b, d);
    var t := ops[1..];
    RunCons(Small([d], [b], 2, 3.0, 1, 3.5), t[1..], Small([], [b], 1, 4.2, 0, 4.5), [Some(d)], []);
    RunCons(Small([], [b], 1, 3.0, 1, 3.5), t, Small([d], [b], 2, 3.0, 1, 3.5), [], [Some(d)]);
    RunCons(Small([], [], 0, 3.0, 1, 3.5), ops, Small([], [b], 1, 3.0, 1, 3.5), [], [Some(d)]);
  }

  lemma LastFour(a: Node, b: Node, d: Node, ops: seq<Op>)
    requires a.priority == 3.0 && b.priority == 3.7 && d.priority == 4.2 && Shape(Small([], [a], 1, 0.0, 0, 1.5))
    requires |ops| == 4 && ops[0] == OpGet && ops[1] == OpPut(b) && ops[2] == OpPut(d) && ops[3] == OpGet
    ensures Legal(Small([], [a], 1, 0.0, 0, 1.5), ops)
    ensures Answers(Small([], [a], 1, 0.0, 0, 1.5), ops) == [Some(a), Some(d)]
  {
    FirstGet(a);
    LastThree(b, d, ops[1..]);
    RunCons(Small([], [a], 1, 0.0, 0, 1.5), ops, Small([], [], 0, 3.0, 1, 3.5), [Some(a)], [Some(d)]);
  }

  /** Put 3.0, get, put 3.7, put 4.2: the next get answers 4.2, with 3.7 still stored. */
  lemma OvertakenAtLagOne(a: Node, b: Node, d: Node, ops: seq<Op>)
    requires a.priority == 3.0 && b.priority == 3.7 && d.priority == 4.2
    requires |ops| == 5 && ops[0] == OpPut(a) && ops[1] == OpGet && ops[2] == OpPut(b) && ops[3] == OpPut(d)
      && ops[4] == OpGet
    ensures Legal(Init(), ops)
    ensures Answers(Init(), ops) == [Some(a), Some(d)]
  {
    InitOrdered();
    FirstPut(a);
    LastFour(a, b, d, ops[1..]);
    RunCons(Init(), ops, Small([], [a], 1, 0.0, 0, 1.5), [], [Some(a), Some(d)]);
  }

  // ---------- an unusable width ----------

  /** A legal run without a get at lag 1 leads from c to r. */
  ghost predicate LeadsTo(c: Cal, ops: seq<Op>, r: Cal) {
    Legal(c, ops) && NeverLagOne(c, ops) && Final(c, ops) == r
  }

  lemma LeadOn(c: Cal, ops: seq<Op>, mid: Cal, out: seq<Option<Node>>, r: Cal)
    requires Shape(c) && c.resizeEnabled && ops != []
    requires if ops[0].OpPut? then ops[0].x.priority >= c.lastprio else !LagIs(c, 1)
    requires Step(c, ops[0]) == Ok((mid, out)) && LeadsTo(mid, ops[1..], r)
    ensures LeadsTo(c, ops, r)
  {
    assert c.lastprio >= 0.0;
    hide Step, Shape, LagIs;
  }

  lemma InsertLast(b: Bucket, x: Node)
    requires forall i :: 0 <= i < |b| ==> b[i].priority <= x.priority
    ensures Insert(b, x) == b + [x]
  {
    if b != [] {
      InsertLast(b[1..], x);
    }
  }

  /** The queue after 3.0 has been put and got, 3.7 and 4.2 put, and more nodes put behind 3.7. */
  function Crowded(d: Node, bs: Bucket): Cal {
    Small([d], bs, 1 + |bs|, 3.0, 1, 3.5)
  }

  lemma PutBehind(d: Node, bs: Bucket, x: Node)
    requires Shape(Crowded(d, bs)) && |bs| < 3 && 3.7 <= x.priority < 4.0
    requires forall i :: 0 <= i < |bs| ==> bs[i].priority <= x.priority
    ensures Step(Crowded(d, bs), OpPut(x)) == Ok((Crowded(d, bs + [x]), []))
    ensures Shape(Crowded(d, bs + [x]))
  {
    PutSmall([d], bs, 1 + |bs|, 3.0, 1, 3.5, x);
    InsertLast(bs, x);
    hide Shape, Put, PutRaw, Small, Insert;
    PutConserves(Crowded(d, bs), x);
  }

  /** Two buckets of width one: the sweep stops in step k at bucket i. */
  lemma NextSmall(c: Cal, k: nat, i: int)
    requires c.Nbuckets() == 2 && 0 <= c.lastbucket < 2 && c.cwidth == 1.0 && k < 2 && Sweep(c, 0) == k
    requires i == (if k == 0 then c.lastbucket else 1 - c.lastbucket)
    ensures NextBucket(c) == i && c.buckets[i] != []
  {
    hide Sweep;
  }

  lemma DeqSmall(c: Cal, k: nat, i: int)
    requires c.Nbuckets() == 2 && c.cwidth == 1.0 && Sweep(c, 0) == k && 0 <= i < 2 && NextBucket(c) == i
    ensures c.buckets[i] != [] && DeqRaw(c) ==
      (c.(lastbucket := i, lastprio := c.buckets[i][0].priority, qsize := c.qsize - 1,
          buckets := c.buckets[i := c.buckets[i][1..]], buckettop := c.buckettop + k as real),
       c.buckets[i][0])
  {
    hide Sweep, NextBucket;
    assert StepTop(c.buckettop, k, 1.0) == c.buckettop + k as real;
  }

  /** A small queue while it is sampled. */
  function Off(b0: Bucket, b1: Bucket, qsize: int, lastprio: real, lastbucket: int, top: real): Cal {
    Cal(0, 1.0, [b0, b1], qsize, lastprio, lastbucket, top, -1, 4, false)
  }

  /** The sampling of the crowded queue takes 4.2 first. */
  lemma TakeOvertaker(d: Node, bs: Bucket)
    requires d.priority == 4.2 && |bs| == 4 && bs[0].priority == 3.7
    ensures NextBucket(Off([d], bs, 5, 3.0, 1, 3.5)) != -1
    ensures DeqRaw(Off([d], bs, 5, 3.0, 1, 3.5)) == (Off([], bs, 4, 4.2, 0, 4.5), d)
  {
    var c := Off([d], bs, 5, 3.0, 1, 3.5);
    SweepSmall(c);
    NextSmall(c, 1, 0);
    DeqSmall(c, 1, 0);
    assert [d][1..] == [];
    assert c.buckets[0 := []] == [[], bs];
  }

  /** Then the other bucket in order. */
  lemma TakeBehind(bs: Bucket, last: real, lb: int, top: real)
    requires bs != [] && bs[0].priority < 4.0 && (lb == 0 || lb == 1) && top >= 4.0
    ensures var c := Off([], bs, |bs|, last, lb, top); var top' := if lb == 0 then top + 1.0 else top;
      NextBucket(c) != -1 && DeqRaw(c) == (Off([], bs[1..], |bs| - 1, bs[0].priority, 1, top'), bs[0])
  {
    var c := Off([], bs, |bs|, last, lb, top);
    SweepSmall(c);
    NextSmall(c, 1 - lb, 1);
    DeqSmall(c, 1 - lb, 1);
    assert c.buckets[1 := bs[1..]] == [[], bs[1..]];
  }

  lemma SampleOneMore(c: Cal, n: nat, d: Cal, s: seq<Node>, r: Cal, e: Node)
    requires Shape(c) && n < c.qsize && Sample(c, n) == (d, s) && NextBucket(d) != -1 && DeqRaw(d) == (r, e)
    ensures Sample(c, n + 1) == (r, s + [e])
  {
  }

  /** The sample of the crowded queue: 4.2 comes before 3.7. */
  lemma SampleCrowded(d: Node, bs: Bucket)
    requires d.priority == 4.2 && |bs| == 4 && bs[0].priority == 3.7
    requires forall i :: 0 <= i < 4 ==> bs[i].priority < 4.0
    requires Shape(Off([d], bs, 5, 3.0, 1, 3.5))
    ensures Sample(Off([d], bs, 5, 3.0, 1, 3.5), 5).1 == [d] + bs
  {
    hide Shape, DeqRaw, NextBucket, Sample;
    var c := Off([d], bs, 5, 3.0, 1, 3.5);
    SampleNone(c);
    var c1, c2 := Off([], bs, 4, 4.2, 0, 4.5), Off([], bs[1..], 3, bs[0].priority, 1, 5.5);
    var c3, c4 := Off([], bs[2..], 2, bs[1].priority, 1, 5.5), Off([], bs[3..], 1, bs[2].priority, 1, 5.5);
    var c5 := Off([], bs[4..], 0, bs[3].priority, 1, 5.5);
    assert bs[1..][1..] == bs[2..] && bs[2..][1..] == bs[3..] && bs[3..][1..] == bs[4..];
    TakeOvertaker(d, bs);
    TakeBehind(bs, 4.2, 0, 4.5);
    TakeBehind(bs[1..], bs[0].priority, 1, 5.5);
    TakeBehind(bs[2..], bs[1].priority, 1, 5.5);
    TakeBehind(bs[3..], bs[2].priority, 1, 5.5);
    hide Off;
    var s0: seq<Node> := [];
    var s1 := s0 + [d];
    var s2 := s1 + [bs[0]];
    var s3 := s2 + [bs[1]];
    var s4 := s3 + [bs[2]];
    SampleOneMore(c, 0, c, s0, c1, d);
    SampleOneMore(c, 1, c1, s1, c2, bs[0]);
    SampleOneMore(c, 2, c2, s2, c3, bs[1]);
    SampleOneMore(c, 3, c3, s3, c4, bs[2]);
    SampleOneMore(c, 4, c4, s4, c5, bs[3]);
    assert s4 + [bs[3]] == [d] + bs;
  }

  lemma SampleNone(c: Cal)
    requires Shape(c)
    ensures Sample(c, 0) == (c, [])
  {
  }

  lemma GapsSnoc(s: seq<Node>, x: Node, bound: real)
    requires s != []
    ensures var gap := x.priority - s[|s| - 1].priority;
      && GapSum(s + [x]) == GapSum(s) + gap
      && KeptGaps(s + [x], bound) ==
        if gap < bound then (KeptGaps(s, bound).0 + gap, KeptGaps(s, bound).1 + 1) else KeptGaps(s, bound)
  {
    assert (s + [x])[..|s|] == s;
  }

  /** Of the gaps -0.5, 0.1, 0.1 and 0.05 only the first is below twice their average, -0.125. */
  lemma WidthCrowded(d: Node, bs: Bucket)
    requires d.priority == 4.2 && |bs| == 4
    requires bs[0].priority == 3.7 && bs[1].priority == 3.8 && bs[2].priority == 3.9 && bs[3].priority == 3.95
    ensures Width([d] + bs) == Some(-1.5)
  {
    hide GapSum, KeptGaps;
    var s0 := [d];
    var s1 := s0 + [bs[0]];
    var s2 := s1 + [bs[1]];
    var s3 := s2 + [bs[2]];
    OneNode(d, -0.125);
    GapsSnoc(s0, bs[0], -0.125);
    GapsSnoc(s1, bs[1], -0.125);
    GapsSnoc(s2, bs[2], -0.125);
    GapsSnoc(s3, bs[3], -0.125);
    assert s3 + [bs[3]] == [d] + bs;
    assert AverageGap([d] + bs) == -0.0625;
  }

  lemma OneNode(d: Node, bound: real)
    ensures GapSum([d]) == 0.0 && KeptGaps([d], bound) == (0.0, 0)
  {
  }

  /** The fifth node is one too many for two buckets, and the resize samples 4.2 before 3.7. */
  lemma LastPutFails(d: Node, bs: Bucket, x: Node)
    requires d.priority == 4.2 && |bs| == 3 && x.priority == 3.95
    requires bs[0].priority == 3.7 && bs[1].priority == 3.8 && bs[2].priority == 3.9
    requires Shape(Crowded(d, bs))
    ensures PutRaw(Crowded(d, bs), x) == Crowded(d, bs + [x]) && Shape(Crowded(d, bs + [x]))
    ensures NewWidth(Crowded(d, bs + [x])).1 == Some(-1.5)
    ensures Step(Crowded(d, bs), OpPut(x)) == BadWidth
  {
    hide PutRaw, NewWidth, Shape;
    var c, c1 := Crowded(d, bs), Crowded(d, bs + [x]);
    PutShape(c, x);
    PutRawSmall([d], bs, 4, 3.0, 1, 3.5, x);
    InsertLast(bs, x);
    assert PutRaw(c, x) == c1;
    CrowdedWidth(d, bs + [x]);
  }

  lemma CrowdedWidth(d: Node, bs: Bucket)
    requires d.priority == 4.2 && |bs| == 4 && Shape(Crowded(d, bs))
    requires bs[0].priority == 3.7 && bs[1].priority == 3.8 && bs[2].priority == 3.9 && bs[3].priority == 3.95
    ensures NewWidth(Crowded(d, bs)).1 == Some(-1.5)
  {
    hide Sample, Width;
    assert Disabled(Crowded(d, bs)) == Off([d], bs, 5, 3.0, 1, 3.5);
    SampleCrowded(d, bs);
    WidthCrowded(d, bs);
  }

  lemma LeadsNowhere(c: Cal)
    requires Shape(c) && c.resizeEnabled
    ensures LeadsTo(c, [], c)
  {
  }

  lemma FirstGetOffLagOne(a: Node)
    ensures !LagIs(Small([], [a], 1, 0.0, 0, 1.5), 1)
  {
    assert 0.0 / 1.0 == 0.0 && 1.5 / 1.0 == 1.5;
  }

  /** The puts behind 3.7. */
  lemma CrowdedTail(b: Node, d: Node, e: Node, f: Node, ops: seq<Op>)
    requires b.priority == 3.7 && d.priority == 4.2 && e.priority == 3.8 && f.priority == 3.9
    requires |ops| == 2 && ops[0] == OpPut(e) && ops[1] == OpPut(f) && Shape(Crowded(d, [b]))
    ensures LeadsTo(Crowded(d, [b]), ops, Crowded(d, [b, e, f])) && Shape(Crowded(d, [b, e, f]))
  {
    hide LeadsTo, Step, Shape;
    PutBehind(d, [b], e);
    assert [b] + [e] == [b, e] && [b, e] + [f] == [b, e, f];
    PutBehind(d, [b, e], f);
    var c1, c2, r := Crowded(d, [b]), Crowded(d, [b, e]), Crowded(d, [b, e, f]);
    LeadsNowhere(r);
    assert ops[1..][1..] == [];
    LeadOn(c2, ops[1..], r, [], r);
    LeadOn(c1, ops, c2, [], r);
  }

  lemma CrowdedRun(a: Node, b: Node, d: Node, e: Node, f: Node, ops: seq<Op>)
    requires a.priority == 3.0 && b.priority == 3.7 && d.priority == 4.2 && e.priority == 3.8 && f.priority == 3.9
    requires |ops| == 6 && ops[0] == OpPut(a) && ops[1] == OpGet && ops[2] == OpPut(b) && ops[3] == OpPut(d)
    requires ops[4] == OpPut(e) && ops[5] == OpPut(f)
    ensures LeadsTo(Init(), ops, Crowded(d, [b, e, f])) && Shape(Crowded(d, [b, e, f]))
  {
    hide LeadsTo, Step, Shape, LagIs, Init;
    InitOrdered();
    FirstPut(a);
    FirstGet(a);
    FirstGetOffLagOne(a);
    SecondPut(b);
    ThirdPut(b, d);
    var c1, c2, c3 := Small([], [a], 1, 0.0, 0, 1.5), Small([], [], 0, 3.0, 1, 3.5), Small([], [b], 1, 3.0, 1, 3.5);
    var c4, r := Crowded(d, [b]), Crowded(d, [b, e, f]);
    var t := ops[1..];
    CrowdedTail(b, d, e, f, t[1..][1..][1..]);
    LeadOn(c3, t[1..][1..], c4, [], r);
    LeadOn(c2, t[1..], c3, [], r);
    LeadOn(c1, t, c2, [Some(a)], r);
    InitIsFresh();
    LeadOn(Init(), ops, c1, [], r);
  }

  lemma InitIsFresh()
    ensures Shape(Init()) && Init().resizeEnabled && Init().lastprio == 0.0
  {
    InitOrdered();
  }

  /** A legal run with pairwise different priorities, none of whose gets starts at lag 1 or is
      overtaken, ends in a negative width: put 3.0, get, put 3.7, 4.2, 3.8, 3.9 and 3.95.  The get leaves
      the queue at lag 1, and so the resize that the last put starts samples 4.2 before 3.7.  The C code
      goes on with width -1.5 and computes negative bucket numbers. */
  lemma NegativeWidth(a: Node, b: Node, d: Node, e: Node, f: Node, x: Node, ops: seq<Op>)
    requires a.priority == 3.0 && b.priority == 3.7 && d.priority == 4.2 && e.priority == 3.8 && f.priority == 3.9
    requires |ops| == 6 && ops[0] == OpPut(a) && ops[1] == OpGet && ops[2] == OpPut(b) && ops[3] == OpPut(d)
    requires ops[4] == OpPut(e) && ops[5] == OpPut(f) && x.priority == 3.95
    ensures Legal(Init(), ops) && NeverLagOne(Init(), ops) && NeverMisses(Init(), ops)
    ensures var c := Final(Init(), ops);
      && Shape(c) && x.priority >= c.lastprio
      && Shape(PutRaw(c, x)) && NewWidth(PutRaw(c, x)).1 == Some(-1.5)
      && Step(c, OpPut(x)) == BadWidth
    ensures CBucket(3.0, -1.5, 4) == -2 && CBucket(3.95, -1.5, 4) == -2
  {
    assert 3.0 / -1.5 == -2.0 && 2.0 < -(3.95 / -1.5) < 3.0;
    CrowdedRun(a, b, d, e, f, ops);
    InitGoodLag();
    LastPutFails(d, [b, e, f], x);
    hide Shape, Step, Init, PutRaw, NewWidth;
    GetsOffLagOneNeverMiss(Init(), ops);
  }

  /** Puts of one priority, no more than the initial thresholds allow. */
  lemma Ties(ops: seq<Op>, p: real)
    requires p >= 0.0 && |ops| <= 4 && forall i :: 0 <= i < |ops| ==> ops[i].OpPut? && ops[i].x.priority == p
    ensures Survives(Init(), ops)
    ensures var c := Final(Init(), ops);
      && Settled(c) && c.Nbuckets() == 2 && Items(c.buckets) == Stored(ops)
  {
    hide Settled, Init, Items, Stored, Survives, Final, Answers, PutCount;
    InitFacts();
    AllPuts(ops);
    QuietRun(Init(), ops);
    RunConserves(Init(), ops);
    RunSettled(Init(), ops);
    NothingAnswered(Init(), ops);
    var left, none := Items(Final(Init(), ops).buckets), multiset{};
    assert Answered([]) == none && left + none == none + Stored(ops);
    assert left + none == left && none + Stored(ops) == Stored(ops);
  }

  lemma InitFacts()
    ensures Settled(Init()) && Items(Init().buckets) == multiset{} && Init().Nbuckets() == 2
    ensures Init().botThreshold == -1 && Init().topThreshold == 4 && Init().qsize == 0
  {
    InitSettled();
    InitOrdered();
  }

  /** Five puts of one priority: the resize of the fifth divides zero by zero. */
  lemma FiveTies(ops: seq<Op>, x: Node, p: real)
    requires p >= 0.0 && |ops| == 4 && x.priority == p
    requires forall i :: 0 <= i < 4 ==> ops[i].OpPut? && ops[i].x.priority == p
    ensures Survives(Init(), ops)
    ensures var c := Final(Init(), ops);
      && Shape(c) && Shape(PutRaw(c, x)) && NewWidth(PutRaw(c, x)).1 == None
      && Step(c, OpPut(x)) == BadWidth
  {
    Ties(ops, p);
    StoredTies(ops, p);
    hide Survives, Final, Stored, Init, Answers, PutRaw, Items, NewWidth, CopyAll;
    FifthTie(Final(Init(), ops), x, p);
  }

  lemma FifthTie(c: Cal, x: Node, p: real)
    requires Settled(c) && c.Nbuckets() == 2 && c.qsize == 4 && p >= 0.0 && x.priority == p
    requires forall y :: y in Items(c.buckets) ==> y.priority == p
    ensures Shape(PutRaw(c, x)) && NewWidth(PutRaw(c, x)).1 == None && Step(c, OpPut(x)) == BadWidth
  {
    PutShape(c, x);
    var c1 := PutRaw(c, x);
    assert TooFull(c1) && c1.resizeEnabled;
    hide PutRaw, Items;
    TiesGiveNoWidth(c1);
    hide NewWidth;
  }

  lemma {:induction false} AllPuts(ops: seq<Op>)
    requires forall i :: 0 <= i < |ops| ==> ops[i].OpPut?
    ensures PutCount(ops) == |ops|
  {
    if ops != [] {
      AllPuts(ops[1..]);
    }
  }

  lemma PutAnswersNothing(c: Cal, x: Node)
    requires Shape(c) && x.priority >= 0.0 && Step(c, OpPut(x)).Ok?
    ensures Step(c, OpPut(x)).value.1 == []
  {
  }

  lemma {:induction false} NothingAnswered(c: Cal, ops: seq<Op>)
    requires Survives(c, ops) && forall i :: 0 <= i < |ops| ==> ops[i].OpPut?
    ensures Answers(c, ops) == []
    decreases |ops|
  {
    hide Step;
    if ops != [] {
      PutAnswersNothing(c, ops[0].x);
      NothingAnswered(Step(c, ops[0]).value.0, ops[1..]);
    }
  }

  lemma {:induction false} StoredTies(ops: seq<Op>, p: real)
    requires forall i :: 0 <= i < |ops| ==> ops[i].OpPut? && ops[i].x.priority == p
    ensures forall y :: y in Stored(ops) ==> y.priority == p
    ensures |Stored(ops)| == |ops|
    decreases |ops|
  {
    if ops != [] {
      StoredTies(ops[1..], p);
    }
  }
}
