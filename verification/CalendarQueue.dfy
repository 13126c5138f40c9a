/**
 The calendar queue of 2018-fibers/src/calqueue.c as an object updated in place: one array of
 CALQSPACE buckets of which the queue uses `nbuckets` from `firstsub` on, and the cursor fields.

 Put, Deq, Resize and NewWidth call each other as the C functions do.  Their `decreases` clauses
 form one measure: an operation that will resize (7), the resize (6), its search for a width (5
 and 4), the sampling and copying loops (3), an operation that will not resize (2), and a resize
 while resizing is disabled (1).
 */
module CalendarQueue {
  import opened Arithmetic
  import opened Common
  import opened Calendar
  import opened CalendarShape
  import opened CalendarOps
  import opened CalendarRuns
  import opened CalendarResizing

  const LLONG_MAX := 9223372036854775807.0

  lemma {:induction false} CopyDownGrows(c: Cal, bs: seq<Bucket>, i: nat, k: nat)
    requires c.cwidth > 0.0 && c.Nbuckets() > 0 && i <= k <= |bs|
    ensures CopyDownTo(c, bs, i).qsize >= CopyDownTo(c, bs, k).qsize
    decreases k - i
  {
    if i < k {
      CopyDownGrows(c, bs, i + 1, k);
    }
  }

  lemma {:induction false} InsertAt(b: Bucket, t: nat, x: Node)
    requires t <= |b|
    requires forall j :: 0 <= j < t ==> b[j].priority <= x.priority
    requires t < |b| ==> b[t].priority > x.priority
    ensures Insert(b, x) == b[..t] + [x] + b[t..]
  {
    if t > 0 {
      InsertAt(b[1..], t - 1, x);
      assert b[1..][..t - 1] == b[..t][1..];
    }
  }

  /** The bucket examined in step k of the sweep. */
  function StepPlace(c: Cal, k: nat): int
    requires c.Nbuckets() > 0
  {
    (c.lastbucket + k) % c.Nbuckets()
  }

  lemma FirstStep(c: Cal)
    requires 0 <= c.lastbucket < c.Nbuckets()
    ensures StepPlace(c, 0) == c.lastbucket
    ensures StepTop(c.buckettop, 0, c.cwidth) == c.buckettop
  {
    RingReturns(c.lastbucket, 0, c.Nbuckets());
  }

  lemma NextStep(c: Cal, k: nat)
    requires 0 <= c.lastbucket < c.Nbuckets() && k < c.Nbuckets() && !Hit(c, k)
    ensures 0 <= StepPlace(c, k) < c.Nbuckets()
    ensures StepPlace(c, k + 1) == if StepPlace(c, k) + 1 == c.Nbuckets() then 0 else StepPlace(c, k) + 1
    ensures StepPlace(c, k + 1) == c.lastbucket <==> k + 1 == c.Nbuckets()
    ensures StepTop(c.buckettop, k + 1, c.cwidth) == StepTop(c.buckettop, k, c.cwidth) + c.cwidth
    ensures Sweep(c, k) == Sweep(c, k + 1)
  {
    RingReturns(c.lastbucket, k, c.Nbuckets());
    RingReturns(c.lastbucket, k + 1, c.Nbuckets());
    assert (k + 1) as real == k as real + 1.0;
    assert (k as real + 1.0) * c.cwidth == k as real * c.cwidth + c.cwidth;
  }

  lemma SweepStops(c: Cal, k: nat)
    requires k < c.Nbuckets() && Sweep(c, 0) == Sweep(c, k) && Hit(c, k)
    ensures Sweep(c, 0) == k && NextBucket(c) == (c.lastbucket + k) % c.Nbuckets()
  {
  }

  lemma SweepFails(c: Cal, k: nat)
    requires 0 < c.Nbuckets() == k && Sweep(c, 0) == Sweep(c, k)
    ensures Sweep(c, 0) == k && NextBucket(c) == Direct(c.buckets, 0, -1)
  {
  }

  lemma KeptGapsStep(s: seq<Node>, i: nat, bound: real)
    requires 1 <= i < |s|
    ensures var gap := s[i].priority - s[i - 1].priority; var (sum, j) := KeptGaps(s[..i], bound);
      KeptGaps(s[..i + 1], bound) == if gap < bound then (sum + gap, j + 1) else (sum, j)
  {
    assert s[..i + 1][..i] == s[..i];
  }

  lemma WidthIs(s: seq<Node>, average: real, sum: real, j: nat)
    requires |s| >= 2 && average == AverageGap(s) && KeptGaps(s, average * 2.0) == (sum, j)
    ensures Width(s) == if j == 0 then None else Some(sum / j as real * 3.0)
  {
  }

  lemma NewWidthIs(c: Cal, n: nat)
    requires Shape(c) && c.qsize >= 2 && n == SampleSize(c.qsize)
    ensures 2 <= n <= c.qsize && Shape(Disabled(c))
    ensures var r := Sample(Disabled(c), n); NewWidth(c) == (Restored(c, Reinsert(r.0, r.1)), Width(r.1))
  {
  }

  /** What the copy loop of a resize starts from, and ends with. */
  lemma ReadyToCopy(c: Cal, newsize: nat)
    requires Shape(c) && c.resizeEnabled && Positive(NewWidth(c).1)
    requires IsPow2(newsize) && 2 <= newsize <= MAXNBUCKETS
    ensures var (c1, w) := NewWidth(c);
      var d := LocalInit(true, OtherEnd(c1.firstsub, newsize), newsize, w.value, c1.lastprio);
      && Shape(c1) && c1.resizeEnabled && NonNegative(c1.buckets)
      && Shape(d) && d.resizeEnabled && d.topThreshold == 2 * newsize && d.Nbuckets() == newsize
      && Resize(c, newsize) == Ok(CopyAll(d, c1.buckets))
      && Shape(CopyAll(d, c1.buckets)) && CopyAll(d, c1.buckets).qsize == c.qsize
  {
    hide Reinsert, Home, VirtualBucket, Items, Placed, CopyAll;
    NewWidthShape(c);
    var (c1, w) := NewWidth(c);
    hide NewWidth;
    LocalInitShape(true, OtherEnd(c1.firstsub, newsize), newsize, w.value, c1.lastprio);
    ResizeShape(c, newsize);
    StoredNonNegativeAll(c1);
  }

  /** The array outside the region of a queue holds the buckets of an older region. */
  ghost predicate Holds(o: (int, int, seq<Bucket>, seq<Bucket>), at: int, bs: seq<Bucket>) {
    if at + |bs| <= o.0 then 0 <= at && |o.2| == o.0 && o.2[at..at + |bs|] == bs
    else
      var from := at - (o.0 + o.1);
      0 <= from && from + |bs| <= |o.3| && o.3[from..from + |bs|] == bs
  }

  class CalQueue {
    const calq: array<Bucket>
    var firstsub: int
    var nbuckets: int
    var qsize: int
    var lastbucket: int
    var resizeEnabled: bool
    var topThreshold: int
    var botThreshold: int
    var lastprio: real
    var buckettop: real
    var cwidth: real

    ghost predicate Bounded()
      reads this`firstsub, this`nbuckets
    {
      calq.Length == CALQSPACE && 0 <= firstsub && 0 < nbuckets && firstsub + nbuckets <= CALQSPACE
    }

    /** The queue as a value. */
    ghost function Abs(): (c: Cal)
      requires Bounded()
      reads this, calq
      ensures c.Nbuckets() == nbuckets
    {
      Cal(firstsub, cwidth, calq[firstsub..firstsub + nbuckets], qsize,
          lastprio, lastbucket, buckettop, botThreshold, topThreshold, resizeEnabled)
    }

    lemma AbsAt(i: int)
      requires Bounded() && 0 <= i < nbuckets
      ensures Abs().buckets[i] == calq[firstsub + i]
    {
    }

    /** Well formed, also in the middle of a resize. */
    ghost predicate Good()
      reads this, calq
    {
      Bounded() && Shape(Abs())
    }

    /** What holds between operations. */
    ghost predicate Valid()
      reads this, calq
    {
      Bounded() && Settled(Abs())
    }

    constructor ()
      ensures Valid() && fresh(calq)
      ensures Abs() == Init()
    {
      calq := new Bucket[CALQSPACE];
      new;
      resizeEnabled := true;
      this.LocalInit(0, 2, 1.0, 0.0);
      resizeEnabled := true;
      InitSettled();
    }

    method ClearBuckets()
      requires Bounded()
      modifies calq
      ensures Abs() == old(Abs()).(buckets := seq(nbuckets, _ => []))
      ensures Outside() == old(Outside())
    {
      var i := 0;
      while i < nbuckets
        invariant 0 <= i <= nbuckets
        invariant forall j :: firstsub <= j < firstsub + i ==> calq[j] == []
        invariant Outside() == old(Outside())
      {
        calq[firstsub + i] := [];
        i := i + 1;
      }
      assert Abs().buckets == seq(nbuckets, _ => []);
    }

    /** Set up the initial position and the thresholds. */
    method SetupCursor(startprio: real)
      requires Bounded() && cwidth > 0.0
      modifies this`lastprio, this`lastbucket, this`buckettop, this`botThreshold, this`topThreshold
      ensures var n := VirtualBucket(startprio, cwidth);
        Abs() == old(Abs()).(lastprio := startprio, lastbucket := n % nbuckets, buckettop := StartTop(n, cwidth),
                             botThreshold := nbuckets / 2 - 2, topThreshold := 2 * nbuckets)
    {
      hide VirtualBucket, StartTop;
      lastprio := startprio;
      var n := VirtualBucket(startprio, cwidth);
      lastbucket := n % nbuckets;
      buckettop := StartTop(n, cwidth);
      botThreshold := nbuckets / 2 - 2;
      topThreshold := 2 * nbuckets;
    }

    method LocalInit(qbase: int, nbucks: nat, bwidth: real, startprio: real)
      requires calq.Length == CALQSPACE && 0 <= qbase && 0 < nbucks && qbase + nbucks <= CALQSPACE
      requires bwidth > 0.0
      modifies this, calq
      ensures Bounded() && Abs() == Calendar.LocalInit(old(resizeEnabled), qbase, nbucks, bwidth, startprio)
      ensures Outside() == (qbase, nbucks, old(calq[..qbase]), old(calq[qbase + nbucks..]))
    {
      hide VirtualBucket, StartTop;
      firstsub := qbase;
      cwidth := bwidth;
      nbuckets := nbucks;
      qsize := 0;
      ClearBuckets();
      SetupCursor(startprio);
    }

    /** `calendar[i] = b` */
    method SetBucket(i: nat, b: Bucket)
      requires Bounded() && i < nbuckets
      modifies calq
      ensures Bounded() && Abs() == old(Abs()).(buckets := old(Abs()).buckets[i := b])
      ensures Outside() == old(Outside())
    {
      ghost var c := Abs();
      calq[firstsub + i] := b;
      assert Abs().buckets == c.buckets[i := b];
    }

    /** The region in use and what the array holds outside of it. */
    ghost function Outside(): (int, int, seq<Bucket>, seq<Bucket>)
      requires Bounded()
      reads this`firstsub, this`nbuckets, calq
    {
      (firstsub, nbuckets, calq[..firstsub], calq[firstsub + nbuckets..])
    }

    /** The traversal of one bucket that places a new node. */
    static method InsertInto(list: Bucket, newNode: Node) returns (r: Bucket)
      ensures r == Insert(list, newNode)
    {
      if list == [] || list[0].priority > newNode.priority {
        return [newNode] + list;
      }
      var traverse := 0;
      while traverse + 1 < |list| && list[traverse + 1].priority <= newNode.priority
        invariant 0 <= traverse < |list|
        invariant forall j :: 0 <= j <= traverse ==> list[j].priority <= newNode.priority
      {
        traverse := traverse + 1;
      }
      InsertAt(list, traverse + 1, newNode);
      r := list[..traverse + 1] + [newNode] + list[traverse + 1..];
    }

    lemma OldBucket(o: (int, int, seq<Bucket>, seq<Bucket>), at: int, bs: seq<Bucket>, i: nat)
      requires Bounded() && Outside() == o && Holds(o, at, bs) && i < |bs|
      ensures 0 <= at + i < CALQSPACE && calq[at + i] == bs[i]
    {
      if at + |bs| <= o.0 {
        assert bs[i] == o.2[at + i];
      } else {
        assert bs[i] == o.3[at - (o.0 + o.1) + i];
      }
    }

    /** The part of calqueue_put before the resize test. */
    method Link(newNode: Node)
      requires Bounded() && cwidth > 0.0
      modifies calq, this`qsize
      ensures Bounded() && Abs() == PutRaw(old(Abs()), newNode)
      ensures Outside() == old(Outside())
    {
      ghost var c := Abs();
      var i := VirtualBucket(newNode.priority, cwidth);
      i := i % nbuckets;
      AbsAt(i);
      var list := InsertInto(calq[firstsub + i], newNode);
      SetBucket(i, list);
      qsize := qsize + 1;
    }

    method Put(priority: real, payload: Payload) returns (ok: bool)
      requires Good() && priority >= 0.0
      requires resizeEnabled ==> !TooFull(Abs())
      modifies this, calq
      ensures CalendarOps.Put(old(Abs()), Node(priority, payload)).Ok? <==> ok
      ensures ok ==> Good() && Abs() == CalendarOps.Put(old(Abs()), Node(priority, payload)).value
      ensures !old(resizeEnabled && qsize + 1 > topThreshold && nbuckets < MAXNBUCKETS) ==>
        ok && Abs() == PutRaw(old(Abs()), Node(priority, payload)) && Outside() == old(Outside())
      decreases if resizeEnabled && qsize + 1 > topThreshold && nbuckets < MAXNBUCKETS then 7 else 2
    {
      hide Home, VirtualBucket;
      ghost var c := Abs();
      var newNode := Node(priority, payload);
      PutShape(c, newNode);
      Link(newNode);
      if qsize > topThreshold && nbuckets < MAXNBUCKETS {
        HalveDouble(Abs());
        ok := this.Resize(2 * nbuckets);
      } else {
        ok := true;
      }
    }

    /** The sweep over the buckets, at most once around. */
    method SweepBuckets() returns (i: int, found: bool)
      requires Bounded() && cwidth > 0.0 && 0 <= lastbucket < nbuckets
      modifies this`buckettop
      ensures found <==> Sweep(old(Abs()), 0) < nbuckets
      ensures found ==> i == NextBucket(old(Abs()))
      ensures !found ==> NextBucket(old(Abs())) == Direct(old(Abs()).buckets, 0, -1)
      ensures Abs() == old(Abs()).(buckettop := StepTop(old(buckettop), Sweep(old(Abs()), 0), cwidth))
    {
      hide StepTop, Sweep, NextBucket, Direct;
      ghost var c := Abs();
      i := lastbucket;
      ghost var k := 0;
      FirstStep(c);
      while true
        invariant 0 <= k < nbuckets && 0 <= i < nbuckets && StepPlace(c, k) == i
        invariant buckettop == StepTop(c.buckettop, k, cwidth)
        invariant Sweep(c, 0) == Sweep(c, k)
        decreases nbuckets - k
      {
        AbsAt(i);
        if calq[firstsub + i] != [] && calq[firstsub + i][0].priority < buckettop {
          SweepStops(c, k);
          return i, true;
        }
        NextStep(c, k);
        i := i + 1;
        if i == nbuckets {
          i := 0;
        }
        buckettop := buckettop + cwidth;
        k := k + 1;
        if i == lastbucket {
          break;
        }
      }
      SweepFails(c, k);
      found := false;
    }

    /** The sweep over the buckets and the direct search: the bucket of the next node. */
    method FindBucket() returns (i: int)
      requires Bounded() && cwidth > 0.0 && 0 <= lastbucket < nbuckets && NextBucket(Abs()) != -1
      modifies this`buckettop
      ensures i == NextBucket(old(Abs()))
      ensures Abs() == old(Abs()).(buckettop := StepTop(old(buckettop), Sweep(old(Abs()), 0), cwidth))
    {
      hide StepTop, Sweep, NextBucket, Direct;
      var found;
      i, found := SweepBuckets();
      if !found {
        i := DirectSearch();
      }
    }

    method DirectSearch() returns (temp2: int)
      requires Bounded()
      ensures temp2 == Direct(Abs().buckets, 0, -1)
    {
      ghost var c := Abs();
      temp2 := -1;
      var lowest := LLONG_MAX;
      var i := 0;
      while i < nbuckets
        invariant 0 <= i <= nbuckets
        invariant -1 <= temp2 < nbuckets && c == Abs()
        invariant temp2 != -1 ==> c.buckets[temp2] != [] && lowest == c.buckets[temp2][0].priority
        invariant Direct(c.buckets, 0, -1) == Direct(c.buckets, i, temp2)
      {
        AbsAt(i);
        if calq[firstsub + i] != [] && (temp2 == -1 || calq[firstsub + i][0].priority < lowest) {
          temp2 := i;
          lowest := calq[firstsub + i][0].priority;
        }
        i := i + 1;
      }
    }

    /** Take the head of bucket i off and move the cursor there. */
    method Detach(i: int) returns (e: Node)
      requires Bounded() && 0 <= i < nbuckets && Abs().buckets[i] != []
      modifies calq, this`lastbucket, this`lastprio, this`qsize
      ensures Bounded() && (Abs(), e) == Take(old(Abs()), i, old(buckettop))
      ensures Outside() == old(Outside())
    {
      ghost var c := Abs();
      AbsAt(i);
      var list := calq[firstsub + i];
      e := list[0];
      lastbucket := i;
      lastprio := e.priority;
      qsize := qsize - 1;
      assert Abs() == c.(lastbucket := i, lastprio := e.priority, qsize := c.qsize - 1);
      SetBucket(i, list[1..]);
    }

    /** The part of calqueue_deq before the resize test. */
    method Unlink() returns (e: Node)
      requires Bounded() && cwidth > 0.0 && 0 <= lastbucket < nbuckets && NextBucket(Abs()) != -1
      modifies calq, this`buckettop, this`lastbucket, this`lastprio, this`qsize
      ensures Bounded() && (Abs(), e) == DeqRaw(old(Abs()))
      ensures Outside() == old(Outside())
    {
      hide StepTop, Sweep, NextBucket, Direct;
      ghost var c := Abs();
      var i := FindBucket();
      assert Abs().buckets == c.buckets && buckettop == StepTop(c.buckettop, Sweep(c, 0), c.cwidth);
      e := Detach(i);
    }

    /** Remove the next node; `ok` is false when a resize finds no usable width. */
    method Deq() returns (ok: bool, e: Option<Node>)
      requires Good()
      modifies this, calq
      ensures CalendarOps.Deq(old(Abs())).Ok? <==> ok
      ensures ok ==> Good() && CalendarOps.Deq(old(Abs())).value == (Abs(), e)
      ensures !old(resizeEnabled && qsize - 1 < botThreshold) && old(qsize) > 0 ==>
        ok && e.Some? && (Abs(), e.value) == DeqRaw(old(Abs())) && Outside() == old(Outside())
      decreases if resizeEnabled && qsize - 1 < botThreshold then 7 else 2
    {
      hide Home, VirtualBucket;
      if qsize == 0 {
        return true, None;
      }
      DeqShape(Abs());
      var node := Unlink();
      e := Some(node);
      if qsize < botThreshold {
        HalveDouble(Abs());
        ok := this.Resize(nbuckets / 2);
      } else {
        ok := true;
      }
    }

    /** The first loop of new_width. */
    method TakeSample(nsamples: nat) returns (temp: seq<Node>, average: real)
      requires Good() && !resizeEnabled && nsamples <= qsize
      modifies this, calq
      ensures Bounded() && Sample(old(Abs()), nsamples) == (Abs(), temp)
      ensures average == GapSum(temp)
      ensures Outside() == old(Outside())
      decreases 3
    {
      hide DeqRaw, CalendarOps.Deq, Home, VirtualBucket, Items, Placed, IsPow2;
      ghost var c := Abs();
      temp := [];
      average := 0.0;
      var i := 0;
      while i < nsamples
        invariant 0 <= i <= nsamples
        invariant Bounded() && Sample(c, i) == (Abs(), temp)
        invariant average == GapSum(temp)
        invariant Outside() == old(Outside())
      {
        DeqShape(Abs());
        var ok, e := this.Deq();
        assert (temp + [e.value])[..i] == temp;
        temp := temp + [e.value];
        if i > 0 {
          average := average + (temp[i].priority - temp[i - 1].priority);
        }
        i := i + 1;
      }
    }

    /** The second loop of new_width. */
    method PutBack(temp: seq<Node>, bound: real) returns (newaverage: real, j: nat)
      requires Good() && !resizeEnabled && temp != [] && forall x :: x in temp ==> x.priority >= 0.0
      modifies this, calq
      ensures Bounded() && Abs() == Reinsert(old(Abs()), temp)
      ensures KeptGaps(temp, bound) == (newaverage, j)
      ensures Outside() == old(Outside())
      decreases 3
    {
      hide PutRaw, CalendarOps.Put, Home, VirtualBucket, Items, Placed, IsPow2;
      ghost var c := Abs();
      newaverage, j := 0.0, 0;
      var ok := this.Put(temp[0].priority, temp[0].payload);
      var i := 1;
      while i < |temp|
        invariant 1 <= i <= |temp|
        invariant Bounded() && Abs() == ReinsertUpTo(c, temp, i)
        invariant KeptGaps(temp[..i], bound) == (newaverage, j)
        invariant Outside() == old(Outside())
      {
        KeptGapsStep(temp, i, bound);
        if temp[i].priority - temp[i - 1].priority < bound {
          newaverage := newaverage + (temp[i].priority - temp[i - 1].priority);
          j := j + 1;
        }
        ReinsertUpToShape(c, temp, i);
        ok := this.Put(temp[i].priority, temp[i].payload);
        i := i + 1;
      }
      assert temp[..i] == temp;
    }

    /** Take a sample off the queue, put it back, and derive a bucket width from its gaps. */
    method SampleWidth(nsamples: nat) returns (w: Option<real>)
      requires Good() && !resizeEnabled && 2 <= nsamples <= qsize
      modifies this, calq
      ensures Bounded() && Abs() == Reinsert(Sample(old(Abs()), nsamples).0, Sample(old(Abs()), nsamples).1)
      ensures w == Width(Sample(old(Abs()), nsamples).1)
      ensures Outside() == old(Outside())
      decreases 4
    {
      hide Width, Home, VirtualBucket, Reinsert, Sample, Shape;
      SampleNonNegative(Abs(), nsamples);
      var temp, average := TakeSample(nsamples);
      average := average / (nsamples - 1) as real;
      assert average == AverageGap(temp);
      hide AverageGap, GapSum, KeptGaps;
      var newaverage, j := PutBack(temp, average * 2.0);
      w := if j == 0 then None else Some(newaverage / j as real * 3.0);
      WidthIs(temp, average, newaverage, j);
    }

    /** new_width's restoring of the original conditions. */
    method RestoreCursor(bucket: int, prio: real, top: real)
      requires Bounded()
      modifies this`lastbucket, this`lastprio, this`buckettop, this`resizeEnabled
      ensures Abs() == old(Abs()).(lastbucket := bucket, lastprio := prio, buckettop := top, resizeEnabled := true)
      ensures Outside() == old(Outside())
    {
      lastbucket := bucket;
      lastprio := prio;
      buckettop := top;
      resizeEnabled := true;
    }

    /** The sampled width; contents, cursor and thresholds are afterwards as before. */
    method NewWidth() returns (w: Option<real>)
      requires Good() && resizeEnabled
      modifies this, calq
      ensures Good() && Abs() == CalendarOps.NewWidth(old(Abs())).0 && w == CalendarOps.NewWidth(old(Abs())).1
      ensures Outside() == old(Outside())
      decreases 5
    {
      hide Width, Home, VirtualBucket, Reinsert, Sample, Shape, Settled;
      if qsize < 2 {
        return Some(1.0);
      }
      var nsamples := if qsize <= 5 then qsize else 5 + qsize / 10;
      if nsamples > 25 {
        nsamples := 25;
      }
      ghost var c := Abs();
      NewWidthShape(c);
      NewWidthIs(c, nsamples);
      var templastbucket, templastprio, tempbuckettop := lastbucket, lastprio, buckettop;
      resizeEnabled := false;
      assert Abs() == Disabled(c);
      w := SampleWidth(nsamples);
      ghost var r := Abs();
      RestoreCursor(templastbucket, templastprio, tempbuckettop);
      assert Abs() == Restored(c, r);
    }

    /** Copy one bucket of the old calendar; none of these puts resizes again. */
    method CopyBucket(temp: Bucket)
      requires Good() && resizeEnabled && forall x :: x in temp ==> x.priority >= 0.0
      requires qsize + |temp| <= topThreshold || nbuckets == MAXNBUCKETS
      modifies this, calq
      ensures Bounded() && Abs() == Reinsert(old(Abs()), temp)
      ensures Outside() == old(Outside())
      decreases 3
    {
      hide PutRaw, CalendarOps.Put, Home, VirtualBucket, Items, Placed, IsPow2;
      ghost var c := Abs();
      var t := 0;
      while t < |temp|
        invariant 0 <= t <= |temp|
        invariant Bounded() && Abs() == ReinsertUpTo(c, temp, t)
        invariant Outside() == old(Outside())
      {
        ReinsertUpToShape(c, temp, t);
        var done := this.Put(temp[t].priority, temp[t].payload);
        t := t + 1;
      }
    }

    /** Copy the buckets of the old calendar, last bucket first. */
    method CopyBuckets(oldcalendar: int, oldnbuckets: nat, ghost bs: seq<Bucket>)
      requires Good() && resizeEnabled && NonNegative(bs)
      requires oldnbuckets == |bs| && Holds(Outside(), oldcalendar, bs)
      requires CopyAll(Abs(), bs).qsize <= topThreshold || nbuckets == MAXNBUCKETS
      modifies this, calq
      ensures Bounded() && Abs() == CopyAll(old(Abs()), bs)
      decreases 4
    {
      hide Reinsert, Home, VirtualBucket;
      ghost var c := Abs();
      ghost var outside := Outside();
      var i := oldnbuckets;
      while i > 0
        invariant 0 <= i <= oldnbuckets
        invariant Bounded() && Abs() == CopyDownTo(c, bs, i)
        invariant Outside() == outside
      {
        i := i - 1;
        OldBucket(outside, oldcalendar, bs, i);
        CopyDownToShape(c, bs, i + 1);
        CopyDownGrows(c, bs, 0, i);
        CopyBucket(calq[oldcalendar + i]);
      }
    }

    /** Initialise `newsize` buckets at the other end of the array, away from the old ones. */
    method Relocate(newsize: nat, bwidth: real)
      requires Good() && 2 <= newsize <= MAXNBUCKETS && bwidth > 0.0
      modifies this, calq
      ensures Bounded() && Abs() ==
        Calendar.LocalInit(old(resizeEnabled), OtherEnd(old(firstsub), newsize), newsize, bwidth, old(lastprio))
      ensures Holds(Outside(), old(firstsub), old(Abs()).buckets)
    {
      hide Home, VirtualBucket, Items, Placed, IsPow2, StartTop, Calendar.LocalInit;
      ghost var c := Abs();
      TwoEndedStorage(c, newsize);
      LocalInit(if firstsub == 0 then CALQSPACE - newsize else 0, newsize, bwidth, lastprio);
    }

    /** Copy the nodes to `newsize` buckets at the other end of the array, unless resizing is
        disabled; `ok` is false when the sampled width is unusable. */
    method Resize(newsize: nat) returns (ok: bool)
      requires IsPow2(newsize) && 2 <= newsize <= MAXNBUCKETS
      requires Good()
      requires resizeEnabled ==> qsize <= 2 * newsize || newsize == MAXNBUCKETS
      modifies this, calq
      ensures CalendarOps.Resize(old(Abs()), newsize).Ok? <==> ok
      ensures ok ==> Good() && Abs() == CalendarOps.Resize(old(Abs()), newsize).value
      ensures !old(resizeEnabled) ==> ok && Outside() == old(Outside())
      decreases if resizeEnabled then 6 else 1
    {
      hide Reinsert, Home, VirtualBucket, CalendarOps.NewWidth, Items, Placed, IsPow2, CopyAll, Calendar.LocalInit,
        Holds, NonNegative;
      if !resizeEnabled {
        return true;
      }
      ghost var c := Abs();
      NewWidthShape(c);
      var bwidth := this.NewWidth();
      if bwidth.None? || bwidth.value <= 0.0 {
        return false;
      }
      ghost var c1 := Abs();
      var oldcalendar, oldnbuckets := firstsub, nbuckets;
      Relocate(newsize, bwidth.value);
      ReadyToCopy(c, newsize);
      CopyBuckets(oldcalendar, oldnbuckets, c1.buckets);
      return true;
    }

    method Get() returns (ok: bool, payload: Option<Payload>)
      requires Valid()
      modifies this, calq
      ensures CalendarOps.Deq(old(Abs())).Ok? <==> ok
      ensures ok ==> Valid() && Abs() == CalendarOps.Deq(old(Abs())).value.0
      ensures ok ==> match CalendarOps.Deq(old(Abs())).value.1
        case Some(node) => payload == Some(node.payload)
        case None => payload == None
    {
      ghost var c := Abs();
      var node;
      ok, node := this.Deq();
      payload := if node.Some? then Some(node.value.payload) else None;
      if ok {
        DeqSettled(c);
      }
    }

    method Empty() returns (b: bool)
      requires Valid()
      ensures b <==> Items(Abs().buckets) == multiset{}
    {
      EmptyQueue(Abs());
      b := qsize == 0;
    }
  }
}
