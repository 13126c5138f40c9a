/**
 When a removal returns a node of smallest priority.

 Let n be the virtual bucket of `lastprio` and w the width.  Freshly initialised, the cursor
 satisfies buckettop / w == n + 1.5; a direct search moves `lastprio` without setting
 `buckettop` afresh.  The integer `lag` measures the difference: buckettop / w == n + 1.5 - lag.
 Up to lag 0 the sweep accepts whole virtual buckets, from lag 2 on it accepts nothing and the
 direct search decides; at lag 1, and again at lag 1 - nbuckets, it accepts only the lower halves
 of one round of virtual buckets and can pass over the smallest node.
 */
module CalendarOrder {
  import opened Arithmetic
  import opened Calendar
  import opened CalendarShape
  import opened CalendarOps

  // ---------- positions measured in buckets ----------

  function Scale(p: real, w: real): real
    requires w > 0.0
  {
    p / w
  }

  lemma ScaleMonotone(p: real, q: real, w: real)
    requires w > 0.0
    ensures p < q <==> Scale(p, w) < Scale(q, w)
  {
    var a, b := Scale(p, w), Scale(q, w);
    assert a * w == p && b * w == q;
    if a < b {
      assert (b - a) * w > 0.0;
    } else {
      assert (a - b) * w >= 0.0;
    }
  }

  lemma ScaleStep(top: real, k: nat, w: real)
    requires w > 0.0
    ensures Scale(StepTop(top, k, w), w) == Scale(top, w) + k as real
  {
    var a := Scale(top, w);
    assert a * w == top;
    assert (a + k as real) * w == top + k as real * w;
  }

  lemma ScaleStart(n: int, w: real)
    requires w > 0.0
    ensures Scale(StartTop(n, w), w) == n as real + 1.5
  {
    var a := n as real;
    assert (n + 1) as real == a + 1.0;
    assert (a + 1.5) * w == (a + 1.0) * w + 0.5 * w;
    Quotient(StartTop(n, w), a + 1.5, w);
  }

  function At(x: Node, w: real): int
    requires w > 0.0
  {
    VirtualBucket(x.priority, w)
  }

  lemma AtBounds(x: Node, w: real)
    requires w > 0.0
    ensures At(x, w) as real <= Scale(x.priority, w) < At(x, w) as real + 1.0
  {
  }

  lemma AtMonotone(x: Node, y: Node, w: real)
    requires w > 0.0 && x.priority <= y.priority
    ensures At(x, w) <= At(y, w)
  {
    ScaleMonotone(y.priority, x.priority, w);
    AtBounds(x, w);
    AtBounds(y, w);
  }

  predicate LowerHalf(x: Node, w: real)
    requires w > 0.0
  {
    Scale(x.priority, w) < At(x, w) as real + 0.5
  }

  // ---------- states the order argument applies to ----------

  /** The virtual bucket of the last dequeued priority. */
  function Here(c: Cal): int
    requires c.cwidth > 0.0
  {
    VirtualBucket(c.lastprio, c.cwidth)
  }

  ghost predicate LagIs(c: Cal, lag: int)
    requires c.cwidth > 0.0
  {
    Scale(c.buckettop, c.cwidth) == Here(c) as real + 1.5 - lag as real
  }

  /** Nothing is stored before the virtual bucket of the last priority, and the cursor is in step. */
  ghost predicate Ready(c: Cal, lag: int) {
    && Shape(c)
    && c.lastbucket == Here(c) % c.Nbuckets()
    && LagIs(c, lag) && lag >= 1 - c.Nbuckets()
    && forall x :: x in Items(c.buckets) ==> At(x, c.cwidth) >= Here(c)
  }

  ghost predicate IsMin(s: multiset<Node>, e: Node) {
    e in s && forall x :: x in s ==> e.priority <= x.priority
  }

  /** A node x that the sweep may accept before the smallest node m: at lag 1 or 1 - nbuckets, one in
      the lower half of the single round of virtual buckets starting at Here + 1 - lag. */
  ghost predicate Overtakes(c: Cal, lag: int, m: Node, x: Node)
    requires c.cwidth > 0.0
  {
    var first := Here(c) + 1 - lag;
    && LowerHalf(x, c.cwidth)
    && first <= At(x, c.cwidth) < first + c.Nbuckets()
    && (if At(m, c.cwidth) >= first then !LowerHalf(m, c.cwidth) else At(x, c.cwidth) < At(m, c.cwidth) + c.Nbuckets())
  }

  ghost predicate MissesAt(c: Cal, lag: int)
    requires c.cwidth > 0.0
  {
    && LagIs(c, lag)
    && (lag == 1 || lag == 1 - c.Nbuckets())
    && exists m, x ::
      m in Items(c.buckets) && x in Items(c.buckets) && IsMin(Items(c.buckets), m) && Overtakes(c, lag, m, x)
  }

  /** The states in which the next removal passes over the smallest node. */
  ghost predicate Misses(c: Cal)
    requires c.cwidth > 0.0
  {
    exists lag :: MissesAt(c, lag)
  }

  // ---------- what the sweep accepts ----------

  /** Whether the sweep, in step k, accepts a bucket whose head is in virtual bucket v. */
  predicate AcceptsAt(c: Cal, lag: int, k: nat, x: Node)
    requires c.cwidth > 0.0
  {
    var v := At(x, c.cwidth);
    || (v == Here(c) + k && (lag <= 0 || (lag == 1 && LowerHalf(x, c.cwidth))))
    || (v == Here(c) + k + c.Nbuckets() && lag == 1 - c.Nbuckets() && LowerHalf(x, c.cwidth))
  }

  function BucketAt(c: Cal, k: nat): Bucket
    requires c.Nbuckets() > 0
  {
    c.buckets[(c.lastbucket + k) % c.Nbuckets()]
  }

  /** The head of the bucket of step k is in virtual bucket Here + k, or one or more rounds later. */
  lemma HeadPosition(c: Cal, lag: int, k: nat, x: Node)
    requires Ready(c, lag) && k < c.Nbuckets() && x in BucketAt(c, k)
    ensures x in Items(c.buckets)
    ensures var v, n, nb := At(x, c.cwidth), Here(c), c.Nbuckets();
      v == n + k || v == n + k + nb || v >= n + k + 2 * nb
  {
    ItemsMember(c.buckets, x);
    var i := (c.lastbucket + k) % c.Nbuckets();
    PlacedBucket(c, i);
    ModGap(At(x, c.cwidth), Here(c), k, c.Nbuckets());
  }

  lemma HitMeans(c: Cal, lag: int, k: nat)
    requires Ready(c, lag) && k < c.Nbuckets()
    ensures Hit(c, k) <==> BucketAt(c, k) != [] && AcceptsAt(c, lag, k, BucketAt(c, k)[0])
  {
    var b := BucketAt(c, k);
    if b != [] {
      var x := b[0];
      HeadPosition(c, lag, k, x);
      AtBounds(x, c.cwidth);
      ScaleStep(c.buckettop, k, c.cwidth);
      ScaleMonotone(x.priority, StepTop(c.buckettop, k, c.cwidth), c.cwidth);
    }
  }

  /** A stored node in virtual bucket Here + j, or one round later, sits in the bucket of step j. */
  lemma StepOf(c: Cal, lag: int, x: Node, j: nat)
    requires Ready(c, lag) && x in Items(c.buckets) && j < c.Nbuckets()
    requires At(x, c.cwidth) == Here(c) + j || At(x, c.cwidth) == Here(c) + j + c.Nbuckets()
    ensures x in BucketAt(c, j) && BucketAt(c, j)[0].priority <= x.priority
    ensures At(BucketAt(c, j)[0], c.cwidth) <= At(x, c.cwidth)
  {
    ItemsMember(c.buckets, x);
    var i :| 0 <= i < c.Nbuckets() && x in c.buckets[i];
    PlacedBucket(c, i);
    assert i == At(x, c.cwidth) % c.Nbuckets();
    SameStep(Here(c), j, c.Nbuckets());
    AtMonotone(BucketAt(c, j)[0], x, c.cwidth);
  }

  // ---------- which node is removed ----------

  /** The head found by a direct search is a smallest node of the whole queue. */
  lemma DirectIsMin(c: Cal)
    requires Shape(c) && c.qsize > 0
    ensures var i := Direct(c.buckets, 0, -1);
      i != -1 && IsMin(Items(c.buckets), c.buckets[i][0])
  {
    DirectFinds(c.buckets, 0, -1);
    var i := Direct(c.buckets, 0, -1);
    if i == -1 {
      ItemsEmpty(c.buckets);
    }
    ItemsMember(c.buckets, c.buckets[i][0]);
    forall x | x in Items(c.buckets) ensures c.buckets[i][0].priority <= x.priority {
      ItemsMember(c.buckets, x);
      var j :| 0 <= j < c.Nbuckets() && x in c.buckets[j];
      PlacedBucket(c, j);
    }
  }

  /** Every node the sweep could accept makes it stop no later than at that node's step. */
  lemma StopsBy(c: Cal, lag: int, x: Node, j: nat)
    requires Ready(c, lag) && x in Items(c.buckets) && j < c.Nbuckets()
    requires AcceptsAt(c, lag, j, x)
    ensures Sweep(c, 0) <= j
  {
    SweepFirst(c, 0);
    StepOf(c, lag, x, j);
    var h := BucketAt(c, j)[0];
    HeadPosition(c, lag, j, h);
    ScaleMonotone(x.priority, h.priority, c.cwidth);
    HitMeans(c, lag, j);
  }

  /** The node removed when the sweep stops at step k is acceptable there. */
  lemma Swept(c: Cal, lag: int)
    requires Ready(c, lag) && c.qsize > 0 && Sweep(c, 0) < c.Nbuckets()
    ensures NextBucket(c) != -1
    ensures DeqRaw(c).1 == BucketAt(c, Sweep(c, 0))[0]
    ensures AcceptsAt(c, lag, Sweep(c, 0), DeqRaw(c).1)
  {
    HitMeans(c, lag, Sweep(c, 0));
  }

  lemma SamePriority(x: Node, y: Node, w: real)
    requires w > 0.0 && x.priority == y.priority
    ensures At(x, w) == At(y, w) && (LowerHalf(x, w) <==> LowerHalf(y, w))
  {
  }

  lemma LagUnique(c: Cal, lag: int, lag': int)
    requires c.cwidth > 0.0 && LagIs(c, lag) && LagIs(c, lag')
    ensures lag == lag'
  {
  }

  lemma OvertakenIsNotMin(c: Cal, lag: int, m: Node, x: Node)
    requires Ready(c, lag) && c.qsize > 0 && (lag == 1 || lag == 1 - c.Nbuckets())
    requires IsMin(Items(c.buckets), m) && x in Items(c.buckets) && Overtakes(c, lag, m, x)
    ensures NextBucket(c) != -1
    ensures !IsMin(Items(c.buckets), DeqRaw(c).1)
  {
    var j := At(x, c.cwidth) - (Here(c) + 1 - lag);
    StopsBy(c, lag, x, j);
    Swept(c, lag);
    var e := DeqRaw(c).1;
    if IsMin(Items(c.buckets), e) {
      SamePriority(e, m, c.cwidth);
    }
  }

  /** Had the sweep reached an acceptable smallest node, it would have removed one. */
  lemma StopsBefore(c: Cal, lag: int, m: Node, j: nat)
    requires Ready(c, lag) && c.qsize > 0 && NextBucket(c) != -1
    requires IsMin(Items(c.buckets), m) && !IsMin(Items(c.buckets), DeqRaw(c).1)
    requires j < c.Nbuckets() && AcceptsAt(c, lag, j, m)
    ensures Sweep(c, 0) < j
  {
    StopsBy(c, lag, m, j);
    Swept(c, lag);
    if Sweep(c, 0) == j {
      StepOf(c, lag, m, j);
      var e := DeqRaw(c).1;
      ItemsMember(c.buckets, e);
    }
  }

  lemma NotMinIsOvertaken(c: Cal, lag: int)
    requires Ready(c, lag) && c.qsize > 0 && NextBucket(c) != -1
    requires !IsMin(Items(c.buckets), DeqRaw(c).1)
    ensures MissesAt(c, lag)
  {
    DirectIsMin(c);
    var m := c.buckets[Direct(c.buckets, 0, -1)][0];
    Swept(c, lag);
    var e := DeqRaw(c).1;
    ItemsMember(c.buckets, e);
    AtMonotone(m, e, c.cwidth);
    var late := At(m, c.cwidth) >= Here(c) + c.Nbuckets();
    var j := At(m, c.cwidth) - Here(c) - (if late then c.Nbuckets() else 0);
    if AcceptsAt(c, lag, j, m) {
      StopsBefore(c, lag, m, j);
    }
    assert lag == 1 || lag == 1 - c.Nbuckets();
    assert Overtakes(c, lag, m, e);
  }

  /** A removal returns a node of smallest priority if and only if the cursor is not in one of the
      two lags at which only half buckets are accepted and some node can overtake the smallest. */
  lemma RemovesMinimum(c: Cal, lag: int)
    requires Ready(c, lag) && c.qsize > 0
    ensures NextBucket(c) != -1
    ensures IsMin(Items(c.buckets), DeqRaw(c).1) <==> !Misses(c)
  {
    SomethingToTake(c);
    if Misses(c) {
      var lag' :| MissesAt(c, lag');
      LagUnique(c, lag, lag');
      var m, x :| m in Items(c.buckets) && x in Items(c.buckets) && IsMin(Items(c.buckets), m)
        && Overtakes(c, lag, m, x);
      OvertakenIsNotMin(c, lag, m, x);
    } else if !IsMin(Items(c.buckets), DeqRaw(c).1) {
      NotMinIsOvertaken(c, lag);
    }
  }

  // ---------- how the lag develops ----------

  /** The lag after the next removal. */
  ghost function NextLag(c: Cal, lag: int): int
    requires c.cwidth > 0.0 && c.Nbuckets() > 0 && NextBucket(c) != -1
  {
    At(DeqRaw(c).1, c.cwidth) - Here(c) + lag - Sweep(c, 0)
  }

  /** The lag never falls below 1 - nbuckets, and below 2 - nbuckets only from lag 1.  A sweep
      that stops within the first round leaves it as it is. */
  lemma LagBounds(c: Cal, lag: int)
    requires Ready(c, lag) && c.qsize > 0 && NextBucket(c) != -1
    ensures NextLag(c, lag) >= 1 - c.Nbuckets()
    ensures lag != 1 && lag >= 2 - c.Nbuckets() ==> NextLag(c, lag) >= 2 - c.Nbuckets()
    ensures Sweep(c, 0) < c.Nbuckets() && lag > 1 - c.Nbuckets() ==> NextLag(c, lag) == lag
  {
    var e := DeqRaw(c).1;
    ItemsMember(c.buckets, e);
    if Sweep(c, 0) < c.Nbuckets() {
      Swept(c, lag);
    } else if At(e, c.cwidth) < Here(c) + c.Nbuckets() && lag <= 0 {
      StopsBy(c, lag, e, At(e, c.cwidth) - Here(c));
    }
  }

  lemma NextLagIs(c: Cal, lag: int)
    requires Shape(c) && c.qsize > 0 && LagIs(c, lag) && NextBucket(c) != -1
    ensures LagIs(DeqRaw(c).0, NextLag(c, lag))
  {
    ScaleStep(c.buckettop, Sweep(c, 0), c.cwidth);
  }

  /** Removing a smallest node leaves a queue the order argument applies to. */
  lemma DeqReady(c: Cal, lag: int)
    requires Ready(c, lag) && c.qsize > 0 && NextBucket(c) != -1
    requires IsMin(Items(c.buckets), DeqRaw(c).1)
    ensures Ready(DeqRaw(c).0, NextLag(c, lag))
  {
    DeqShape(c);
    LagBounds(c, lag);
    NextLagIs(c, lag);
    var (r, e) := DeqRaw(c);
    PlacedBucket(c, NextBucket(c));
    forall x | x in Items(r.buckets) ensures At(x, r.cwidth) >= Here(r) {
      assert x in Items(c.buckets);
      AtMonotone(e, x, c.cwidth);
    }
  }

  // ---------- the invariant of ordered queues ----------

  /** No stored priority is before the last one dequeued. */
  ghost predicate Ahead(c: Cal) {
    forall x :: x in Items(c.buckets) ==> x.priority >= c.lastprio
  }

  ghost predicate Ordered(c: Cal) {
    Shape(c) && c.resizeEnabled && Ahead(c) && exists lag :: Ready(c, lag)
  }

  lemma AheadAt(c: Cal)
    requires Shape(c) && Ahead(c)
    ensures forall x :: x in Items(c.buckets) ==> At(x, c.cwidth) >= Here(c)
  {
    forall x | x in Items(c.buckets) ensures At(x, c.cwidth) >= Here(c) {
      AtMonotone(Node(c.lastprio, x.payload), x, c.cwidth);
    }
  }

  lemma StartIsReady(c: Cal)
    requires Shape(c) && Ahead(c) && AtStart(c)
    ensures Ready(c, 0)
  {
    AheadAt(c);
    ScaleStart(Here(c), c.cwidth);
  }

  lemma InitOrdered()
    ensures Ordered(Init()) && Items(Init().buckets) == multiset{}
  {
    assert IsPow2(2);
    LocalInitShape(true, 0, 2, 1.0, 0.0);
    StartIsReady(Init());
  }

  /** Inserting at or after the last dequeued priority keeps a queue ordered, through any resize
      with a positive width. */
  lemma PutOrdered(c: Cal, x: Node)
    requires Ordered(c) && x.priority >= c.lastprio && Put(c, x).Ok?
    ensures Ordered(Put(c, x).value)
  {
    var lag :| Ready(c, lag);
    PutShape(c, x);
    var c1 := PutRaw(c, x);
    AheadAt(c1);
    assert Ready(c1, lag);
    if TooFull(c1) {
      HalveDouble(c1);
      ResizeShape(c1, 2 * c1.Nbuckets());
      StartIsReady(Put(c, x).value);
    }
  }

  /** Removing keeps a queue ordered as long as it returns a smallest node. */
  lemma DeqOrdered(c: Cal)
    requires Ordered(c) && c.qsize > 0 && Deq(c).Ok?
    requires IsMin(Items(c.buckets), Deq(c).value.1.value)
    ensures Ordered(Deq(c).value.0)
  {
    var lag :| Ready(c, lag);
    DeqShape(c);
    var (c1, e) := DeqRaw(c);
    DeqReady(c, lag);
    if TooEmpty(c1) {
      HalveDouble(c1);
      ResizeShape(c1, c1.Nbuckets() / 2);
      StartIsReady(Deq(c).value.0);
    }
  }
}
