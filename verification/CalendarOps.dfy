/**
 The operations of the calendar queue with their resizing, as functions on a value.

 Inside `NewWidth` and `Resize` nodes move through `DeqRaw` and `PutRaw`, which never resize: that
 the nested calls of the C code indeed never resize again is proved for the class
 `CalendarQueue.CalQueue`, whose methods call each other as the C functions do.
 */
module CalendarOps {
  import opened Common
  import opened Calendar
  import opened CalendarShape

  // ---------- choosing a bucket width ----------

  function SampleSize(q: nat): nat {
    var n := if q <= 5 then q else 5 + q / 10;
    if n > 25 then 25 else n
  }

  /** Only contents and cursor differ. */
  ghost predicate SameLayout(c: Cal, r: Cal) {
    && r.firstsub == c.firstsub && r.cwidth == c.cwidth && r.Nbuckets() == c.Nbuckets()
    && r.botThreshold == c.botThreshold && r.topThreshold == c.topThreshold
    && r.resizeEnabled == c.resizeEnabled
  }

  /** The queue after n successive removals, and the nodes removed. */
  function Sample(c: Cal, n: nat): (r: (Cal, seq<Node>))
    requires Shape(c) && n <= c.qsize
    ensures Shape(r.0) && r.0.qsize == c.qsize - n && SameLayout(c, r.0)
    ensures |r.1| == n
    decreases n
  {
    if n == 0 then (c, []) else
      var (d, s) := Sample(c, n - 1);
      DeqShape(d);
      (DeqRaw(d).0, s + [DeqRaw(d).1])
  }

  /** Insert the first n nodes of s. */
  function ReinsertUpTo(c: Cal, s: seq<Node>, n: nat): (r: Cal)
    requires c.cwidth > 0.0 && c.Nbuckets() > 0 && n <= |s|
    ensures r == c.(buckets := r.buckets, qsize := c.qsize + n)
    ensures r.Nbuckets() == c.Nbuckets()
    decreases n
  {
    if n == 0 then c else PutRaw(ReinsertUpTo(c, s, n - 1), s[n - 1])
  }

  function Reinsert(c: Cal, s: seq<Node>): (r: Cal)
    requires c.cwidth > 0.0 && c.Nbuckets() > 0
    ensures r == c.(buckets := r.buckets, qsize := c.qsize + |s|)
    ensures r.Nbuckets() == c.Nbuckets()
  {
    ReinsertUpTo(c, s, |s|)
  }

  /** The sum of the gaps between neighbours. */
  function GapSum(s: seq<Node>): real {
    if |s| < 2 then 0.0 else GapSum(s[..|s| - 1]) + (s[|s| - 1].priority - s[|s| - 2].priority)
  }

  /** The sum and the number of the gaps below `bound`. */
  function KeptGaps(s: seq<Node>, bound: real): (r: (real, nat)) {
    if |s| < 2 then (0.0, 0) else
      var gap := s[|s| - 1].priority - s[|s| - 2].priority;
      var (sum, j) := KeptGaps(s[..|s| - 1], bound);
      if gap < bound then (sum + gap, j + 1) else (sum, j)
  }

  function AverageGap(s: seq<Node>): real
    requires |s| >= 2
  {
    GapSum(s) / (|s| - 1) as real
  }

  /** Three times the average of the gaps that are below twice the average gap; `None` when there is
      no such gap and the C code divides zero by zero. */
  function Width(s: seq<Node>): Option<real>
    requires |s| >= 2
  {
    var (sum, j) := KeptGaps(s, AverageGap(s) * 2.0);
    if j == 0 then None else Some(sum / j as real * 3.0)
  }

  /** The queue that is sampled: nested operations must not resize it. */
  function Disabled(c: Cal): Cal {
    c.(resizeEnabled := false)
  }

  /** The cursor is put back where it was before sampling. */
  function Restored(c: Cal, r: Cal): Cal {
    r.(lastbucket := c.lastbucket, lastprio := c.lastprio, buckettop := c.buckettop, resizeEnabled := true)
  }

  function NewWidth(c: Cal): (Cal, Option<real>)
    requires Shape(c)
  {
    if c.qsize < 2 then (c, Some(1.0)) else
      var r := Sample(Disabled(c), SampleSize(c.qsize));
      (Restored(c, Reinsert(r.0, r.1)), Width(r.1))
  }

  // ---------- resizing ----------

  /** Insert the nodes of the buckets from the last one down to bucket i. */
  function CopyDownTo(c: Cal, bs: seq<Bucket>, i: nat): (r: Cal)
    requires c.cwidth > 0.0 && c.Nbuckets() > 0 && i <= |bs|
    ensures r.Nbuckets() == c.Nbuckets() && r.qsize >= c.qsize
    ensures r == c.(buckets := r.buckets, qsize := r.qsize)
    decreases |bs| - i
  {
    if i == |bs| then c else Reinsert(CopyDownTo(c, bs, i + 1), bs[i])
  }

  function CopyAll(c: Cal, bs: seq<Bucket>): Cal
    requires c.cwidth > 0.0 && c.Nbuckets() > 0
  {
    CopyDownTo(c, bs, 0)
  }

  predicate Positive(w: Option<real>) {
    w.Some? && w.value > 0.0
  }

  function OtherEnd(firstsub: int, newsize: int): int {
    if firstsub == 0 then CALQSPACE - newsize else 0
  }

  function Resize(c: Cal, newsize: nat): Outcome<Cal>
    requires Shape(c) && newsize > 0
  {
    if !c.resizeEnabled then Ok(c) else
      var (c1, w) := NewWidth(c);
      if !Positive(w) then BadWidth else
        Ok(CopyAll(LocalInit(true, OtherEnd(c1.firstsub, newsize), newsize, w.value, c1.lastprio), c1.buckets))
  }

  // ---------- the operations ----------

  predicate TooFull(c: Cal) {
    c.qsize > c.topThreshold && c.Nbuckets() < MAXNBUCKETS
  }

  predicate TooEmpty(c: Cal) {
    c.qsize < c.botThreshold
  }

  function Put(c: Cal, x: Node): Outcome<Cal>
    requires Shape(c) && x.priority >= 0.0
  {
    PutShape(c, x);
    var c1 := PutRaw(c, x);
    if TooFull(c1) then Resize(c1, 2 * c1.Nbuckets()) else Ok(c1)
  }

  function Deq(c: Cal): Outcome<(Cal, Option<Node>)>
    requires Shape(c)
  {
    if c.qsize == 0 then Ok((c, None)) else
      DeqShape(c);
      var (c1, e) := DeqRaw(c);
      if TooEmpty(c1) then
        match Resize(c1, c1.Nbuckets() / 2)
        case Ok(c2) => Ok((c2, Some(e)))
        case BadWidth => BadWidth
      else Ok((c1, Some(e)))
  }

  // ---------- what a resize keeps ----------

  lemma {:induction false} SampleContents(c: Cal, n: nat)
    requires Shape(c) && n <= c.qsize
    ensures Items(c.buckets) == Items(Sample(c, n).0.buckets) + multiset(Sample(c, n).1)
    decreases n
  {
    hide DeqRaw, Items, Shape;
    if n > 0 {
      SampleContents(c, n - 1);
      var (d, s) := Sample(c, n - 1);
      DeqShape(d);
      var (r, e) := DeqRaw(d);
      SnocMultiset(s, e);
      Regroup(Items(c.buckets), Items(d.buckets), Items(r.buckets), multiset(s), multiset{e}, multiset(s + [e]));
      assert Sample(c, n) == (r, s + [e]);
    }
  }

  lemma SampleNonNegative(c: Cal, n: nat)
    requires Shape(c) && n <= c.qsize
    ensures forall x :: x in Sample(c, n).1 ==> x.priority >= 0.0
  {
    SampleContents(c, n);
    StoredNonNegativeAll(c);
    forall x | x in Sample(c, n).1 ensures x.priority >= 0.0 {
      assert x in multiset(Sample(c, n).1);
      ItemsMember(c.buckets, x);
    }
  }

  lemma {:induction false} ReinsertUpToShape(c: Cal, s: seq<Node>, n: nat)
    requires Shape(c) && n <= |s| && forall x :: x in s ==> x.priority >= 0.0
    ensures Shape(ReinsertUpTo(c, s, n))
    ensures Items(ReinsertUpTo(c, s, n).buckets) == Items(c.buckets) + multiset(s[..n])
    decreases n
  {
    hide PutRaw, Items, Placed;
    if n > 0 {
      ReinsertUpToShape(c, s, n - 1);
      var d := ReinsertUpTo(c, s, n - 1);
      PutShape(d, s[n - 1]);
      PrefixMultiset(s, n);
      Regroup3(Items(c.buckets), multiset(s[..n - 1]), multiset{s[n - 1]});
    }
  }

  lemma ReinsertShape(c: Cal, s: seq<Node>)
    requires Shape(c) && forall x :: x in s ==> x.priority >= 0.0
    ensures Shape(Reinsert(c, s))
    ensures Items(Reinsert(c, s).buckets) == Items(c.buckets) + multiset(s)
  {
    ReinsertUpToShape(c, s, |s|);
    assert s[..|s|] == s;
  }

  ghost predicate NonNegative(bs: seq<Bucket>) {
    forall i, x :: 0 <= i < |bs| && x in bs[i] ==> x.priority >= 0.0
  }

  lemma {:induction false} CopyDownToShape(c: Cal, bs: seq<Bucket>, i: nat)
    requires Shape(c) && i <= |bs| && NonNegative(bs)
    ensures Shape(CopyDownTo(c, bs, i))
    ensures Items(CopyDownTo(c, bs, i).buckets) + ItemsUpTo(bs, i) == Items(c.buckets) + Items(bs)
    decreases |bs| - i
  {
    if i < |bs| {
      CopyDownToShape(c, bs, i + 1);
      var d := CopyDownTo(c, bs, i + 1);
      ReinsertShape(d, bs[i]);
      assert (Items(d.buckets) + multiset(bs[i])) + ItemsUpTo(bs, i) == Items(d.buckets) + ItemsUpTo(bs, i + 1);
    }
  }

  lemma StoredNonNegativeAll(c: Cal)
    requires Shape(c)
    ensures NonNegative(c.buckets)
  {
    forall i, x | 0 <= i < c.Nbuckets() && x in c.buckets[i] ensures x.priority >= 0.0 {
      PlacedBucket(c, i);
    }
  }

  /** Sampling for a new width puts everything back: contents, cursor and layout are as before. */
  lemma NewWidthShape(c: Cal)
    requires Shape(c) && c.resizeEnabled
    ensures Shape(NewWidth(c).0)
    ensures Items(NewWidth(c).0.buckets) == Items(c.buckets)
    ensures NewWidth(c).0 == c.(buckets := NewWidth(c).0.buckets)
    ensures NewWidth(c).0.Nbuckets() == c.Nbuckets()
  {
    if c.qsize >= 2 {
      var r := Sample(Disabled(c), SampleSize(c.qsize));
      SampleContents(Disabled(c), SampleSize(c.qsize));
      SampleNonNegative(Disabled(c), SampleSize(c.qsize));
      ReinsertShape(r.0, r.1);
    }
  }

  /** The cursor is where localinit puts it: at the virtual bucket of the last priority. */
  ghost predicate AtStart(c: Cal)
    requires Layout(c)
  {
    var n := VirtualBucket(c.lastprio, c.cwidth);
    c.lastbucket == n % c.Nbuckets() && c.buckettop == StartTop(n, c.cwidth)
  }

  /** Everything a resize with a positive width keeps: the nodes, the dequeueing position and the
      shape; the new buckets lie at the other end of the array, away from the old ones. */
  lemma ResizeShape(c: Cal, newsize: nat)
    requires IsPow2(newsize) && 2 <= newsize <= MAXNBUCKETS
    requires Shape(c) && c.resizeEnabled && Resize(c, newsize).Ok?
    ensures var r := Resize(c, newsize).value;
      && Shape(r)
      && Items(r.buckets) == Items(c.buckets)
      && r.qsize == c.qsize
      && r.Nbuckets() == newsize
      && r.lastprio == c.lastprio
      && r.resizeEnabled
      && r.firstsub == OtherEnd(c.firstsub, newsize)
      && AtStart(r)
  {
    NewWidthShape(c);
    var (c1, w) := NewWidth(c);
    var base := OtherEnd(c1.firstsub, newsize);
    LocalInitShape(true, base, newsize, w.value, c1.lastprio);
    var c2 := LocalInit(true, base, newsize, w.value, c1.lastprio);
    StoredNonNegativeAll(c1);
    CopyDownToShape(c2, c1.buckets, 0);
    var r := CopyAll(c2, c1.buckets);
    assert Items(r.buckets) + ItemsUpTo(c1.buckets, 0) == Items(r.buckets);
    assert Items(c2.buckets) + Items(c1.buckets) == Items(c1.buckets);
  }

  lemma HalveDouble(c: Cal)
    requires Layout(c)
    ensures c.Nbuckets() <= 32768
    ensures c.Nbuckets() < 32768 ==> IsPow2(2 * c.Nbuckets()) && 2 * c.Nbuckets() <= MAXNBUCKETS
    ensures c.Nbuckets() > 2 ==> IsPow2(c.Nbuckets() / 2) && 2 <= c.Nbuckets() / 2
  {
    if c.Nbuckets() < MAXNBUCKETS {
      MaxIsPow2();
      Pow2Gap(c.Nbuckets(), MAXNBUCKETS);
    }
    if c.Nbuckets() > 2 {
      assert IsPow2(c.Nbuckets() / 2);
    }
  }

  /** The old and the new bucket regions of a resize never overlap, so clearing the new region
      leaves the nodes that are still to be copied. */
  lemma TwoEndedStorage(c: Cal, newsize: nat)
    requires Layout(c) && 2 <= newsize <= MAXNBUCKETS
    ensures var base := OtherEnd(c.firstsub, newsize);
      && 0 <= base && base + newsize <= 65536
      && (base + newsize <= c.firstsub || c.firstsub + c.Nbuckets() <= base)
  {
  }

  // ---------- the operations against the plain multiset ----------

  /** Inserting, resize included: exactly the new node is added. */
  lemma PutConserves(c: Cal, x: Node)
    requires Shape(c) && c.resizeEnabled && x.priority >= 0.0 && Put(c, x).Ok?
    ensures var r := Put(c, x).value;
      && Shape(r) && r.resizeEnabled
      && Items(r.buckets) == Items(c.buckets) + multiset{x}
      && r.lastprio == c.lastprio
  {
    PutShape(c, x);
    var c1 := PutRaw(c, x);
    if TooFull(c1) {
      HalveDouble(c1);
      ResizeShape(c1, 2 * c1.Nbuckets());
    }
  }

  /** Removing, resize included: exactly the returned node is removed, and a node is returned
      exactly when there is one. */
  lemma DeqConserves(c: Cal)
    requires Shape(c) && c.resizeEnabled && Deq(c).Ok?
    ensures var (r, e) := Deq(c).value;
      && Shape(r) && r.resizeEnabled
      && (e.None? <==> Items(c.buckets) == multiset{})
      && (e.None? ==> r == c)
      && (e.Some? ==>
        && Items(c.buckets) == Items(r.buckets) + multiset{e.value}
        && r.lastprio == e.value.priority)
  {
    if c.qsize > 0 {
      DeqShape(c);
      var (c1, e) := DeqRaw(c);
      if TooEmpty(c1) {
        HalveDouble(c1);
        ResizeShape(c1, c1.Nbuckets() / 2);
      }
    }
  }
}
