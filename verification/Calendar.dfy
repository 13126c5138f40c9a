/**
 The calendar queue of 2018-fibers/src/calqueue.c as functions on a value.

 A queue is a circular array of buckets.  A node of priority p lives in virtual bucket
 floor(p / cwidth); the real bucket is that number modulo the number of buckets.  Dequeueing
 sweeps the buckets from `lastbucket`, accepting the head of a bucket only when its priority is
 below the moving bound `buckettop`; a sweep that finds nothing falls back on a direct search.

 Class `CalendarQueue.CalQueue` is proved to compute exactly these functions.
 */
module Calendar {

  const CALQSPACE := 65536
  const MAXNBUCKETS := 32768

  /** The `void *` handed back by a get. */
  type Payload = int

  datatype Node = Node(priority: real, payload: Payload)

  type Bucket = seq<Node>

  /** The fields of the queue, with `buckets` standing for the part of the array in use. */
  datatype Cal = Cal(
    firstsub: int,
    cwidth: real,
    buckets: seq<Bucket>,
    qsize: int,
    lastprio: real,
    lastbucket: int,
    buckettop: real,
    botThreshold: int,
    topThreshold: int,
    resizeEnabled: bool)
  {
    function Nbuckets(): nat {
      |buckets|
    }
  }

  /** The C code divides by the bucket width; `BadWidth` is the outcome of a resize whose sampled
      width is not a positive number, which the rest of the code cannot survive. */
  datatype Outcome<+R> = Ok(value: R) | BadWidth

  // ---------- arithmetic of virtual buckets ----------

  function VirtualBucket(p: real, w: real): int
    requires w > 0.0
  {
    (p / w).Floor
  }

  function Home(p: real, w: real, nb: int): int
    requires w > 0.0 && nb > 0
  {
    VirtualBucket(p, w) % nb
  }

  // ---------- well-formed queues ----------

  ghost predicate IsPow2(n: int) {
    n == 1 || (n > 1 && n % 2 == 0 && IsPow2(n / 2))
  }

  ghost predicate Sorted(b: Bucket) {
    forall i, j :: 0 <= i < j < |b| ==> b[i].priority <= b[j].priority
  }

  ghost predicate BucketOk(b: Bucket, i: int, w: real, nb: int)
    requires w > 0.0 && nb > 0
  {
    Sorted(b) && forall x :: x in b ==> x.priority >= 0.0 && Home(x.priority, w, nb) == i
  }

  ghost predicate PlacedAt(bs: seq<Bucket>, w: real, i: int)
    requires w > 0.0 && 0 <= i < |bs|
  {
    BucketOk(bs[i], i, w, |bs|)
  }

  ghost predicate Placed(bs: seq<Bucket>, w: real)
    requires w > 0.0
  {
    forall i {:trigger PlacedAt(bs, w, i)} :: 0 <= i < |bs| ==> PlacedAt(bs, w, i)
  }

  /** The nodes of the first n buckets. */
  ghost function ItemsUpTo(bs: seq<Bucket>, n: nat): multiset<Node>
    requires n <= |bs|
  {
    if n == 0 then multiset{} else ItemsUpTo(bs, n - 1) + multiset(bs[n - 1])
  }

  /** All nodes of the queue. */
  ghost function Items(bs: seq<Bucket>): multiset<Node> {
    ItemsUpTo(bs, |bs|)
  }

  ghost predicate Layout(c: Cal) {
    && IsPow2(c.Nbuckets()) && 2 <= c.Nbuckets() <= MAXNBUCKETS
    && (c.firstsub == 0 || c.firstsub == CALQSPACE - c.Nbuckets())
    && c.cwidth > 0.0
    && 0 <= c.lastbucket < c.Nbuckets()
    && c.lastprio >= 0.0
    && c.botThreshold == c.Nbuckets() / 2 - 2
    && c.topThreshold == 2 * c.Nbuckets()
  }

  /** What every operation keeps, whatever order the nodes come out in. */
  ghost predicate Shape(c: Cal) {
    && Layout(c)
    && Placed(c.buckets, c.cwidth)
    && c.qsize == |Items(c.buckets)|
  }

  // ---------- localinit ----------

  /** The bound for virtual bucket n: half a bucket above its end. */
  function StartTop(n: int, w: real): real {
    (n + 1) as real * w + 0.5 * w
  }

  function LocalInit(enabled: bool, base: int, nb: nat, w: real, start: real): Cal
    requires w > 0.0 && nb > 0
  {
    var n := VirtualBucket(start, w);
    Cal(base, w, seq(nb, _ => []), 0, start, n % nb, StartTop(n, w), nb / 2 - 2, 2 * nb, enabled)
  }

  function Init(): Cal {
    LocalInit(true, 0, 2, 1.0, 0.0)
  }

  // ---------- inserting ----------

  /** Insertion before the first node of larger priority. */
  function Insert(b: Bucket, x: Node): Bucket {
    if b == [] || b[0].priority > x.priority then [x] + b else [b[0]] + Insert(b[1..], x)
  }

  /** Insertion without the resize test. */
  function PutRaw(c: Cal, x: Node): Cal
    requires c.cwidth > 0.0 && c.Nbuckets() > 0
  {
    var i := Home(x.priority, c.cwidth, c.Nbuckets());
    c.(buckets := c.buckets[i := Insert(c.buckets[i], x)], qsize := c.qsize + 1)
  }

  // ---------- removing ----------

  /** The sweep accepts the head of a bucket below the bound. */
  predicate Accepts(b: Bucket, top: real) {
    b != [] && b[0].priority < top
  }

  /** The bound after k steps of the sweep. */
  function StepTop(top: real, k: nat, w: real): real {
    top + k as real * w
  }

  /** The test made in the k-th step of the sweep. */
  predicate Hit(c: Cal, k: nat)
    requires c.Nbuckets() > 0
  {
    Accepts(c.buckets[(c.lastbucket + k) % c.Nbuckets()], StepTop(c.buckettop, k, c.cwidth))
  }

  /** The first step from k on at which the sweep stops; the number of buckets if it finds nothing. */
  function Sweep(c: Cal, k: nat): (r: nat)
    requires 0 < c.Nbuckets() && k <= c.Nbuckets()
    ensures k <= r <= c.Nbuckets()
    ensures r < c.Nbuckets() ==> Hit(c, r)
    decreases c.Nbuckets() - k
  {
    if k == c.Nbuckets() || Hit(c, k) then k else Sweep(c, k + 1)
  }

  /** The direct search from bucket i on, `best` being the bucket chosen so far (-1: none). */
  function Direct(bs: seq<Bucket>, i: nat, best: int): (r: int)
    requires i <= |bs|
    requires -1 <= best < |bs| && (best != -1 ==> bs[best] != [])
    ensures -1 <= r < |bs|
    ensures r != -1 ==> bs[r] != []
    decreases |bs| - i
  {
    if i == |bs| then best
    else if bs[i] != [] && (best == -1 || bs[i][0].priority < bs[best][0].priority) then Direct(bs, i + 1, i)
    else Direct(bs, i + 1, best)
  }

  /** Remove the head of bucket i and move the cursor there. */
  function Take(c: Cal, i: int, top: real): (Cal, Node)
    requires 0 <= i < c.Nbuckets() && c.buckets[i] != []
  {
    var e := c.buckets[i][0];
    (c.(lastbucket := i, lastprio := e.priority, qsize := c.qsize - 1,
        buckets := c.buckets[i := c.buckets[i][1..]], buckettop := top), e)
  }

  /** The bucket from which the next node is taken: the sweep's, or else the direct search's. */
  function NextBucket(c: Cal): (i: int)
    requires c.Nbuckets() > 0
    ensures -1 <= i < c.Nbuckets()
    ensures i != -1 ==> c.buckets[i] != []
  {
    var k := Sweep(c, 0);
    if k < c.Nbuckets() then (c.lastbucket + k) % c.Nbuckets() else Direct(c.buckets, 0, -1)
  }

  /** Removal without the resize test. */
  function DeqRaw(c: Cal): (Cal, Node)
    requires c.Nbuckets() > 0 && NextBucket(c) != -1
  {
    Take(c, NextBucket(c), StepTop(c.buckettop, Sweep(c, 0), c.cwidth))
  }
}
