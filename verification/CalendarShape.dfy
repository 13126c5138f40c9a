/** What inserting and removing do to the contents and to the shape of a calendar queue. */
module CalendarShape {
  import opened Calendar

  // ---------- powers of two ----------

  lemma {:induction false} Pow2Gap(m: int, n: int)
    requires IsPow2(m) && IsPow2(n) && m < n
    ensures 2 * m <= n
  {
    if m > 1 {
      Pow2Gap(m / 2, n / 2);
    }
  }

  lemma MaxIsPow2()
    ensures IsPow2(MAXNBUCKETS)
  {
    assert IsPow2(32768);
  }

  // ---------- multisets ----------

  lemma Regroup<X>(all: multiset<X>, a: multiset<X>, b: multiset<X>, c: multiset<X>, d: multiset<X>, bc: multiset<X>)
    requires all == a + c && a == b + d && bc == c + d
    ensures all == b + bc
  {
  }

  lemma Regroup3<X>(a: multiset<X>, b: multiset<X>, c: multiset<X>)
    ensures (a + b) + c == a + (b + c)
  {
  }

  lemma SnocMultiset<X>(s: seq<X>, e: X)
    ensures multiset(s + [e]) == multiset(s) + multiset{e} == multiset{e} + multiset(s)
  {
  }

  lemma PrefixMultiset<X>(s: seq<X>, n: nat)
    requires 0 < n <= |s|
    ensures multiset(s[..n]) == multiset(s[..n - 1]) + multiset{s[n - 1]}
  {
    assert s[..n] == s[..n - 1] + [s[n - 1]];
  }

  lemma Associate<X>(a: multiset<X>, x: multiset<X>, s: multiset<X>, b: multiset<X>)
    requires (a + x) + s == b
    ensures a + (x + s) == b
  {
    assert a + (x + s) == (a + x) + s;
  }

  lemma MoveOver<X>(a: multiset<X>, r: multiset<X>, x: multiset<X>, s: multiset<X>, b: multiset<X>, w: multiset<X>)
    requires a == r + x && r + s == b + w
    ensures a + s == b + (x + w)
  {
    assert a + s == (r + s) + x;
    assert b + (x + w) == (b + w) + x;
  }

  lemma Exchange<X>(a: multiset<X>, b: multiset<X>, a': multiset<X>, u: multiset<X>, v: multiset<X>)
    requires a' + u == a + v
    ensures a' + b + u == a + b + v
  {
    assert a' + b + u == (a' + u) + b;
    assert a + b + v == (a + v) + b;
  }

  lemma Cancel<X>(a: multiset<X>, b: multiset<X>, u: multiset<X>, x: multiset<X>)
    requires a + u == b + (u + x)
    ensures a == b + x
  {
    forall y ensures a[y] == (b + x)[y] {
      assert (a + u)[y] == (b + (u + x))[y];
    }
  }

  // ---------- contents ----------

  lemma {:induction false} ItemsUpToUpdate(bs: seq<Bucket>, i: nat, b: Bucket, n: nat)
    requires i < |bs| && n <= |bs|
    ensures i >= n ==> ItemsUpTo(bs[i := b], n) == ItemsUpTo(bs, n)
    ensures i < n ==> ItemsUpTo(bs[i := b], n) + multiset(bs[i]) == ItemsUpTo(bs, n) + multiset(b)
    decreases n
  {
    if n > 0 {
      ItemsUpToUpdate(bs, i, b, n - 1);
      var was, now := ItemsUpTo(bs, n - 1), ItemsUpTo(bs[i := b], n - 1);
      if i == n - 1 {
        assert (was + multiset(b)) + multiset(bs[i]) == (was + multiset(bs[i])) + multiset(b);
      } else if i < n - 1 {
        Exchange(was, multiset(bs[n - 1]), now, multiset(bs[i]), multiset(b));
      }
    }
  }

  lemma ItemsUpdate(bs: seq<Bucket>, i: nat, b: Bucket)
    requires i < |bs|
    ensures Items(bs[i := b]) + multiset(bs[i]) == Items(bs) + multiset(b)
  {
    ItemsUpToUpdate(bs, i, b, |bs|);
  }

  lemma {:induction false} ItemsUpToMember(bs: seq<Bucket>, x: Node, n: nat)
    requires n <= |bs|
    ensures x in ItemsUpTo(bs, n) <==> exists i :: 0 <= i < n && x in bs[i]
    decreases n
  {
    if n > 0 {
      ItemsUpToMember(bs, x, n - 1);
      assert x in ItemsUpTo(bs, n) <==> x in ItemsUpTo(bs, n - 1) || x in bs[n - 1];
    }
  }

  lemma ItemsMember(bs: seq<Bucket>, x: Node)
    ensures x in Items(bs) <==> exists i :: 0 <= i < |bs| && x in bs[i]
  {
    ItemsUpToMember(bs, x, |bs|);
  }

  lemma {:induction false} ItemsUpToEmpty(bs: seq<Bucket>, n: nat)
    requires n <= |bs| && forall i :: 0 <= i < n ==> bs[i] == []
    ensures ItemsUpTo(bs, n) == multiset{}
    decreases n
  {
    if n > 0 {
      ItemsUpToEmpty(bs, n - 1);
    }
  }

  lemma ItemsEmpty(bs: seq<Bucket>)
    requires forall i :: 0 <= i < |bs| ==> bs[i] == []
    ensures Items(bs) == multiset{}
  {
    ItemsUpToEmpty(bs, |bs|);
  }

  // ---------- placement ----------

  lemma PlacedBucket(c: Cal, i: int)
    requires Shape(c) && 0 <= i < c.Nbuckets()
    ensures BucketOk(c.buckets[i], i, c.cwidth, c.Nbuckets())
  {
    assert PlacedAt(c.buckets, c.cwidth, i);
  }

  lemma PlacedUpdate(bs: seq<Bucket>, w: real, i: int, b: Bucket)
    requires w > 0.0 && Placed(bs, w) && 0 <= i < |bs| && BucketOk(b, i, w, |bs|)
    ensures Placed(bs[i := b], w)
  {
    var r := bs[i := b];
    forall j | 0 <= j < |r| ensures PlacedAt(r, w, j) {
      if j != i {
        assert PlacedAt(bs, w, j);
      }
    }
  }

  // ---------- searching ----------

  lemma {:induction false} SweepFirst(c: Cal, k: nat)
    requires 0 < c.Nbuckets() && k <= c.Nbuckets()
    ensures forall j :: k <= j < Sweep(c, k) ==> !Hit(c, j)
    decreases c.Nbuckets() - k
  {
    if k < c.Nbuckets() && !Hit(c, k) {
      SweepFirst(c, k + 1);
    }
  }

  lemma {:induction false} DirectFinds(bs: seq<Bucket>, i: nat, best: int)
    requires i <= |bs|
    requires -1 <= best < |bs| && (best != -1 ==> bs[best] != [])
    ensures var r := Direct(bs, i, best);
      && (r == -1 <==> best == -1 && forall j :: i <= j < |bs| ==> bs[j] == [])
      && (r != -1 && best != -1 ==> bs[r][0].priority <= bs[best][0].priority)
      && (r != -1 ==> forall j :: i <= j < |bs| && bs[j] != [] ==> bs[r][0].priority <= bs[j][0].priority)
    decreases |bs| - i
  {
    if i < |bs| {
      DirectFinds(bs, i + 1, best);
      if bs[i] != [] {
        DirectFinds(bs, i + 1, i);
      }
    }
  }

  // ---------- inserting ----------

  lemma {:induction false} InsertContents(b: Bucket, x: Node)
    ensures multiset(Insert(b, x)) == multiset(b) + multiset{x}
  {
    if b != [] && b[0].priority <= x.priority {
      InsertContents(b[1..], x);
      assert b == [b[0]] + b[1..];
    }
  }

  lemma {:induction false} InsertSorted(b: Bucket, x: Node)
    requires Sorted(b)
    ensures Sorted(Insert(b, x))
  {
    if b != [] && b[0].priority <= x.priority {
      InsertSorted(b[1..], x);
      InsertContents(b[1..], x);
      var r := Insert(b[1..], x);
      forall y | y in r ensures b[0].priority <= y.priority {
        assert y in multiset(r);
      }
    }
  }

  lemma InsertBucketOk(b: Bucket, x: Node, i: int, w: real, nb: int)
    requires w > 0.0 && nb > 0 && BucketOk(b, i, w, nb)
    requires x.priority >= 0.0 && Home(x.priority, w, nb) == i
    ensures BucketOk(Insert(b, x), i, w, nb)
  {
    InsertSorted(b, x);
    InsertContents(b, x);
    forall y | y in Insert(b, x) ensures y.priority >= 0.0 && Home(y.priority, w, nb) == i {
      assert y in multiset(Insert(b, x));
    }
  }

  lemma PutContents(c: Cal, x: Node)
    requires c.cwidth > 0.0 && c.Nbuckets() > 0
    ensures Items(PutRaw(c, x).buckets) == Items(c.buckets) + multiset{x}
  {
    var i := Home(x.priority, c.cwidth, c.Nbuckets());
    ItemsUpdate(c.buckets, i, Insert(c.buckets[i], x));
    InsertContents(c.buckets[i], x);
    Cancel(Items(PutRaw(c, x).buckets), Items(c.buckets), multiset(c.buckets[i]), multiset{x});
  }

  /** Inserting adds exactly the new node and keeps the shape. */
  lemma PutShape(c: Cal, x: Node)
    requires Shape(c) && x.priority >= 0.0
    ensures Shape(PutRaw(c, x))
    ensures Items(PutRaw(c, x).buckets) == Items(c.buckets) + multiset{x}
  {
    var i := Home(x.priority, c.cwidth, c.Nbuckets());
    PutContents(c, x);
    PlacedBucket(c, i);
    InsertBucketOk(c.buckets[i], x, i, c.cwidth, c.Nbuckets());
    PlacedUpdate(c.buckets, c.cwidth, i, Insert(c.buckets[i], x));
  }

  // ---------- removing ----------

  /** The direct search never ends with `temp2 == -1` while `qsize` counts a node. */
  lemma SomethingToTake(c: Cal)
    requires Shape(c) && c.qsize > 0
    ensures NextBucket(c) != -1
  {
    if NextBucket(c) == -1 {
      DirectFinds(c.buckets, 0, -1);
      ItemsEmpty(c.buckets);
    }
  }

  /** Removing takes out exactly the node it returns and keeps the shape. */
  lemma DeqShape(c: Cal)
    requires Shape(c) && c.qsize > 0
    ensures NextBucket(c) != -1
    ensures Shape(DeqRaw(c).0)
    ensures Items(c.buckets) == Items(DeqRaw(c).0.buckets) + multiset{DeqRaw(c).1}
    ensures DeqRaw(c).1.priority >= 0.0
  {
    SomethingToTake(c);
    var i := NextBucket(c);
    var b := c.buckets[i];
    assert b == [b[0]] + b[1..];
    ItemsUpdate(c.buckets, i, b[1..]);
    assert multiset(b) == multiset(b[1..]) + multiset{b[0]};
    Cancel(Items(c.buckets), Items(DeqRaw(c).0.buckets), multiset(b[1..]), multiset{b[0]});
    PlacedBucket(c, i);
    PlacedUpdate(c.buckets, c.cwidth, i, b[1..]);
  }

  // ---------- initialising ----------

  lemma LocalInitShape(enabled: bool, base: int, nb: nat, w: real, start: real)
    requires IsPow2(nb) && 2 <= nb <= MAXNBUCKETS && (base == 0 || base == CALQSPACE - nb)
    requires w > 0.0 && start >= 0.0
    ensures Shape(LocalInit(enabled, base, nb, w, start))
    ensures Items(LocalInit(enabled, base, nb, w, start).buckets) == multiset{}
  {
    var c := LocalInit(enabled, base, nb, w, start);
    ItemsEmpty(c.buckets);
  }
}
