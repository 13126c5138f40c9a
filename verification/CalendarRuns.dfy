/** Whole runs of puts and gets, compared with a plain priority queue. */
module CalendarRuns {
  import opened Common
  import opened Calendar
  import opened CalendarShape
  import opened CalendarOps
  import opened CalendarOrder

  datatype Op = OpPut(x: Node) | OpGet

  /** One operation: the new queue, and for a get its answer. */
  function Step(c: Cal, op: Op): Outcome<(Cal, seq<Option<Node>>)>
    requires Shape(c) && (op.OpPut? ==> op.x.priority >= 0.0)
  {
    match op
    case OpPut(x) => (match Put(c, x)
                      case Ok(r) => Ok((r, []))
                      case BadWidth => BadWidth)
    case OpGet => (match Deq(c)
                   case Ok(r) => Ok((r.0, [r.1]))
                   case BadWidth => BadWidth)
  }

  /** A run with non-negative priorities in which every resize finds a positive width. */
  ghost predicate Survives(c: Cal, ops: seq<Op>)
    decreases |ops|
  {
    && Shape(c) && c.resizeEnabled
    && (ops != [] ==>
      && (ops[0].OpPut? ==> ops[0].x.priority >= 0.0)
      && Step(c, ops[0]).Ok? && Survives(Step(c, ops[0]).value.0, ops[1..]))
  }

  ghost function Final(c: Cal, ops: seq<Op>): Cal
    requires Survives(c, ops)
    decreases |ops|
  {
    if ops == [] then c else Final(Step(c, ops[0]).value.0, ops[1..])
  }

  /** The answers of the gets of a run. */
  ghost function Answers(c: Cal, ops: seq<Op>): seq<Option<Node>>
    requires Survives(c, ops)
    decreases |ops|
  {
    if ops == [] then [] else
      var (r, out) := Step(c, ops[0]).value;
      out + Answers(r, ops[1..])
  }

  /** Callers put at or after the last priority they were given. */
  ghost predicate Advancing(c: Cal, ops: seq<Op>)
    requires Survives(c, ops)
    decreases |ops|
  {
    ops == [] ||
    ((ops[0].OpPut? ==> ops[0].x.priority >= c.lastprio) && Advancing(Step(c, ops[0]).value.0, ops[1..]))
  }

  ghost predicate Legal(c: Cal, ops: seq<Op>) {
    Survives(c, ops) && Advancing(c, ops)
  }

  // ---------- conservation ----------

  ghost function Stored(ops: seq<Op>): multiset<Node> {
    if ops == [] then multiset{} else
      (if ops[0].OpPut? then multiset{ops[0].x} else multiset{}) + Stored(ops[1..])
  }

  ghost function Answered(outs: seq<Option<Node>>): multiset<Node> {
    if outs == [] then multiset{} else
      (if outs[0].Some? then multiset{outs[0].value} else multiset{}) + Answered(outs[1..])
  }

  /** Over any run, in whatever order the nodes come out: what was there and what was put is what
      was answered and what is left. */
  lemma {:induction false} RunConserves(c: Cal, ops: seq<Op>)
    requires Survives(c, ops)
    ensures Shape(Final(c, ops))
    ensures Items(c.buckets) + Stored(ops) == Items(Final(c, ops).buckets) + Answered(Answers(c, ops))
    decreases |ops|
  {
    if ops != [] {
      var (r, out) := Step(c, ops[0]).value;
      var rest := Answers(r, ops[1..]);
      RunConserves(r, ops[1..]);
      match ops[0] {
        case OpPut(x) =>
          PutConserves(c, x);
          assert out + rest == rest;
          Associate(Items(c.buckets), multiset{x}, Stored(ops[1..]), Items(Final(c, ops).buckets) + Answered(rest));
        case OpGet =>
          DeqConserves(c);
          assert (out + rest)[0] == out[0] && (out + rest)[1..] == rest;
          if out[0].Some? {
            MoveOver(Items(c.buckets), Items(r.buckets), multiset{out[0].value}, Stored(ops[1..]),
                     Items(Final(c, ops).buckets), Answered(rest));
          }
          assert Stored(ops) == Stored(ops[1..]);
      }
    }
  }

  // ---------- the reference: a multiset whose smallest node is taken ----------

  /** `outs` is a possible sequence of answers of a plain priority queue that holds `m`. */
  ghost predicate PlainRun(m: multiset<Node>, ops: seq<Op>, outs: seq<Option<Node>>)
    decreases |ops|
  {
    if ops == [] then outs == []
    else match ops[0]
      case OpPut(x) => PlainRun(m + multiset{x}, ops[1..], outs)
      case OpGet =>
        outs != [] &&
        match outs[0]
        case None => m == multiset{} && PlainRun(m, ops[1..], outs[1..])
        case Some(e) => IsMin(m, e) && PlainRun(m - multiset{e}, ops[1..], outs[1..])
  }

  /** No get of the run meets the queue in a state that passes over the smallest node. */
  ghost predicate NeverMisses(c: Cal, ops: seq<Op>)
    requires Survives(c, ops)
    decreases |ops|
  {
    ops == [] ||
    ((ops[0].OpGet? && c.qsize > 0 ==> !Misses(c)) && NeverMisses(Step(c, ops[0]).value.0, ops[1..]))
  }

  /** One removal from an ordered queue, resize included. */
  lemma GetIsMinimum(c: Cal)
    requires Ordered(c) && c.qsize > 0 && Deq(c).Ok?
    ensures var e := Deq(c).value.1;
      e.Some? && (IsMin(Items(c.buckets), e.value) <==> !Misses(c))
  {
    var lag :| Ready(c, lag);
    RemovesMinimum(c, lag);
    DeqShape(c);
  }

  lemma EmptyQueue(c: Cal)
    requires Shape(c)
    ensures c.qsize == 0 <==> Items(c.buckets) == multiset{}
  {
    if Items(c.buckets) != multiset{} {
      var x :| x in Items(c.buckets);
    }
  }

  lemma GetStep(c: Cal, ops: seq<Op>)
    requires Ordered(c) && Survives(c, ops) && ops != [] && ops[0].OpGet?
    ensures var (r, out) := Step(c, ops[0]).value;
      && Answers(c, ops) == [out[0]] + Answers(r, ops[1..])
      && (c.qsize == 0 ==> out[0] == None && r == c && Items(c.buckets) == multiset{})
      && (c.qsize > 0 ==>
        && out[0].Some?
        && Items(r.buckets) == Items(c.buckets) - multiset{out[0].value}
        && (IsMin(Items(c.buckets), out[0].value) <==> !Misses(c))
        && (!Misses(c) ==> Ordered(r)))
  {
    DeqConserves(c);
    EmptyQueue(c);
    if c.qsize > 0 {
      GetIsMinimum(c);
      if !Misses(c) {
        DeqOrdered(c);
      }
      var (r, out) := Step(c, ops[0]).value;
      assert Items(r.buckets) == Items(c.buckets) - multiset{out[0].value};
    }
  }

  /** The calendar queue behaves like a plain priority queue over a whole run if and only if no get
      of the run finds it in a missing state. */
  lemma {:induction false} RefinesPlainQueue(c: Cal, ops: seq<Op>)
    requires Ordered(c) && Legal(c, ops)
    ensures PlainRun(Items(c.buckets), ops, Answers(c, ops)) <==> NeverMisses(c, ops)
    decreases |ops|
  {
    if ops != [] {
      var (r, out) := Step(c, ops[0]).value;
      match ops[0] {
        case OpPut(x) =>
          PutConserves(c, x);
          PutOrdered(c, x);
          RefinesPlainQueue(r, ops[1..]);
          assert Answers(c, ops) == Answers(r, ops[1..]);
        case OpGet =>
          GetStep(c, ops);
          assert Answers(c, ops)[1..] == Answers(r, ops[1..]);
          if c.qsize == 0 || !Misses(c) {
            RefinesPlainQueue(r, ops[1..]);
          }
      }
    }
  }

  /** From the initial queue on: same answers as a plain priority queue exactly on the runs without
      a missing state. */
  lemma InitRefinesPlainQueue(ops: seq<Op>)
    requires Legal(Init(), ops)
    ensures PlainRun(multiset{}, ops, Answers(Init(), ops)) <==> NeverMisses(Init(), ops)
  {
    InitOrdered();
    RefinesPlainQueue(Init(), ops);
  }

  // ---------- the order of the answers ----------

  /** The priorities of the answered nodes never go down, nor below `from`. */
  ghost predicate Nondecreasing(outs: seq<Option<Node>>, from: real) {
    outs == [] ||
    (match outs[0]
     case None => Nondecreasing(outs[1..], from)
     case Some(e) => e.priority >= from && Nondecreasing(outs[1..], e.priority))
  }

  /** Along a run without missing states the gets come out in nondecreasing order. */
  lemma {:induction false} GetsNondecreasing(c: Cal, ops: seq<Op>)
    requires Ordered(c) && Legal(c, ops) && NeverMisses(c, ops)
    ensures Nondecreasing(Answers(c, ops), c.lastprio)
    decreases |ops|
  {
    if ops != [] {
      var (r, out) := Step(c, ops[0]).value;
      match ops[0] {
        case OpPut(x) =>
          PutConserves(c, x);
          PutOrdered(c, x);
          GetsNondecreasing(r, ops[1..]);
          assert Answers(c, ops) == Answers(r, ops[1..]);
        case OpGet =>
          DeqConserves(c);
          GetStep(c, ops);
          assert Answers(c, ops)[1..] == Answers(r, ops[1..]);
          GetsNondecreasing(r, ops[1..]);
      }
    }
  }

  // ---------- a condition on the lag alone ----------

  /** No get of the run meets the queue at lag 1. */
  ghost predicate NeverLagOne(c: Cal, ops: seq<Op>)
    requires Survives(c, ops)
    decreases |ops|
  {
    ops == [] || ((ops[0].OpGet? ==> !LagIs(c, 1)) && NeverLagOne(Step(c, ops[0]).value.0, ops[1..]))
  }

  ghost predicate GoodLag(c: Cal) {
    Ordered(c) && exists lag :: Ready(c, lag) && lag >= 2 - c.Nbuckets()
  }

  lemma PutGoodLag(c: Cal, x: Node)
    requires GoodLag(c) && x.priority >= c.lastprio && Put(c, x).Ok?
    ensures GoodLag(Put(c, x).value)
  {
    var lag :| Ready(c, lag) && lag >= 2 - c.Nbuckets();
    PutOrdered(c, x);
    PutShape(c, x);
    var c1 := PutRaw(c, x);
    AheadAt(c1);
    assert Ready(c1, lag);
    if TooFull(c1) {
      HalveDouble(c1);
      ResizeShape(c1, 2 * c1.Nbuckets());
      StartIsReady(Put(c, x).value);
    }
  }

  lemma GoodLagNeverMisses(c: Cal)
    requires GoodLag(c) && !LagIs(c, 1)
    ensures !Misses(c)
  {
    var lag :| Ready(c, lag) && lag >= 2 - c.Nbuckets();
    forall lag' ensures !MissesAt(c, lag') {
      if LagIs(c, lag') {
        LagUnique(c, lag, lag');
      }
    }
  }

  lemma DeqGoodLag(c: Cal)
    requires GoodLag(c) && !LagIs(c, 1) && c.qsize > 0 && Deq(c).Ok?
    ensures GoodLag(Deq(c).value.0)
  {
    var lag :| Ready(c, lag) && lag >= 2 - c.Nbuckets();
    GoodLagNeverMisses(c);
    GetIsMinimum(c);
    DeqOrdered(c);
    DeqShape(c);
    var (c1, e) := DeqRaw(c);
    if TooEmpty(c1) {
      HalveDouble(c1);
      ResizeShape(c1, c1.Nbuckets() / 2);
      StartIsReady(Deq(c).value.0);
    } else {
      LagBounds(c, lag);
      DeqReady(c, lag);
    }
  }

  /** Runs whose gets never start at lag 1 never miss; initialising and resizing set the lag to 0. */
  lemma {:induction false} GetsOffLagOneNeverMiss(c: Cal, ops: seq<Op>)
    requires GoodLag(c) && Legal(c, ops) && NeverLagOne(c, ops)
    ensures NeverMisses(c, ops)
    decreases |ops|
  {
    if ops != [] {
      match ops[0] {
        case OpPut(x) =>
          PutGoodLag(c, x);
        case OpGet =>
          if c.qsize > 0 {
            GoodLagNeverMisses(c);
            DeqGoodLag(c);
          }
      }
      GetsOffLagOneNeverMiss(Step(c, ops[0]).value.0, ops[1..]);
    }
  }

  /** calqueue_init leaves the cursor at lag 0. */
  lemma InitGoodLag()
    ensures Ready(Init(), 0) && GoodLag(Init())
  {
    InitOrdered();
    StartIsReady(Init());
  }
}
