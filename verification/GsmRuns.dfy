/**
 The loop of 2018-fibers/src/main.c: the cell's events kept in its calendar queue.  The loop uses
 the queue as the queue demands, so that what is proved of whole runs of the queue holds of it.
 */
module GsmRuns {
  import opened Calendar
  import opened CalendarShape
  import opened CalendarOps
  import opened CalendarOrder
  import opened CalendarRuns
  import opened CalendarSurvival
  import opened Gsm

  /** The priority an event has in the queue; the first one is put in at 0. */
  function Priority(m: Msg): real {
    if m.kind == INIT then 0.0 else m.timestamp
  }

  ghost function Nodes(p: map<int, Msg>): set<Node> {
    set h | h in p :: Node(Priority(p[h]), h)
  }

  /** The queue holds exactly the pending events. */
  ghost predicate Filed(p: map<int, Msg>, c: Cal) {
    && Shape(c) && c.resizeEnabled
    && Items(c.buckets) == multiset(Nodes(p))
    && forall h :: h in p ==> Priority(p[h]) >= 0.0
  }

  function NodeOf(m: Msg, h: int): Node {
    Node(m.timestamp, h)
  }

  /** ProcessEvent's puts. */
  function Puts(sent: seq<Msg>, next: int): (ops: seq<Op>)
    ensures |ops| == |sent|
  {
    if sent == [] then [] else [OpPut(NodeOf(sent[0], next))] + Puts(sent[1..], next + 1)
  }

  lemma NodesAdded(p: map<int, Msg>, h: int, m: Msg)
    requires h !in p && m.kind != INIT
    ensures multiset(Nodes(p[h := m])) == multiset(Nodes(p)) + multiset{NodeOf(m, h)}
  {
    assert NodeOf(m, h) !in Nodes(p);
    assert Nodes(p[h := m]) == Nodes(p) + {NodeOf(m, h)} by {
      forall x | x in Nodes(p) + {NodeOf(m, h)} ensures x in Nodes(p[h := m]) {
        assert p[h := m][x.payload] == if x.payload == h then m else p[x.payload];
      }
    }
  }

  lemma NodesRemoved(p: map<int, Msg>, h: int)
    requires h in p
    ensures multiset(Nodes(p)) == multiset(Nodes(p - {h})) + multiset{Node(Priority(p[h]), h)}
  {
    var x, q := Node(Priority(p[h]), h), p - {h};
    assert x !in Nodes(q);
    assert Nodes(p) == Nodes(q) + {x} by {
      forall y | y in Nodes(p) && y != x ensures y in Nodes(q) {
        var k :| k in p && y == Node(Priority(p[k]), k);
        assert k in q && q[k] == p[k];
      }
    }
  }

  lemma Cancel(a: multiset<Node>, b: multiset<Node>, x: Node)
    requires a + multiset{x} == b + multiset{x}
    ensures a == b
  {
    assert a == (a + multiset{x}) - multiset{x};
    assert b == (b + multiset{x}) - multiset{x};
  }

  lemma FiledNode(p: map<int, Msg>, x: Node)
    requires x in Nodes(p)
    ensures x.payload in p && x.priority == Priority(p[x.payload])
  {
  }

  lemma FiledNonEmpty(p: map<int, Msg>)
    requires p != map[]
    ensures multiset(Nodes(p)) != multiset{}
  {
    assert (forall k :: k !in p) ==> p == map[];
    var k :| k in p;
    assert multiset(Nodes(p))[Node(Priority(p[k]), k)] == 1;
  }

  /** A node the queue hands back is a pending event under its own priority. */
  lemma DeqFiled(p: map<int, Msg>, c: Cal)
    requires Filed(p, c) && p != map[] && Deq(c).Ok?
    ensures var (c1, e) := Deq(c).value;
      && e.Some? && e.value.payload in p && e.value.priority == Priority(p[e.value.payload])
      && Filed(p - {e.value.payload}, c1) && c1.lastprio == e.value.priority >= 0.0
  {
    hide Items, Nodes, Placed, Deq, Priority;
    DeqConserves(c);
    FiledNonEmpty(p);
    var (c1, e) := Deq(c).value;
    assert e.value in Items(c.buckets);
    FiledNode(p, e.value);
    NodesRemoved(p, e.value.payload);
    Cancel(Items(c1.buckets), multiset(Nodes(p - {e.value.payload})), e.value);
  }

  /** ProcessEvent's puts meet the queue's conditions, and file the events they put. */
  lemma {:induction false} PutsFiled(p: map<int, Msg>, next: int, sent: seq<Msg>, c: Cal)
    requires Filed(p, c) && (forall h :: h in p ==> h < next)
    requires forall m :: m in sent ==> m.kind != INIT && m.timestamp >= c.lastprio >= 0.0
    requires Survives(c, Puts(sent, next))
    ensures Legal(c, Puts(sent, next))
    ensures Filed(Send(p, next, sent).0, Final(c, Puts(sent, next)))
    ensures Answers(c, Puts(sent, next)) == []
    decreases |sent|
  {
    if sent != [] {
      var m := sent[0];
      var x := NodeOf(m, next);
      PutConserves(c, x);
      NodesAdded(p, next, m);
      var c1 := Put(c, x).value;
      assert Puts(sent, next)[1..] == Puts(sent[1..], next + 1);
      assert Filed(p[next := m], c1);
      PutsFiled(p[next := m], next + 1, sent[1..], c1);
    }
  }

  // ---------- runs one after the other ----------

  lemma {:induction false} SurvivesAppend(c: Cal, a: seq<Op>, b: seq<Op>)
    requires Survives(c, a)
    ensures Survives(c, a + b) <==> Survives(Final(c, a), b)
    ensures Survives(c, a + b) ==> Final(c, a + b) == Final(Final(c, a), b)
    decreases |a|
  {
    hide Step, Shape;
    if a == [] {
      assert a + b == b;
    } else {
      assert (a + b)[1..] == a[1..] + b && (a + b)[0] == a[0];
      SurvivesAppend(Step(c, a[0]).value.0, a[1..], b);
    }
  }

  lemma {:induction false} LegalAppend(c: Cal, a: seq<Op>, b: seq<Op>)
    requires Legal(c, a) && Legal(Final(c, a), b)
    ensures Legal(c, a + b)
    ensures Answers(c, a + b) == Answers(c, a) + Answers(Final(c, a), b)
    decreases |a|
  {
    hide Step, Shape;
    if a == [] {
      assert a + b == b;
    } else {
      var r := Step(c, a[0]).value.0;
      assert (a + b)[1..] == a[1..] + b && (a + b)[0] == a[0];
      LegalAppend(r, a[1..], b);
    }
  }

  // ---------- the loop ----------

  lemma SentLater(w: World, h: int, d: Draws, id: int)
    requires Agree(w, id) && h in w.pending && Forward(d) && Priority(w.pending[h]) >= 0.0
    ensures var p := ProcessEvent(w.pending[h], w.cell, d);
      p.Some? && forall m :: m in p.value.sent ==> m.kind != INIT && m.timestamp >= Priority(w.pending[h])
  {
    hide FirstFree, IndexOf, Agree, Send;
    TurnAgrees(w, h, d, id);
  }

  /** One turn on the queue. */
  lemma TurnFiled(w: World, c: Cal, d: Draws, id: int)
    requires Agree(w, id) && w.pending != map[] && Filed(w.pending, c) && Forward(d) && Deq(c).Ok?
    ensures var (c1, e) := Deq(c).value;
      && e.Some? && e.value.payload in w.pending
      && Turn(w, e.value.payload, d).Some?
      && var puts := Puts(ProcessEvent(w.pending[e.value.payload], w.cell, d).value.sent, w.next);
         Survives(c1, puts) ==>
         && Legal(c1, puts) && Answers(c1, puts) == []
         && Filed(Turn(w, e.value.payload, d).value.0.pending, Final(c1, puts))
  {
    DeqFiled(w.pending, c);
    var (c1, e) := Deq(c).value;
    var h := e.value.payload;
    SentLater(w, h, d, id);
    TurnAgrees(w, h, d, id);
    var sent := ProcessEvent(w.pending[h], w.cell, d).value.sent;
    if Survives(c1, Puts(sent, w.next)) {
      PutsFiled(w.pending - {h}, w.next, sent, c1);
    }
  }

  /** The operations of one turn that finds an event at h. */
  ghost function TurnOps(w: World, h: int, d: Draws): seq<Op>
    requires h in w.pending && Turn(w, h, d).Some?
  {
    [OpGet] + Puts(ProcessEvent(w.pending[h], w.cell, d).value.sent, w.next)
  }

  /** One answered get of the loop, and the puts that follow it, meet the conditions of the queue. */
  lemma TurnLegal(w: World, c: Cal, d: Draws, id: int)
    requires Agree(w, id) && w.pending != map[] && Filed(w.pending, c) && Forward(d) && Deq(c).Ok?
    ensures var e := Deq(c).value.1;
      && e.Some? && e.value.payload in w.pending && Turn(w, e.value.payload, d).Some?
      && var turn := TurnOps(w, e.value.payload, d);
         Survives(c, turn) ==>
         && Legal(c, turn) && Answers(c, turn) == [e]
         && Filed(Turn(w, e.value.payload, d).value.0.pending, Final(c, turn))
  {
    TurnFiled(w, c, d, id);
    var (c1, e) := Deq(c).value;
    var puts := Puts(ProcessEvent(w.pending[e.value.payload], w.cell, d).value.sent, w.next);
    assert ([OpGet] + puts)[1..] == puts;
  }

  /** The queue operations of main_loop, one list of random times for each turn, up to an operation
      that finds no usable bucket width. */
  ghost function LoopOps(w: World, c: Cal, ds: seq<Draws>, id: int): seq<Op>
    requires Agree(w, id) && w.pending != map[] && Filed(w.pending, c)
    requires forall d :: d in ds ==> Forward(d)
    decreases |ds|
  {
    if ds == [] then []
    else if Deq(c).BadWidth? then [OpGet]
    else
      TurnLegal(w, c, ds[0], id);
      var h := Deq(c).value.1.value.payload;
      TurnAgrees(w, h, ds[0], id);
      var turn := TurnOps(w, h, ds[0]);
      if !Survives(c, turn) || Turn(w, h, ds[0]).value.1 then turn
      else turn + LoopOps(Turn(w, h, ds[0]).value.0, Final(c, turn), ds[1..], id)
  }

  lemma GetAnswers(c: Cal)
    requires Survives(c, [OpGet])
    ensures Deq(c).Ok?
  {
  }

  /** The loop's operations survive exactly when those of the first turn and then the rest do. */
  lemma LoopSplit(w: World, c: Cal, ds: seq<Draws>, id: int)
    requires Agree(w, id) && w.pending != map[] && Filed(w.pending, c)
    requires ds != [] && forall d :: d in ds ==> Forward(d)
    ensures var ops := LoopOps(w, c, ds, id);
      match Deq(c)
      case BadWidth => !Survives(c, ops) && ops == [OpGet]
      case Ok((_, e)) =>
        && e.Some? && e.value.payload in w.pending && Turn(w, e.value.payload, ds[0]).Some?
        && var turn := TurnOps(w, e.value.payload, ds[0]);
           var (r, done) := Turn(w, e.value.payload, ds[0]).value;
           if !Survives(c, turn) then !Survives(c, ops) && ops == turn
           else
             && Agree(r, id) && r.pending != map[] && Filed(r.pending, Final(c, turn))
             && var rest := if done then [] else LoopOps(r, Final(c, turn), ds[1..], id);
                && ops == turn + rest
                && (Survives(c, ops) <==> Survives(Final(c, turn), rest))
                && (Survives(c, ops) ==> Final(c, ops) == Final(Final(c, turn), rest))
  {
    hide Step, Agree, Turn, TurnOps, ProcessEvent, Send, Survives, Answers, Final, Advancing, Shape, Deq, Nodes, Items,
      Legal, PendingOk, CellOk;
    var ops := LoopOps(w, c, ds, id);
    if Deq(c).BadWidth? {
      if Survives(c, ops) {
        GetAnswers(c);
      }
    } else {
      TurnLegal(w, c, ds[0], id);
      var h := Deq(c).value.1.value.payload;
      TurnAgrees(w, h, ds[0], id);
      var turn := TurnOps(w, h, ds[0]);
      if Survives(c, turn) {
        assert turn + [] == turn;
        SurvivesAppend(c, turn, ops[|turn|..]);
      }
    }
  }

  /** Whatever the random times: as long as resizes find a usable width, the loop's queue operations
      are legal (no put is before the last event), and every get of the loop finds an event. */
  lemma {:induction false} LoopIsLegal(w: World, c: Cal, ds: seq<Draws>, id: int)
    requires Agree(w, id) && w.pending != map[] && Filed(w.pending, c)
    requires forall d :: d in ds ==> Forward(d)
    requires Survives(c, LoopOps(w, c, ds, id))
    ensures Legal(c, LoopOps(w, c, ds, id))
    ensures forall e :: e in Answers(c, LoopOps(w, c, ds, id)) ==> e.Some?
    decreases |ds|
  {
    if ds != [] {
      hide Step, Agree, Turn, TurnOps, ProcessEvent, Send, Filed, Survives, Answers, Final, LoopOps, Advancing;
      LoopSplit(w, c, ds, id);
      TurnLegal(w, c, ds[0], id);
      var h := Deq(c).value.1.value.payload;
      var turn := TurnOps(w, h, ds[0]);
      var (r, done) := Turn(w, h, ds[0]).value;
      if done {
        assert turn + [] == turn;
      } else {
        var rest := LoopOps(r, Final(c, turn), ds[1..], id);
        LoopIsLegal(r, Final(c, turn), ds[1..], id);
        LegalAppend(c, turn, rest);
      }
    }
  }

  lemma StartFiled(id: int, unset: real)
    requires Put(Init(), Node(0.0, 0)).Ok?
    ensures Agree(Start(id, unset), id) && Start(id, unset).pending != map[]
    ensures Filed(Start(id, unset).pending, Put(Init(), Node(0.0, 0)).value)
    ensures Put(Init(), Node(0.0, 0)).value.lastprio == 0.0
  {
    var w := Start(id, unset);
    assert 0 in w.pending && w.pending.Keys == {0};
    InitOrdered();
    InitEmpty();
    PutConserves(Init(), Node(0.0, 0));
    assert Nodes(w.pending) == {Node(0.0, 0)};
  }

  lemma InitEmpty()
    ensures Items(Init().buckets) == multiset{}
  {
    ItemsEmpty(Init().buckets);
  }

  // ---------- runs that may not survive ----------

  lemma {:induction false} ForwardsAppend(c: Cal, a: seq<Op>, b: seq<Op>)
    requires Forwards(c, a) && (Survives(c, a) ==> Forwards(Final(c, a), b))
    ensures Forwards(c, a + b)
    decreases |a|
  {
    if a == [] {
      assert a + b == b;
    } else {
      assert c.lastprio >= 0.0;
      hide Step, Shape;
      assert (a + b)[1..] == a[1..] + b && (a + b)[0] == a[0];
      if Step(c, a[0]).Ok? {
        ForwardsAppend(Step(c, a[0]).value.0, a[1..], b);
      }
    }
  }

  /** The puts of an event are at or after its time, whether or not they succeed. */
  lemma {:induction false} PutsForward(next: int, sent: seq<Msg>, c: Cal)
    requires Shape(c) && c.resizeEnabled && forall i :: 0 <= i < |sent| ==> sent[i].timestamp >= c.lastprio
    ensures Forwards(c, Puts(sent, next))
    decreases |sent|
  {
    if sent != [] {
      var x := NodeOf(sent[0], next);
      assert Puts(sent, next)[0] == OpPut(x) && Puts(sent, next)[1..] == Puts(sent[1..], next + 1);
      if Put(c, x).Ok? {
        PutConserves(c, x);
        hide Shape, Put;
        PutsForward(next + 1, sent[1..], Put(c, x).value);
      }
    }
  }

  lemma GetForward(c: Cal, puts: seq<Op>)
    requires Shape(c) && c.resizeEnabled && (Deq(c).Ok? ==> Forwards(Deq(c).value.0, puts))
    ensures Forwards(c, [OpGet] + puts)
  {
    hide Shape, Deq;
    assert ([OpGet] + puts)[1..] == puts;
  }

  lemma TurnForward(w: World, c: Cal, d: Draws, id: int)
    requires Agree(w, id) && w.pending != map[] && Filed(w.pending, c) && Forward(d) && Deq(c).Ok?
    ensures var e := Deq(c).value.1;
      && e.Some? && e.value.payload in w.pending && Turn(w, e.value.payload, d).Some?
      && Forwards(c, TurnOps(w, e.value.payload, d))
  {
    hide ProcessEvent, Deq, Shape, Nodes, Items, Puts, Survives, Final;
    DeqFiled(w.pending, c);
    var (c1, e) := Deq(c).value;
    var h := e.value.payload;
    SentLater(w, h, d, id);
    TurnAgrees(w, h, d, id);
    var sent := ProcessEvent(w.pending[h], w.cell, d).value.sent;
    PutsForward(w.next, sent, c1);
    GetForward(c, Puts(sent, w.next));
  }

  /** The loop never puts an event before the last one handled, whether or not its run survives. */
  lemma {:induction false} LoopForward(w: World, c: Cal, ds: seq<Draws>, id: int)
    requires Agree(w, id) && w.pending != map[] && Filed(w.pending, c)
    requires forall d :: d in ds ==> Forward(d)
    ensures Forwards(c, LoopOps(w, c, ds, id))
    decreases |ds|
  {
    hide Step, Agree, Turn, TurnOps, ProcessEvent, Send, Survives, Answers, Final, Advancing, Deq, Nodes, Items, Shape;
    if ds != [] {
      hide LoopOps;
      LoopSplit(w, c, ds, id);
      if Deq(c).BadWidth? {
        GetForward(c, []);
        assert [OpGet] + [] == [OpGet];
      } else {
        TurnForward(w, c, ds[0], id);
        var h := Deq(c).value.1.value.payload;
        var turn := TurnOps(w, h, ds[0]);
        var (r, done) := Turn(w, h, ds[0]).value;
        if Survives(c, turn) {
          var rest := if done then [] else LoopOps(r, Final(c, turn), ds[1..], id);
          if !done {
            LoopForward(r, Final(c, turn), ds[1..], id);
          }
          ForwardsAppend(c, turn, rest);
        }
      }
    }
  }

  lemma FirstForward(c: Cal, x: Node, rest: seq<Op>)
    requires Shape(c) && c.resizeEnabled && x.priority >= c.lastprio >= 0.0
    requires Put(c, x).Ok? ==> Forwards(Put(c, x).value, rest)
    ensures Forwards(c, [OpPut(x)] + rest)
  {
    hide Shape, Put;
    assert ([OpPut(x)] + rest)[1..] == rest;
  }

  /** All queue operations of the program of one fiber, from calqueue_init on. */
  ghost function ProgramOps(id: int, unset: real, ds: seq<Draws>): (ops: seq<Op>)
    requires forall d :: d in ds ==> Forward(d)
    ensures Forwards(Init(), ops)
  {
    InitOrdered();
    var x := Node(0.0, 0);
    if Put(Init(), x).BadWidth? then
      FirstForward(Init(), x, []);
      [OpPut(x)] + []
    else
      StartFiled(id, unset);
      LoopForward(Start(id, unset), Put(Init(), x).value, ds, id);
      FirstForward(Init(), x, LoopOps(Start(id, unset), Put(Init(), x).value, ds, id));
      [OpPut(x)] + LoopOps(Start(id, unset), Put(Init(), x).value, ds, id)
  }

  lemma PutThen(c: Cal, x: Node, rest: seq<Op>)
    requires Shape(c) && x.priority >= 0.0 && Survives(c, [OpPut(x)] + rest)
    ensures Put(c, x).Ok? && Survives(Put(c, x).value, rest)
    ensures Answers(c, [OpPut(x)] + rest) == Answers(Put(c, x).value, rest)
  {
    hide Shape, Put;
    assert ([OpPut(x)] + rest)[1..] == rest && ([OpPut(x)] + rest)[0] == OpPut(x);
  }

  /** The program's operations are the first put and then those of the loop. */
  lemma ProgramIs(id: int, unset: real, ds: seq<Draws>)
    requires forall d :: d in ds ==> Forward(d)
    ensures Shape(Init()) && Init().lastprio == 0.0
    ensures Put(Init(), Node(0.0, 0)).Ok? ==>
      var w, c := Start(id, unset), Put(Init(), Node(0.0, 0)).value;
      && Agree(w, id) && w.pending != map[] && Filed(w.pending, c)
      && ProgramOps(id, unset, ds) == [OpPut(Node(0.0, 0))] + LoopOps(w, c, ds, id)
    ensures Put(Init(), Node(0.0, 0)).BadWidth? ==> ProgramOps(id, unset, ds) == [OpPut(Node(0.0, 0))] + []
  {
    hide Put, LoopOps, Filed, Agree, Shape;
    InitOrdered();
    if Put(Init(), Node(0.0, 0)).Ok? {
      StartFiled(id, unset);
    }
  }

  /** The simulation sees time go forward: the loop always meets the queue's demand on its callers, so
      that, as long as resizes find usable widths, every get finds an event; and if no get meets the
      queue in a missing state, events are handled in nondecreasing order of their times. */
  lemma EventsInOrder(id: int, unset: real, ds: seq<Draws>)
    requires forall d :: d in ds ==> Forward(d)
    requires Survives(Init(), ProgramOps(id, unset, ds))
    ensures forall e :: e in Answers(Init(), ProgramOps(id, unset, ds)) ==> e.Some?
    ensures NeverMisses(Init(), ProgramOps(id, unset, ds)) ==>
      Nondecreasing(Answers(Init(), ProgramOps(id, unset, ds)), 0.0)
  {
    hide Init, Shape, Put, ProgramOps, LoopOps, Survives, Answers, Nondecreasing, NeverMisses, Forwards, Legal, Ordered,
      Filed, Agree;
    ProgramIs(id, unset, ds);
    var x := Node(0.0, 0);
    if Put(Init(), x).BadWidth? {
      PutThen(Init(), x, []);
    } else {
      var w, c := Start(id, unset), Put(Init(), x).value;
      PutThen(Init(), x, LoopOps(w, c, ds, id));
      LoopIsLegal(w, c, ds, id);
    }
    InitOrdered();
    SurvivesExactly(Init(), ProgramOps(id, unset, ds));
    if NeverMisses(Init(), ProgramOps(id, unset, ds)) {
      GetsNondecreasing(Init(), ProgramOps(id, unset, ds));
    }
  }

  /** Off lag 1, for gets and samples alike: the program's run survives if and only if every resize
      samples a gap strictly between zero and twice the average gap; and then events are handled in
      nondecreasing order of their times, and every get finds one. */
  lemma GapsDecideTheProgram(id: int, unset: real, ds: seq<Draws>)
    requires forall d :: d in ds ==> Forward(d)
    requires OffLagOne(Init(), ProgramOps(id, unset, ds))
    ensures Survives(Init(), ProgramOps(id, unset, ds)) <==> KeepsGaps(Init(), ProgramOps(id, unset, ds))
    ensures Survives(Init(), ProgramOps(id, unset, ds)) ==>
      && Nondecreasing(Answers(Init(), ProgramOps(id, unset, ds)), 0.0)
      && forall e :: e in Answers(Init(), ProgramOps(id, unset, ds)) ==> e.Some?
  {
    InitGoodLag();
    hide ProgramOps, Init, Survives, KeepsGaps, OffLagOne, Forwards, Answers, Nondecreasing, NeverMisses;
    GapsDecide(Init(), ProgramOps(id, unset, ds));
    if Survives(Init(), ProgramOps(id, unset, ds)) {
      EventsInOrder(id, unset, ds);
    }
  }
}
