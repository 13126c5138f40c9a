/** A run of the simulation itself that handles two events out of order. */
module GsmExamples {
  import opened Common
  import opened Calendar
  import opened CalendarOps
  import opened CalendarOrder
  import opened CalendarRuns
  import opened CalendarExamples
  import opened Gsm
  import opened GsmRuns
  import P = GsmProgram

  // ---------- the queue ----------

  ghost predicate RunsTo(c: Cal, ops: seq<Op>, r: Cal) {
    Survives(c, ops) && Final(c, ops) == r
  }

  lemma RunsOn(c: Cal, op: Op, rest: seq<Op>, mid: Cal, out: seq<Option<Node>>, r: Cal)
    requires Shape(c) && c.resizeEnabled && (op.OpPut? ==> op.x.priority >= 0.0)
    requires Step(c, op) == Ok((mid, out)) && RunsTo(mid, rest, r)
    ensures RunsTo(c, [op] + rest, r)
  {
    hide Shape, Step;
    assert ([op] + rest)[1..] == rest;
  }

  lemma RunsNowhere(c: Cal)
    requires Shape(c) && c.resizeEnabled
    ensures RunsTo(c, [], c)
  {
  }

  lemma GetSteps(c: Cal, r: Cal, e: Node)
    requires Shape(c) && Step(c, OpGet) == Ok((r, [Some(e)]))
    ensures Deq(c).Ok? && Deq(c).value == (r, Some(e))
  {
    hide Shape, Deq;
  }

  /** Putting and getting an event at 0.0 leads back to the initial queue. */
  lemma ThereAndBack(z: Node)
    requires z.priority == 0.0
    ensures Init() == Small([], [], 0, 0.0, 0, 1.5) && Shape(Init()) && Shape(Small([z], [], 1, 0.0, 0, 1.5))
    ensures Step(Init(), OpPut(z)) == Ok((Small([z], [], 1, 0.0, 0, 1.5), []))
    ensures Step(Small([z], [], 1, 0.0, 0, 1.5), OpGet) == Ok((Init(), [Some(z)]))
  {
    InitOrdered();
    assert VirtualBucket(0.0, 1.0) == 0;
    assert Init() == Small([], [], 0, 0.0, 0, 1.5);
    PutSmall([], [], 0, 0.0, 0, 1.5, z);
    assert Insert([], z) == [z];
    PutConserves(Init(), z);
    var c := Small([z], [], 1, 0.0, 0, 1.5);
    SweepSmall(c);
    NextSmall(c, 0, 0);
    assert [z][1..] == [] && c.buckets[0 := []] == [[], []];
    GetSmall(c, z, 0, 0, Init());
  }

  /** A put behind all nodes of its bucket. */
  lemma PutLast(b0: Bucket, b1: Bucket, q: nat, last: real, lb: int, top: real, x: Node, r: Cal)
    requires Shape(Small(b0, b1, q, last, lb, top)) && x.priority >= 0.0 && q < 4
    requires var b := if x.priority.Floor % 2 == 0 then b0 else b1;
      forall i :: 0 <= i < |b| ==> b[i].priority <= x.priority
    requires r == if x.priority.Floor % 2 == 0 then Small(b0 + [x], b1, q + 1, last, lb, top)
      else Small(b0, b1 + [x], q + 1, last, lb, top)
    ensures Step(Small(b0, b1, q, last, lb, top), OpPut(x)) == Ok((r, [])) && Shape(r)
  {
    hide Shape, Put;
    PutSmall(b0, b1, q, last, lb, top, x);
    InsertLast(if x.priority.Floor % 2 == 0 then b0 else b1, x);
    hide Small, Insert;
    PutConserves(Small(b0, b1, q, last, lb, top), x);
  }

  /** 4.2 has overtaken 3.7; then 5.2 and 6.2 are put. */
  lemma LaterPuts(b: Node, f: Node, g: Node)
    requires b.priority == 3.7 && f.priority == 5.2 && g.priority == 6.2 && Shape(Small([], [b], 1, 4.2, 0, 4.5))
    ensures Step(Small([], [b], 1, 4.2, 0, 4.5), OpPut(f)) == Ok((Small([], [b, f], 2, 4.2, 0, 4.5), []))
    ensures Shape(Small([], [b, f], 2, 4.2, 0, 4.5)) && Shape(Small([g], [b, f], 3, 4.2, 0, 4.5))
    ensures Step(Small([], [b, f], 2, 4.2, 0, 4.5), OpPut(g)) == Ok((Small([g], [b, f], 3, 4.2, 0, 4.5), []))
  {
    hide Shape, Step;
    assert [b] + [f] == [b, f] && [] + [g] == [g];
    PutLast([], [b], 1, 4.2, 0, 4.5, f, Small([], [b, f], 2, 4.2, 0, 4.5));
    PutLast([], [b, f], 2, 4.2, 0, 4.5, g, Small([g], [b, f], 3, 4.2, 0, 4.5));
  }

  /** Now the sweep finds 3.7. */
  lemma ThirdGet(b: Node, f: Node, g: Node)
    requires b.priority == 3.7 && f.priority == 5.2 && g.priority == 6.2 && Shape(Small([g], [b, f], 3, 4.2, 0, 4.5))
    ensures Step(Small([g], [b, f], 3, 4.2, 0, 4.5), OpGet) == Ok((Small([g], [f], 2, 3.7, 1, 5.5), [Some(b)]))
    ensures Shape(Small([g], [f], 2, 3.7, 1, 5.5))
  {
    var c, r := Small([g], [b, f], 3, 4.2, 0, 4.5), Small([g], [f], 2, 3.7, 1, 5.5);
    SweepSmall(c);
    NextSmall(c, 1, 1);
    assert [b, f][1..] == [f] && c.buckets[1 := [f]] == r.buckets;
    GetSmall(c, b, 1, 1, r);
    DeqConserves(c);
  }

  // ---------- the events ----------

  /** The loop, about to take a turn, gets exactly the events `es` with the given random times. */
  ghost predicate Handles(id: int, w: World, c: Cal, ds: seq<Draws>, es: seq<Option<Node>>) {
    && P.CanTurn(w, c, id) && (forall d :: d in ds ==> Forward(d))
    && Survives(c, LoopOps(w, c, ds, id)) && Answers(c, LoopOps(w, c, ds, id)) == es
  }

  /** One turn, followed by the rest of the loop. */
  lemma LoopTurn(id: int, w: World, c: Cal, d: Draws, e: Node, r: World, mid: Cal, c': Cal, ds: seq<Draws>,
          es: seq<Option<Node>>)
    requires P.CanTurn(w, c, id) && Forward(d)
    requires Step(c, OpGet) == Ok((mid, [Some(e)])) && e.payload in w.pending
    requires Turn(w, e.payload, d) == Some((r, false)) && RunsTo(c, TurnOps(w, e.payload, d), c')
    ensures P.CanTurn(r, c', id)
    ensures Handles(id, r, c', ds, es) ==> Handles(id, w, c, [d] + ds, [Some(e)] + es)
  {
    hide Agree, Turn, TurnOps, Shape, Deq, LoopOps, Survives, Final, Answers, Nodes, Items;
    GetSteps(c, mid, e);
    LoopSplit(w, c, [d], id);
    TurnLegal(w, c, d, id);
    if Handles(id, r, c', ds, es) {
      assert forall x :: x in [d] + ds ==> Forward(x);
      LoopSplit(w, c, [d] + ds, id);
      assert ([d] + ds)[1..] == ds;
      LoopIsLegal(r, c', ds, id);
      LegalAppend(c, TurnOps(w, e.payload, d), LoopOps(r, c', ds, id));
    }
  }

  /** After INIT. */
  function World1(id: int, d: Draws): World {
    World(Some(InitialState), map[1 := Msg(id, id, START_CALL, d.first, -1)], 2)
  }

  lemma InitTurn(id: int, unset: real, d: Draws)
    ensures Turn(Start(id, unset), 0, d) == Some((World1(id, d), false))
    ensures TurnOps(Start(id, unset), 0, d) == [OpGet] + ([OpPut(Node(d.first, 1))] + [])
  {
    var m := Msg(id, id, START_CALL, d.first, -1);
    SendOne(map[], 1, m);
    assert Start(id, unset).pending - {0} == map[];
    assert [m][1..] == [];
  }

  /** The state after a START_CALL that takes channel k. */
  function Admitted(s: State, now: real, k: int): State {
    s.(lvt := now, executedEvents := s.executedEvents + 1, arrivingCalls := s.arrivingCalls + 1,
      channelCounter := if s.channelCounter > 0 then s.channelCounter - 1 else 0,
      busy := s.busy + {k}, channels := [k] + s.channels)
  }

  lemma StartTurn(w: World, h: int, d: Draws, k: int)
    requires w.cell.Some? && h in w.pending && w.pending[h].kind == START_CALL
    requires w.cell.value.channelCounter > 0 && FirstFree(w.cell.value.busy, 0) == k < CHANNELS_PER_CELL
    ensures var me, now := w.pending[h].receiver, w.pending[h].timestamp;
      var pending := (w.pending - {h})[w.next := Msg(me, me, END_CALL, now + d.first, k)]
        [w.next + 1 := Msg(me, me, START_CALL, now + d.second, -1)];
      && Turn(w, h, d) == Some((World(Some(Admitted(w.cell.value, now, k)), pending, w.next + 2), false))
      && TurnOps(w, h, d) ==
        [OpGet] + ([OpPut(Node(now + d.first, w.next))] + ([OpPut(Node(now + d.second, w.next + 1))] + []))
  {
    hide FirstFree;
    var me, now := w.pending[h].receiver, w.pending[h].timestamp;
    var m, n := Msg(me, me, END_CALL, now + d.first, k), Msg(me, me, START_CALL, now + d.second, -1);
    assert ProcessEvent(w.pending[h], w.cell, d) == Some(Processed(Admitted(w.cell.value, now, k), [m, n], false));
    hide ProcessEvent;
    SendTwo(w.pending - {h}, w.next, m, n);
    assert [m, n][1..] == [n];
    assert Puts([n], w.next + 1) == [OpPut(NodeOf(n, w.next + 1))] + [];
  }

  lemma EndTurn(w: World, h: int, d: Draws)
    requires w.cell.Some? && h in w.pending && w.pending[h].kind == END_CALL
    requires Deallocation(w.cell.value, w.pending[h].channel).Some? && w.cell.value.completeCalls + 1 != COMPLETE_CALLS
    ensures Turn(w, h, d).Some? && !Turn(w, h, d).value.1 && TurnOps(w, h, d) == [OpGet]
  {
    assert [OpGet] + [] == [OpGet];
  }

  // ---------- the run ----------

  const First := Draws(3.0, 0.0)
  const Second := Draws(0.7, 1.2)
  const Third := Draws(1.0, 2.0)

  function World2(id: int): World {
    World(Some(Admitted(InitialState, 3.0, 0)),
          map[2 := Msg(id, id, END_CALL, 3.7, 0), 3 := Msg(id, id, START_CALL, 4.2, -1)], 4)
  }

  function World3(id: int): World {
    World(Some(Admitted(Admitted(InitialState, 3.0, 0), 4.2, 1)),
          map[2 := Msg(id, id, END_CALL, 3.7, 0), 4 := Msg(id, id, END_CALL, 5.2, 1),
            5 := Msg(id, id, START_CALL, 6.2, -1)], 6)
  }

  lemma SecondTurn(id: int)
    ensures Turn(World1(id, First), 1, Second) == Some((World2(id), false))
    ensures TurnOps(World1(id, First), 1, Second) == [OpGet] + ([OpPut(Node(3.7, 2))] + ([OpPut(Node(4.2, 3))] + []))
  {
    StartTurn(World1(id, First), 1, Second, 0);
    assert World1(id, First).pending - {1} == map[];
  }

  lemma ThirdTurn(id: int)
    ensures Turn(World2(id), 3, Third) == Some((World3(id), false))
    ensures TurnOps(World2(id), 3, Third) == [OpGet] + ([OpPut(Node(5.2, 4))] + ([OpPut(Node(6.2, 5))] + []))
  {
    var w := World2(id);
    assert FirstFree(w.cell.value.busy, 0) == 1 by { assert FirstFree(w.cell.value.busy, 1) == 1; }
    StartTurn(w, 3, Third, 1);
    assert w.pending - {3} == map[2 := Msg(id, id, END_CALL, 3.7, 0)];
  }

  lemma FourthTurn(id: int, d: Draws)
    ensures Turn(World3(id), 2, d).Some? && !Turn(World3(id), 2, d).value.1 && TurnOps(World3(id), 2, d) == [OpGet]
  {
    var s := World3(id).cell.value;
    assert s.channels == [1, 0];
    assert IndexOf(s.channels, 0, 0) == 1 by { assert IndexOf(s.channels, 0, 1) == 1; }
    EndTurn(World3(id), 2, d);
  }

  lemma FirstRuns(z: Node, a: Node)
    requires z.priority == 0.0 && a.priority == 3.0
    ensures Shape(Small([z], [], 1, 0.0, 0, 1.5))
    ensures RunsTo(Small([z], [], 1, 0.0, 0, 1.5), [OpGet] + ([OpPut(a)] + []), Small([], [a], 1, 0.0, 0, 1.5))
  {
    hide Shape, Step, RunsTo, Init;
    var c0, c1 := Small([z], [], 1, 0.0, 0, 1.5), Small([], [a], 1, 0.0, 0, 1.5);
    ThereAndBack(z);
    FirstPut(a);
    RunsNowhere(c1);
    RunsOn(Init(), OpPut(a), [], c1, [], c1);
    RunsOn(c0, OpGet, [OpPut(a)] + [], Init(), [Some(z)], c1);
  }

  lemma SecondRuns(a: Node, b: Node, d: Node)
    requires a.priority == 3.0 && b.priority == 3.7 && d.priority == 4.2 && Shape(Small([], [a], 1, 0.0, 0, 1.5))
    ensures RunsTo(Small([], [a], 1, 0.0, 0, 1.5), [OpGet] + ([OpPut(b)] + ([OpPut(d)] + [])),
      Small([d], [b], 2, 3.0, 1, 3.5))
  {
    hide Shape, Step, RunsTo;
    var c1, m1 := Small([], [a], 1, 0.0, 0, 1.5), Small([], [], 0, 3.0, 1, 3.5);
    var m2, c2 := Small([], [b], 1, 3.0, 1, 3.5), Small([d], [b], 2, 3.0, 1, 3.5);
    FirstGet(a);
    SecondPut(b);
    ThirdPut(b, d);
    RunsNowhere(c2);
    RunsOn(m2, OpPut(d), [], c2, [], c2);
    RunsOn(m1, OpPut(b), [OpPut(d)] + [], m2, [], c2);
    RunsOn(c1, OpGet, [OpPut(b)] + ([OpPut(d)] + []), m1, [Some(a)], c2);
  }

  lemma ThirdRuns(b: Node, d: Node, f: Node, g: Node)
    requires b.priority == 3.7 && d.priority == 4.2 && f.priority == 5.2 && g.priority == 6.2
    requires Shape(Small([d], [b], 2, 3.0, 1, 3.5))
    ensures RunsTo(Small([d], [b], 2, 3.0, 1, 3.5), [OpGet] + ([OpPut(f)] + ([OpPut(g)] + [])),
      Small([g], [b, f], 3, 4.2, 0, 4.5))
  {
    hide Shape, Step, RunsTo;
    var c2, m1 := Small([d], [b], 2, 3.0, 1, 3.5), Small([], [b], 1, 4.2, 0, 4.5);
    var m2, c3 := Small([], [b, f], 2, 4.2, 0, 4.5), Small([g], [b, f], 3, 4.2, 0, 4.5);
    SecondGet(b, d);
    LaterPuts(b, f, g);
    RunsNowhere(c3);
    RunsOn(m2, OpPut(g), [], c3, [], c3);
    RunsOn(m1, OpPut(f), [OpPut(g)] + [], m2, [], c3);
    RunsOn(c2, OpGet, [OpPut(f)] + ([OpPut(g)] + []), m1, [Some(d)], c3);
  }

  lemma FourthRuns(b: Node, f: Node, g: Node)
    requires b.priority == 3.7 && f.priority == 5.2 && g.priority == 6.2 && Shape(Small([g], [b, f], 3, 4.2, 0, 4.5))
    ensures RunsTo(Small([g], [b, f], 3, 4.2, 0, 4.5), [OpGet], Small([g], [f], 2, 3.7, 1, 5.5))
  {
    hide Shape, Step, RunsTo;
    var c3, c4 := Small([g], [b, f], 3, 4.2, 0, 4.5), Small([g], [f], 2, 3.7, 1, 5.5);
    ThirdGet(b, f, g);
    RunsNowhere(c4);
    RunsOn(c3, OpGet, [], c4, [Some(b)], c4);
    assert [OpGet] + [] == [OpGet];
  }

  const Z := Node(0.0, 0)
  const A := Node(3.0, 1)
  const B := Node(3.7, 2)
  const D := Node(4.2, 3)
  const F := Node(5.2, 4)
  const G := Node(6.2, 5)

  lemma TurnOne(id: int, unset: real, ds: seq<Draws>, es: seq<Option<Node>>)
    requires P.CanTurn(Start(id, unset), Small([Z], [], 1, 0.0, 0, 1.5), id)
    ensures P.CanTurn(World1(id, First), Small([], [A], 1, 0.0, 0, 1.5), id)
    ensures Handles(id, World1(id, First), Small([], [A], 1, 0.0, 0, 1.5), ds, es) ==>
      Handles(id, Start(id, unset), Small([Z], [], 1, 0.0, 0, 1.5), [First] + ds, [Some(Z)] + es)
  {
    hide P.CanTurn, Handles, Turn, TurnOps, Shape, Step, RunsTo, Small, Init;
    ThereAndBack(Z);
    InitTurn(id, unset, First);
    FirstRuns(Z, A);
    LoopTurn(id, Start(id, unset), Small([Z], [], 1, 0.0, 0, 1.5), First, Z, World1(id, First), Init(),
             Small([], [A], 1, 0.0, 0, 1.5), ds, es);
  }

  lemma TurnTwo(id: int, ds: seq<Draws>, es: seq<Option<Node>>)
    requires P.CanTurn(World1(id, First), Small([], [A], 1, 0.0, 0, 1.5), id) && Shape(Small([], [A], 1, 0.0, 0, 1.5))
    ensures P.CanTurn(World2(id), Small([D], [B], 2, 3.0, 1, 3.5), id)
    ensures Handles(id, World2(id), Small([D], [B], 2, 3.0, 1, 3.5), ds, es) ==>
      Handles(id, World1(id, First), Small([], [A], 1, 0.0, 0, 1.5), [Second] + ds, [Some(A)] + es)
  {
    hide P.CanTurn, Handles, Turn, TurnOps, Shape, Step, RunsTo, Small;
    FirstGet(A);
    SecondTurn(id);
    SecondRuns(A, B, D);
    LoopTurn(id, World1(id, First), Small([], [A], 1, 0.0, 0, 1.5), Second, A, World2(id),
             Small([], [], 0, 3.0, 1, 3.5), Small([D], [B], 2, 3.0, 1, 3.5), ds, es);
  }

  lemma TurnThree(id: int, ds: seq<Draws>, es: seq<Option<Node>>)
    requires P.CanTurn(World2(id), Small([D], [B], 2, 3.0, 1, 3.5), id) && Shape(Small([D], [B], 2, 3.0, 1, 3.5))
    ensures P.CanTurn(World3(id), Small([G], [B, F], 3, 4.2, 0, 4.5), id)
    ensures Handles(id, World3(id), Small([G], [B, F], 3, 4.2, 0, 4.5), ds, es) ==>
      Handles(id, World2(id), Small([D], [B], 2, 3.0, 1, 3.5), [Third] + ds, [Some(D)] + es)
  {
    hide P.CanTurn, Handles, Turn, TurnOps, Shape, Step, RunsTo, Small;
    SecondGet(B, D);
    ThirdTurn(id);
    ThirdRuns(B, D, F, G);
    LoopTurn(id, World2(id), Small([D], [B], 2, 3.0, 1, 3.5), Third, D, World3(id), Small([], [B], 1, 4.2, 0, 4.5),
             Small([G], [B, F], 3, 4.2, 0, 4.5), ds, es);
  }

  /** The fourth turn is the end of the loop for want of random times. */
  lemma TurnFour(id: int, d: Draws)
    requires P.CanTurn(World3(id), Small([G], [B, F], 3, 4.2, 0, 4.5), id) && Shape(Small([G], [B, F], 3, 4.2, 0, 4.5))
    requires Forward(d)
    ensures Handles(id, World3(id), Small([G], [B, F], 3, 4.2, 0, 4.5), [d] + [], [Some(B)] + [])
  {
    hide P.CanTurn, Turn, TurnOps, Shape, Step, RunsTo, Small;
    ThirdGet(B, F, G);
    FourthTurn(id, d);
    FourthRuns(B, F, G);
    var r := Turn(World3(id), 2, d).value.0;
    var c4 := Small([G], [F], 2, 3.7, 1, 5.5);
    LoopTurn(id, World3(id), Small([G], [B, F], 3, 4.2, 0, 4.5), d, B, r, c4, c4, [], []);
    HandlesNothing(id, r, c4);
  }

  lemma HandlesNothing(id: int, w: World, c: Cal)
    requires P.CanTurn(w, c, id)
    ensures Handles(id, w, c, [], [])
  {
  }

  lemma FourTurns(id: int, unset: real, last: Draws)
    requires P.CanTurn(Start(id, unset), Small([Z], [], 1, 0.0, 0, 1.5), id) && Forward(last)
    ensures Handles(id, Start(id, unset), Small([Z], [], 1, 0.0, 0, 1.5),
                    [First] + ([Second] + ([Third] + ([last] + []))),
                    [Some(Z)] + ([Some(A)] + ([Some(D)] + ([Some(B)] + []))))
  {
    hide P.CanTurn, Handles, Shape, Step, RunsTo, Small, Init;
    FirstRuns(Z, A);
    TurnOne(id, unset, [Second] + ([Third] + ([last] + [])), [Some(A)] + ([Some(D)] + ([Some(B)] + [])));
    FirstPut(A);
    TurnTwo(id, [Third] + ([last] + []), [Some(D)] + ([Some(B)] + []));
    FirstGet(A);
    SecondPut(B);
    ThirdPut(B, D);
    TurnThree(id, [last] + [], [Some(B)] + []);
    SecondGet(B, D);
    LaterPuts(B, F, G);
    TurnFour(id, last);
  }

  lemma OutOfOrder(outs: seq<Option<Node>>)
    requires outs == [Some(Z)] + ([Some(A)] + ([Some(D)] + ([Some(B)] + [])))
    ensures !Nondecreasing(outs, 0.0)
  {
    assert outs[1..] == [Some(A)] + ([Some(D)] + ([Some(B)] + []));
    assert outs[1..][1..] == [Some(D)] + ([Some(B)] + []);
    assert outs[1..][1..][1..] == [Some(B)] + [];
    assert !Nondecreasing(outs[1..][1..][1..], 4.2);
    assert !Nondecreasing(outs[1..][1..], 3.0);
  }

  /** With a first call at 3.0 that lasts 0.7 and is followed by the next after 1.2, which lasts 1.0, the
      program handles the event at 4.2 before that at 3.7. */
  lemma EventsOutOfOrder(id: int, unset: real, last: Draws)
    requires Forward(last)
    ensures forall d :: d in [First] + ([Second] + ([Third] + ([last] + []))) ==> Forward(d)
    ensures var ops := ProgramOps(id, unset, [First] + ([Second] + ([Third] + ([last] + []))));
      && Survives(Init(), ops)
      && Answers(Init(), ops) == [Some(Z)] + ([Some(A)] + ([Some(D)] + ([Some(B)] + [])))
      && !Nondecreasing(Answers(Init(), ops), 0.0)
  {
    var ds := [First] + ([Second] + ([Third] + ([last] + [])));
    assert forall d :: d in ds ==> Forward(d);
    hide Shape, Small, Init, Put, LoopOps, Agree, Filed, Survives, Answers, Nondecreasing, ProgramOps;
    var c := Small([Z], [], 1, 0.0, 0, 1.5);
    ThereAndBack(Z);
    ProgramIs(id, unset, ds);
    FourTurns(id, unset, last);
    RunsOn(Init(), OpPut(Z), LoopOps(Start(id, unset), c, ds, id), c, [],
      Final(c, LoopOps(Start(id, unset), c, ds, id)));
    PutThen(Init(), Z, LoopOps(Start(id, unset), c, ds, id));
    OutOfOrder(Answers(Init(), ProgramOps(id, unset, ds)));
  }
}
