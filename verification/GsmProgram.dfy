/**
 The program of one fiber in 2018-fibers/src: ProcessEvent (model.c) and the loop of main_loop
 (main.c), with the cell in `GsmCell` and the calendar queue in `CalendarQueue`.  The random times
 are parameters, one pair for each turn of the loop.  The queue holds the addresses of events.
 */
module GsmProgram {
  import opened Common
  import opened Calendar
  import opened CalendarOps
  import opened CalendarRuns
  import opened CalendarResizing
  import Q = CalendarQueue
  import C = GsmCell
  import G = Gsm
  import ChannelBits
  import opened GsmRuns

  /** How ProcessEvent ends: with its return value, with an abort, or in a put that finds no usable
      bucket width. */
  datatype Ending = Returned(done: bool) | Aborted | NoWidth

  /** How the loop ends; the last is the end of the given random times. */
  datatype Exit = CallsComplete | NoEvents | WrongReceiver | Abort | WidthUnusable | TimesUsed

  lemma NoPuts(c: Cal, next: int)
    requires Settled(c)
    ensures Survives(c, Puts([], next)) && Final(c, Puts([], next)) == c
  {
  }

  lemma OnePut(c: Cal, m: G.Msg, next: int)
    requires Settled(c) && m.timestamp >= 0.0
    ensures Survives(c, Puts([m], next)) <==> Put(c, NodeOf(m, next)).Ok?
    ensures Put(c, NodeOf(m, next)).Ok? ==> Final(c, Puts([m], next)) == Put(c, NodeOf(m, next)).value
  {
    assert Puts([m], next) == [OpPut(NodeOf(m, next))];
    if Put(c, NodeOf(m, next)).Ok? {
      PutSettled(c, NodeOf(m, next));
    }
  }

  lemma TwoPuts(c: Cal, m: G.Msg, n: G.Msg, next: int)
    requires Settled(c) && m.timestamp >= 0.0 && n.timestamp >= 0.0
    ensures Put(c, NodeOf(m, next)).BadWidth? ==> !Survives(c, Puts([m, n], next))
    ensures Put(c, NodeOf(m, next)).Ok? ==>
      var c1 := Put(c, NodeOf(m, next)).value;
      && Settled(c1)
      && (Survives(c, Puts([m, n], next)) <==> Put(c1, NodeOf(n, next + 1)).Ok?)
      && (Put(c1, NodeOf(n, next + 1)).Ok? ==> Final(c, Puts([m, n], next)) == Put(c1, NodeOf(n, next + 1)).value)
  {
    assert [m, n][1..] == [n];
    assert Puts([m, n], next)[1..] == Puts([n], next + 1);
    if Put(c, NodeOf(m, next)).Ok? {
      PutSettled(c, NodeOf(m, next));
      OnePut(Put(c, NodeOf(m, next)).value, n, next + 1);
    }
  }

  /** One turn of the loop on values: the get finds an event of this fiber, and ProcessEvent does
      not abort. */
  lemma TurnOnValues(w: G.World, c: Cal, d: G.Draws, id: int)
    requires G.Agree(w, id) && w.pending != map[] && Filed(w.pending, c) && G.Forward(d) && Deq(c).Ok?
    ensures var (c1, e) := Deq(c).value;
      && e.Some? && e.value.payload in w.pending
      && var h := e.value.payload;
         && w.pending[h].receiver == id && Priority(w.pending[h]) >= 0.0
         && G.ProcessEvent(w.pending[h], w.cell, d).Some?
         && var p := G.ProcessEvent(w.pending[h], w.cell, d).value;
            var (pending, next) := G.Send(w.pending - {h}, w.next, p.sent);
            && G.Turn(w, h, d) == Some((G.World(Some(p.state), pending, next), p.done))
            && (Survives(c, TurnOps(w, h, d)) <==> Survives(c1, Puts(p.sent, w.next)))
            && (Survives(c1, Puts(p.sent, w.next)) ==> Final(c, TurnOps(w, h, d)) == Final(c1, Puts(p.sent, w.next)))
  {
    hide G.ProcessEvent, Survives, Final, Deq, Puts, G.Send, Shape;
    DeqFiled(w.pending, c);
    var h := Deq(c).value.1.value.payload;
    G.TurnAgrees(w, h, d, id);
    GetThen(c, Puts(G.ProcessEvent(w.pending[h], w.cell, d).value.sent, w.next));
  }

  lemma GetThen(c: Cal, puts: seq<Op>)
    requires Shape(c) && c.resizeEnabled && Deq(c).Ok?
    ensures Survives(c, [OpGet] + puts) <==> Survives(Deq(c).value.0, puts)
    ensures Survives(Deq(c).value.0, puts) ==> Final(c, [OpGet] + puts) == Final(Deq(c).value.0, puts)
  {
    hide Shape, Deq;
    assert ([OpGet] + puts)[1..] == puts;
  }

  /** From turn i on the loop at w and c does the rest of the program's queue operations. */
  ghost predicate Rest(id: int, unset: real, ds: seq<G.Draws>, w: G.World, c: Cal, i: nat)
    requires i <= |ds| && G.Agree(w, id) && w.pending != map[] && Filed(w.pending, c)
    requires forall d :: d in ds ==> G.Forward(d)
  {
    var all, rest := ProgramOps(id, unset, ds), LoopOps(w, c, ds[i..], id);
    && (Survives(Init(), all) <==> Survives(c, rest))
    && (Survives(Init(), all) ==> Final(Init(), all) == Final(c, rest))
  }

  lemma ProgramSplit(id: int, unset: real, ds: seq<G.Draws>)
    requires forall d :: d in ds ==> G.Forward(d)
    ensures Settled(Init())
    ensures var r := Put(Init(), Node(0.0, 0)); var w := G.Start(id, unset);
      if r.BadWidth? then !Survives(Init(), ProgramOps(id, unset, ds))
      else LoopInv(id, unset, ds, w, r.value, 0)
  {
    hide Put, LoopOps, Settled, Filed, G.Agree, Shape;
    InitSettled();
    FirstPut();
    var first := OpPut(Node(0.0, 0));
    if Put(Init(), first.x).Ok? {
      StartFiled(id, unset);
      var c := Put(Init(), first.x).value;
      var rest := LoopOps(G.Start(id, unset), c, ds, id);
      assert ([first] + rest)[1..] == rest;
      assert ds[0..] == ds;
    }
  }

  lemma FirstPut()
    ensures Shape(Init()) && Init().resizeEnabled
  {
    InitSettled();
  }

  /** The loop can take a turn. */
  ghost predicate CanTurn(w: G.World, c: Cal, id: int) {
    G.Agree(w, id) && w.pending != map[] && Filed(w.pending, c)
  }

  /** The world and the queue after one turn, and whether the loop ends; None if a resize finds no usable
      width. */
  ghost function TurnOutcome(w: G.World, c: Cal, d: G.Draws, id: int): Option<(G.World, Cal, bool)>
    requires CanTurn(w, c, id) && G.Forward(d)
  {
    if Deq(c).BadWidth? then None
    else
      TurnOnValues(w, c, d, id);
      var h := Deq(c).value.1.value.payload;
      if !Survives(c, TurnOps(w, h, d)) then None
      else Some((G.Turn(w, h, d).value.0, Final(c, TurnOps(w, h, d)), G.Turn(w, h, d).value.1))
  }

  /** Before turn i. */
  ghost predicate LoopInv(id: int, unset: real, ds: seq<G.Draws>, w: G.World, c: Cal, i: nat) {
    && i <= |ds| && (forall d :: d in ds ==> G.Forward(d))
    && CanTurn(w, c, id) && G.Completed(w) < G.COMPLETE_CALLS && Rest(id, unset, ds, w, c, i)
  }

  /** When the loop has ended without an unusable width. */
  ghost predicate LoopDone(id: int, unset: real, ds: seq<G.Draws>, w: G.World, c: Cal)
    requires forall d :: d in ds ==> G.Forward(d)
  {
    G.Agree(w, id) && Survives(Init(), ProgramOps(id, unset, ds)) && Final(Init(), ProgramOps(id, unset, ds)) == c
  }

  /** One turn on, or the end. */
  lemma LoopStep(id: int, unset: real, ds: seq<G.Draws>, w: G.World, c: Cal, i: nat)
    requires i < |ds| && LoopInv(id, unset, ds, w, c, i)
    ensures G.Forward(ds[i])
    ensures var o := TurnOutcome(w, c, ds[i], id);
      && (o.None? ==> !Survives(Init(), ProgramOps(id, unset, ds)))
      && (o.Some? && o.value.2 ==>
        LoopDone(id, unset, ds, o.value.0, o.value.1) && G.Completed(o.value.0) == G.COMPLETE_CALLS)
      && (o.Some? && !o.value.2 ==> LoopInv(id, unset, ds, o.value.0, o.value.1, i + 1))
  {
    hide G.Agree, G.Turn, Shape, TurnOps, Survives, Final, Deq, LoopOps, ProgramOps, Init;
    LoopSplit(w, c, ds[i..], id);
    assert ds[i..][1..] == ds[i + 1..];
    if Deq(c).Ok? {
      var h := Deq(c).value.1.value.payload;
      G.TurnAgrees(w, h, ds[i], id);
      var turn := TurnOps(w, h, ds[i]);
      if Survives(c, turn) {
        NoOps(Final(c, turn));
      }
    }
  }

  lemma LoopCanTurn(id: int, unset: real, ds: seq<G.Draws>, w: G.World, c: Cal, i: nat)
    requires LoopInv(id, unset, ds, w, c, i)
    ensures CanTurn(w, c, id)
  {
  }

  lemma LoopEnds(id: int, unset: real, ds: seq<G.Draws>, w: G.World, c: Cal)
    requires LoopInv(id, unset, ds, w, c, |ds|)
    ensures LoopDone(id, unset, ds, w, c) && G.Completed(w) < G.COMPLETE_CALLS
  {
    assert ds[|ds|..] == [];
    NoOps(c);
  }

  lemma NoOps(c: Cal)
    requires Shape(c) && c.resizeEnabled
    ensures Survives(c, []) && Final(c, []) == c
  {
  }

  lemma AgreedCell(w: G.World, id: int)
    requires G.Agree(w, id) && w.cell.Some?
    ensures G.InRange(w.cell.value.channels)
  {
  }

  class Simulation {
    const q: Q.CalQueue
    var state: C.Cell?
    /** The events in the queue, by address. */
    var messages: map<int, G.Msg>
    var next: int

    ghost function CellRepr(): set<object>
      reads this, state
    {
      if state == null then {} else {state, state.channelState} + state.nodes
    }

    ghost predicate Valid()
      reads this, q, q.calq, state, CellRepr()
    {
      q.Valid() && (state != null ==> state.Valid())
    }

    ghost function Cell(): Option<G.State>
      reads this, state, if state == null then {} else {state.channelState}
      requires state != null ==> state.channelState.Length == C.WORDS
    {
      if state == null then None else Some(state.Abs())
    }

    ghost function World(): G.World
      reads this, state, if state == null then {} else {state.channelState}
      requires state != null ==> state.channelState.Length == C.WORDS
    {
      G.World(Cell(), messages, next)
    }

    constructor ()
      ensures Valid() && fresh(q) && fresh(q.calq) && q.Abs() == Init() && World() == G.World(None, map[], 0)
    {
      q := new Q.CalQueue();
      state := null;
      messages := map[];
      next := 0;
    }

    /** pack_event and calqueue_put. */
    method Send(priority: real, msg: G.Msg) returns (ok: bool)
      requires Valid() && priority >= 0.0
      modifies this`messages, this`next, q, q.calq
      ensures ok <==> Put(old(q.Abs()), Node(priority, old(next))).Ok?
      ensures ok ==> Valid() && q.Abs() == Put(old(q.Abs()), Node(priority, old(next))).value
      ensures messages == old(messages)[old(next) := msg] && next == old(next) + 1
      ensures state != null ==> state.Valid()
      ensures Cell() == old(Cell())
    {
      hide CalendarOps.Put, Layout, Placed, Items;
      ghost var c := q.Abs();
      messages := messages[next := msg];
      next := next + 1;
      ok := q.Put(priority, next - 1);
      if ok {
        PutSettled(c, Node(priority, next - 1));
      }
    }

    /** The two puts of an admitted call, the second only if the first succeeds. */
    method SendBoth(m: G.Msg, n: G.Msg) returns (ok: bool)
      requires Valid() && m.timestamp >= 0.0 && n.timestamp >= 0.0
      modifies this`messages, this`next, q, q.calq
      ensures ok <==> Survives(old(q.Abs()), Puts([m, n], old(next)))
      ensures ok ==>
        && Valid() && (messages, next) == G.Send(old(messages), old(next), [m, n])
        && q.Abs() == Final(old(q.Abs()), Puts([m, n], old(next)))
      ensures state != null ==> state.Valid()
      ensures Cell() == old(Cell())
    {
      hide CalendarOps.Put, Settled, Survives, Final, Puts, G.Send, Q.CalQueue.Abs, C.Cell.Linked, C.Cell.Abs;
      ghost var c, h := q.Abs(), next;
      TwoPuts(c, m, n, h);
      G.SendTwo(messages, h, m, n);
      ok := Send(m.timestamp, m);
      if ok {
        ok := Send(n.timestamp, n);
      }
    }

    /** The queue, the cell and the pending events after the puts of an event, and how they ended. */
    twostate predicate Processed(p: G.Processed, ok: bool)
      reads this, q, q.calq, state, CellRepr()
    {
      && old(q.Valid())
      && (ok <==> Survives(old(q.Abs()), Puts(p.sent, old(next))))
      && (ok ==>
        && Valid() && Cell() == Some(p.state)
        && (messages, next) == G.Send(old(messages), old(next), p.sent)
        && q.Abs() == Final(old(q.Abs()), Puts(p.sent, old(next))))
    }

    method HandleInit(me: int, d: G.Draws) returns (ok: bool)
      requires Valid() && G.Forward(d)
      modifies this`messages, this`next, this`state, q, q.calq
      ensures Processed(G.Processed(G.InitialState, [G.Msg(me, me, G.START_CALL, d.first, -1)], false), ok)
      ensures state != null && fresh(CellRepr())
    {
      hide CalendarOps.Put, Settled, Survives, Final, Puts, G.Send;
      ghost var c := q.Abs();
      var again := G.Msg(me, me, G.START_CALL, d.first, -1);
      OnePut(c, again, next);
      G.SendOne(messages, next, again);
      state := new C.Cell();
      ok := Send(d.first, again);
    }

    /** A START_CALL without a free channel. */
    method HandleBlocked(me: int, now: real, d: G.Draws) returns (ok: bool)
      requires Valid() && state != null && state.channelCounter == 0 && G.Forward(d) && now >= 0.0
      modifies this`messages, this`next, q, q.calq, state
      ensures state == old(state) && CellRepr() == old(CellRepr())
      ensures var p := G.StartCall(old(state.Abs()), me, now, d);
        p.Some? && Processed(p.value, ok) && !p.value.done
    {
      hide CalendarOps.Put, Settled, Survives, Final, Puts, G.Send, Q.CalQueue.Abs, C.Cell.Linked,
        ChannelBits.BusyBelow;
      var again := G.Msg(me, me, G.START_CALL, now + d.second, -1);
      OnePut(q.Abs(), again, next);
      G.SendOne(messages, next, again);
      state.arrivingCalls := state.arrivingCalls + 1;
      state.blockedOnSetup := state.blockedOnSetup + 1;
      ok := Send(again.timestamp, again);
    }

    /** A START_CALL with a free channel. */
    method HandleAdmitted(me: int, now: real, d: G.Draws) returns (end: Ending)
      requires Valid() && state != null && state.channelCounter > 0 && G.Forward(d) && now >= 0.0
      modifies this`messages, this`next, q, q.calq, CellRepr()
      ensures state == old(state) && fresh(CellRepr() - old(CellRepr()))
      ensures match G.StartCall(old(state.Abs()), me, now, d)
        case None => end == Aborted
        case Some(p) => Processed(p, end.Returned?) && end == if end.Returned? then Returned(p.done) else NoWidth
    {
      hide CalendarOps.Put, Settled, Survives, Final, Puts, G.Send, G.Allocation, Q.CalQueue.Abs, C.Cell.Linked,
        ChannelBits.BusyBelow;
      state.arrivingCalls := state.arrivingCalls + 1;
      state.channelCounter := state.channelCounter - 1;
      var ch := state.Allocation();
      if ch == -1 {
        return Aborted;
      }
      var ok := SendBoth(G.Msg(me, me, G.END_CALL, now + d.first, ch), G.Msg(me, me, G.START_CALL, now + d.second, -1));
      end := if ok then Returned(false) else NoWidth;
    }

    method HandleStart(me: int, now: real, d: G.Draws) returns (end: Ending)
      requires Valid() && state != null && G.Forward(d) && now >= 0.0
      modifies this`messages, this`next, q, q.calq, CellRepr()
      ensures state == old(state) && fresh(CellRepr() - old(CellRepr()))
      ensures match G.StartCall(old(state.Abs()), me, now, d)
        case None => end == Aborted
        case Some(p) => Processed(p, end.Returned?) && end == if end.Returned? then Returned(p.done) else NoWidth
    {
      hide G.StartCall, Survives, Final, Puts, G.Send, Settled, Q.CalQueue.Abs, C.Cell.Linked, ChannelBits.BusyBelow;
      if state.channelCounter == 0 {
        var ok := HandleBlocked(me, now, d);
        end := if ok then Returned(false) else NoWidth;
      } else {
        end := HandleAdmitted(me, now, d);
      }
    }

    method HandleEnd(ch: int) returns (end: Ending)
      requires Valid() && state != null && G.InRange(state.Abs().channels)
      modifies CellRepr()
      ensures q.Abs() == old(q.Abs()) && q.Valid() && fresh(CellRepr() - old(CellRepr()))
      ensures match G.EndCall(old(state.Abs()), ch)
        case None => end == Aborted
        case Some(p) => Processed(p, true) && end == Returned(p.done)
    {
      hide Survives, Final, Settled, G.Deallocation, Q.CalQueue.Abs, C.Cell.Linked, ChannelBits.BusyBelow;
      state.channelCounter := state.channelCounter + 1;
      state.completeCalls := state.completeCalls + 1;
      var ok := state.Deallocation(ch);
      if !ok {
        return Aborted;
      }
      NoPuts(q.Abs(), next);
      end := Returned(state.completeCalls == G.COMPLETE_CALLS);
    }

    /** ProcessEvent.  Its channels are numbered within the bitmap, as they are throughout a run. */
    method ProcessEvent(msg: G.Msg, d: G.Draws) returns (end: Ending)
      requires Valid() && G.Forward(d) && Priority(msg) >= 0.0
      requires state != null ==> G.InRange(state.Abs().channels)
      modifies this`messages, this`next, this`state, q, q.calq, CellRepr()
      ensures fresh(CellRepr() - old(CellRepr()))
      ensures match G.ProcessEvent(msg, old(Cell()), d)
        case None => end == Aborted
        case Some(p) => Processed(p, end.Returned?) && end == if end.Returned? then Returned(p.done) else NoWidth
    {
      hide G.StartCall, G.EndCall, Survives, Final, Puts, G.Send, Settled, Q.CalQueue.Abs, C.Cell.Linked,
        ChannelBits.BusyBelow;
      var me, now := msg.receiver, msg.timestamp;
      if state != null {
        state.lvt := now;
        state.executedEvents := state.executedEvents + 1;
      }
      if msg.kind == G.INIT {
        var ok := HandleInit(me, d);
        end := if ok then Returned(false) else NoWidth;
      } else if state == null {
        end := Aborted;
      } else if msg.kind == G.START_CALL {
        end := HandleStart(me, now, d);
      } else if msg.kind == G.END_CALL {
        end := HandleEnd(msg.channel);
      } else {
        end := Aborted;
      }
    }

    /** What main_loop does with the answer of calqueue_get. */
    method Dispatch(payload: Option<int>, id: int, d: G.Draws) returns (exit: Option<Exit>)
      requires Valid() && G.Forward(d) && (payload.Some? ==> payload.value in messages)
      requires payload.Some? ==> Priority(messages[payload.value]) >= 0.0
      requires state != null ==> G.InRange(state.Abs().channels)
      modifies this`messages, this`next, this`state, q, q.calq, CellRepr()
      ensures fresh(CellRepr() - old(CellRepr()))
      ensures
        if payload.None? then exit == Some(NoEvents)
        else if old(messages)[payload.value].receiver != id then exit == Some(WrongReceiver)
        else
          var h := payload.value;
          match G.ProcessEvent(old(messages)[h], old(Cell()), d)
          case None => exit == Some(Abort)
          case Some(p) =>
            && (exit != Some(WidthUnusable) <==> Survives(old(q.Abs()), Puts(p.sent, old(next))))
            && (exit != Some(WidthUnusable) ==>
              && Valid() && Cell() == Some(p.state)
              && (messages, next) == G.Send(old(messages) - {h}, old(next), p.sent)
              && q.Abs() == Final(old(q.Abs()), Puts(p.sent, old(next)))
              && exit == if p.done then Some(CallsComplete) else None)
    {
      hide G.ProcessEvent, Survives, Final, Puts, G.Send, G.InRange, Priority, Settled, Q.CalQueue.Abs, C.Cell.Abs,
        C.Cell.Linked;
      if payload.None? {
        exit := Some(NoEvents);
      } else {
        var event := messages[payload.value];
        messages := messages - {payload.value};
        if event.receiver != id {
          exit := Some(WrongReceiver);
        } else {
          var end := ProcessEvent(event, d);
          exit := match end
            case Returned(done) => if done then Some(CallsComplete) else None
            case Aborted => Some(Abort)
            case NoWidth => Some(WidthUnusable);
        }
      }
    }

    /** A turn of the loop after its get, which has taken the queue on from c. */
    method Handle(payload: Option<int>, id: int, d: G.Draws, ghost w: G.World, ghost c: Cal)
      returns (exit: Option<Exit>)
      requires Valid() && World() == w && CanTurn(w, c, id) && G.Forward(d)
      requires Deq(c).Ok? && q.Abs() == Deq(c).value.0
      requires Deq(c).value.1.Some? && payload == Some(Deq(c).value.1.value.payload)
      modifies this`messages, this`next, this`state, q, q.calq, CellRepr()
      ensures fresh(CellRepr() - old(CellRepr()))
      ensures match TurnOutcome(w, c, d, id)
        case None => exit == Some(WidthUnusable)
        case Some((w1, c1, done)) =>
          Valid() && World() == w1 && q.Abs() == c1 && exit == if done then Some(CallsComplete) else None
    {
      hide G.ProcessEvent, G.Turn, TurnOps, Filed, G.Agree, Survives, Final, Deq, Put, Puts, G.Send, G.InRange,
        Priority, Layout, Q.CalQueue.Abs, C.Cell.Abs, C.Cell.Linked;
      if state != null {
        AgreedCell(w, id);
      }
      TurnOnValues(w, c, d, id);
      exit := Dispatch(payload, id, d);
    }

    /** One turn of the loop; None is to go on. */
    method Turn(id: int, d: G.Draws) returns (exit: Option<Exit>)
      requires Valid() && CanTurn(World(), q.Abs(), id) && G.Forward(d)
      modifies this`messages, this`next, this`state, q, q.calq, CellRepr()
      ensures fresh(CellRepr() - old(CellRepr()))
      ensures match TurnOutcome(old(World()), old(q.Abs()), d, id)
        case None => exit == Some(WidthUnusable)
        case Some((w, c, done)) =>
          Valid() && World() == w && q.Abs() == c && exit == if done then Some(CallsComplete) else None
    {
      hide G.Turn, TurnOps, Filed, G.Agree, Survives, Final, Deq, Layout, Q.CalQueue.Abs, C.Cell.Abs, C.Cell.Linked;
      ghost var w, c := World(), q.Abs();
      var ok, payload := q.Get();
      if !ok {
        return Some(WidthUnusable);
      }
      DeqFiled(w.pending, c);
      exit := Handle(payload, id, d, w, c);
    }

    /** main_loop, for as long as there are random times.  It never finds the queue empty, an event of
        another fiber or a reason to abort; it ends when COMPLETE_CALLS calls are complete, and its
        queue goes through exactly the operations `ProgramOps`. */
    method MainLoop(id: int, unset: real, ds: seq<G.Draws>) returns (exit: Exit)
      requires Valid() && q.Abs() == Init() && World() == G.World(None, map[], 0)
      requires forall d :: d in ds ==> G.Forward(d)
      modifies this`messages, this`next, this`state, q, q.calq
      ensures exit in {CallsComplete, TimesUsed, WidthUnusable}
      ensures exit == WidthUnusable <==> !Survives(Init(), ProgramOps(id, unset, ds))
      ensures exit != WidthUnusable ==>
        && Valid() && q.Abs() == Final(Init(), ProgramOps(id, unset, ds)) && G.Agree(World(), id)
        && (exit == CallsComplete <==> G.Completed(World()) == G.COMPLETE_CALLS)
    {
      hide LoopInv, CanTurn, TurnOutcome, G.Agree, Survives, Final, Put, Settled, ProgramOps, Init, G.Completed, Rest,
        Filed, Q.CalQueue.Abs, C.Cell.Abs, C.Cell.Linked;
      ProgramSplit(id, unset, ds);
      var first := G.Msg(id, id, G.INIT, unset, 0);
      var ok := Send(0.0, first);
      if !ok {
        return WidthUnusable;
      }
      var i := 0;
      while i < |ds|
        invariant 0 <= i <= |ds| && Valid() && fresh(CellRepr())
        invariant LoopInv(id, unset, ds, World(), q.Abs(), i)
      {
        LoopStep(id, unset, ds, World(), q.Abs(), i);
        LoopCanTurn(id, unset, ds, World(), q.Abs(), i);
        var end := Turn(id, ds[i]);
        if end.Some? {
          return end.value;
        }
        i := i + 1;
      }
      LoopEnds(id, unset, ds, World(), q.Abs());
      exit := TimesUsed;
    }
  }
}
