/**
 Which calls of fib_switch_to return, at the level of its two spin locks: the code takes the lock of
 the caller's fiber first and that of the target second, in no global order.

 A knot of threads, each holding one lock and bound to ask for one that is held in the knot, stays for
 ever.  The calls in progress can all return exactly when there is no knot, and are sure to return,
 whatever the scheduler does, exactly when no undecided callers want each other's fibers.
 */
module KernelProgress {
  import opened Common
  import opened FiberTypes
  import opened KernelSwitch

  predicate Inside(s: State, t: Tid) {
    t in s.threads && !s.threads[t].pc.Idle?
  }

  /** No call is in progress. */
  ghost predicate Quiet(s: State) {
    forall t :: !Inside(s, t)
  }

  predicate CanStep(s: State, t: Tid)
    requires Inv(s)
  {
    t in s.threads && SwitchStep(s, t, 0).Move?
  }

  /** Only a lock that is taken stops a thread inside fib_switch_to, whatever the clock says. */
  lemma OnlyLocksBlock(s: State, t: Tid, clock: int)
    requires Inv(s) && Inside(s, t)
    ensures
      SwitchStep(s, t, clock).Blocked? <==>
        exists f :: WaitsFor(s.threads[t].pc) == Some(f) && f in s.fibers && s.fibers[f].lock.Some?
  {
    assert ThreadInv(s, t);
    var pc := s.threads[t].pc;
    if pc.WantOld? || pc.WantNew? {
      assert WaitsFor(pc) == Some(WaitsFor(pc).value);
    }
  }

  /** The fiber whose lock a thread is spinning on. */
  function WaitsFor(pc: Pc): Option<Fid> {
    if pc.WantOld? then Some(pc.o) else if pc.WantNew? then Some(pc.n) else None
  }

  // ---------- knots ----------

  /** The second lock a thread is bound to ask for while it holds the first. */
  function Asks(pc: Pc): Option<Fid> {
    if pc.HaveOld? && pc.id != pc.o then Some(pc.id) else if pc.WantNew? then Some(pc.n) else None
  }

  predicate HeldIn(s: State, f: Fid, k: set<Tid>) {
    f in s.fibers && s.fibers[f].lock.Some? && s.fibers[f].lock.value in k
  }

  predicate Bound(s: State, t: Tid, k: set<Tid>) {
    t in s.threads && Asks(s.threads[t].pc).Some? && HeldIn(s, Asks(s.threads[t].pc).value, k)
  }

  predicate Knot(s: State, k: set<Tid>) {
    k != {} && forall t :: t in k ==> Bound(s, t, k)
  }

  ghost predicate Knotted(s: State) {
    exists k :: Knot(s, k)
  }

  /** All that a bound thread ever does is to start asking for its second lock. */
  lemma BoundStep(s: State, t: Tid, clock: int, r: State, call: Option<Call>, k: set<Tid>)
    requires Inv(s) && Bound(s, t, k) && SwitchStep(s, t, clock) == Move(r, call)
    ensures r.fibers == s.fibers && t in r.threads && Asks(r.threads[t].pc) == Asks(s.threads[t].pc)
  {
    hide Inv;
  }

  lemma AdvanceKeepsKnot(s: State, t: Tid, clock: int, r: State, call: Option<Call>, k: set<Tid>)
    requires Inv(s) && t in s.threads && SwitchStep(s, t, clock) == Move(r, call) && Knot(s, k)
    ensures Knot(r, k)
  {
    hide Inv, SwitchStep;
    IsStepOf(s, t, clock, r, call);
    if t in k {
      assert Bound(s, t, k);
      BoundStep(s, t, clock, r, call, k);
    }
    forall u | u in k ensures Bound(r, u, k) {
      assert Bound(s, u, k);
      var f := Asks(s.threads[u].pc).value;
      assert r.fibers[f] == s.fibers[f] || Private(s, r, t, f);
    }
  }

  /** Every step of every thread keeps a knot. */
  lemma KnotStays(s: State, a: Action, k: set<Tid>)
    requires Inv(s) && Next(s, a).Move? && Knot(s, k)
    ensures Knot(Next(s, a).s, k)
  {
    hide Inv, SwitchStep;
    if a.Advance? {
      AdvanceKeepsKnot(s, a.t, a.clock, Next(s, a).s, Next(s, a).call, k);
    } else {
      forall u | u in k ensures Bound(Next(s, a).s, u, k) {
        assert Bound(s, u, k);
        NewIdIsNew(s);
      }
    }
  }

  lemma NewIdIsNew(s: State)
    requires Inv(s)
    ensures s.lastFibId + 1 !in s.fibers
  {
  }

  // ---------- progress without a knot ----------

  /** A thread that is bound after its step was bound before, unless it has just taken its first lock. */
  lemma BoundBefore(s: State, t: Tid, clock: int, r: State, call: Option<Call>)
    requires Inv(s) && t in s.threads && SwitchStep(s, t, clock) == Move(r, call) && !s.threads[t].pc.WantOld?
    requires t in r.threads && Asks(r.threads[t].pc).Some?
    ensures r.fibers == s.fibers && Asks(s.threads[t].pc) == Asks(r.threads[t].pc)
  {
    assert ThreadInv(s, t);
    hide Inv;
  }

  /** Only taking the first lock can tie a knot. */
  lemma NoNewKnot(s: State, t: Tid, clock: int, r: State, call: Option<Call>)
    requires Inv(s) && t in s.threads && SwitchStep(s, t, clock) == Move(r, call) && !s.threads[t].pc.WantOld?
    requires !Knotted(s)
    ensures !Knotted(r)
  {
    hide Inv, SwitchStep;
    IsStepOf(s, t, clock, r, call);
    forall k | Knot(r, k) ensures Knot(s, k) {
      forall u | u in k ensures Bound(s, u, k) {
        assert Bound(r, u, k);
        if t in k {
          assert Bound(r, t, k);
          BoundBefore(s, t, clock, r, call);
        } else {
          var f := Asks(r.threads[u].pc).value;
          assert f in s.fibers;
          assert r.fibers[f] == s.fibers[f] || Private(s, r, t, f);
        }
      }
    }
  }

  predicate HoldsNothing(pc: Pc) {
    pc.Idle? || pc.WantOld?
  }

  /** A lock is held by a thread that is past taking its first lock. */
  lemma HolderHolds(s: State, f: Fid) returns (u: Tid)
    requires Inv(s) && f in s.fibers && s.fibers[f].lock.Some?
    ensures s.fibers[f].lock == Some(u) && u in s.threads && !HoldsNothing(s.threads[u].pc)
  {
    assert FiberInv(s, f);
    u := s.fibers[f].lock.value;
  }

  /** No thread holds a lock: every lock is free. */
  lemma AllFree(s: State)
    requires Inv(s) && forall t :: t in s.threads ==> HoldsNothing(s.threads[t].pc)
    ensures forall f :: f in s.fibers ==> s.fibers[f].lock == None
  {
    forall f | f in s.fibers && s.fibers[f].lock.Some? ensures false {
      var u := HolderHolds(s, f);
    }
  }

  /** If every thread is idle, taking its first lock or blocked on its second, the latter are a knot. */
  lemma AllBlockedIsKnot(s: State, t: Tid, k: set<Tid>)
    requires Inv(s) && t in k
    requires forall u :: u in k <==> u in s.threads && !HoldsNothing(s.threads[u].pc)
    requires forall u :: u in k ==> !CanStep(s, u)
    ensures Knot(s, k)
  {
    hide SwitchStep;
    forall u | u in k ensures Bound(s, u, k) {
      assert Inside(s, u) && !CanStep(s, u);
      OnlyLocksBlock(s, u, 0);
      var f :| WaitsFor(s.threads[u].pc) == Some(f) && f in s.fibers && s.fibers[f].lock.Some?;
      var v := HolderHolds(s, f);
    }
  }

  /** Taking the first lock while nobody holds one ties no knot. */
  lemma FirstLock(s: State, t: Tid, clock: int, r: State, call: Option<Call>)
    requires Inv(s) && t in s.threads && s.threads[t].pc.WantOld? && SwitchStep(s, t, clock) == Move(r, call)
    requires forall u :: u in s.threads ==> HoldsNothing(s.threads[u].pc)
    ensures !Knotted(r)
  {
    assert ThreadInv(s, t);
    AllFree(s);
    hide Inv;
    forall k ensures !Knot(r, k) {
      assert k != {} ==> exists u :: u in k by { assert (forall u :: u !in k) ==> k == {}; }
    }
  }

  /** As long as there is no knot, some call in progress can go on without tying one. */
  lemma Progress(s: State, t: Tid) returns (u: Tid)
    requires Inv(s) && Inside(s, t) && !Knotted(s)
    ensures Inside(s, u) && CanStep(s, u) && !Knotted(SwitchStep(s, u, 0).s)
  {
    hide SwitchStep, Inv;
    if v :| v in s.threads && !HoldsNothing(s.threads[v].pc) && CanStep(s, v) {
      u := v;
      NoNewKnot(s, u, 0, SwitchStep(s, u, 0).s, SwitchStep(s, u, 0).call);
    } else {
      var k := set v | v in s.threads && !HoldsNothing(s.threads[v].pc);
      if v :| v in k {
        AllBlockedIsKnot(s, v, k);
        assert false;
      }
      forall v | v in s.threads ensures HoldsNothing(s.threads[v].pc) {
        assert v !in k;
      }
      u := t;
      AllFree(s);
      OnlyLocksBlock(s, u, 0);
      FirstLock(s, u, 0, SwitchStep(s, u, 0).s, SwitchStep(s, u, 0).call);
    }
  }

  // ---------- how long the calls take ----------

  /** The steps a thread has before it until its call returns. */
  function Steps(pc: Pc): nat {
    match pc
    case Idle => 0
    case UnlockOld(_) => 1
    case UnlockNew(_, _) => 2
    case Account(_, _) => 3
    case SetRunner(_, _) => 4
    case Select(_, _) => 5
    case LoadFpu(_, _) => 6
    case LoadRegs(_, _) => 7
    case Deselect(_, _) => 8
    case SaveFpu(_, _) => 9
    case SaveRegs(_, _) => 10
    case HaveBoth(_, _) => 11
    case WantNew(_, _) => 12
    case HaveOld(_, _) => 13
    case WantOld(_, _) => 14
  }

  ghost function Work(threads: map<Tid, Thread>): nat {
    if threads == map[] then 0 else
      assert exists t :: t in threads by { assert (forall t :: t !in threads) ==> threads == map[]; }
      var t :| t in threads;
      Steps(threads[t].pc) + Work(threads - {t})
  }

  lemma {:induction false} WorkOf(threads: map<Tid, Thread>, t: Tid)
    requires t in threads
    ensures Work(threads) == Steps(threads[t].pc) + Work(threads - {t})
    decreases |threads|
  {
    assert exists u :: u in threads;
    var u :| u in threads && Work(threads) == Steps(threads[u].pc) + Work(threads - {u});
    if u != t {
      WorkOf(threads - {u}, t);
      WorkOf(threads - {t}, u);
      assert threads - {u} - {t} == threads - {t} - {u};
    }
  }

  lemma OwnStepsDecrease(s: State, t: Tid, clock: int, r: State, call: Option<Call>)
    requires Inv(s) && t in s.threads && SwitchStep(s, t, clock) == Move(r, call)
    ensures t in r.threads && Steps(r.threads[t].pc) < Steps(s.threads[t].pc)
  {
    hide Inv;
  }

  /** Every step of a call in progress brings it closer to its return. */
  lemma StepsDecrease(s: State, t: Tid, clock: int, r: State, call: Option<Call>)
    requires Inv(s) && t in s.threads && SwitchStep(s, t, clock) == Move(r, call)
    ensures Work(r.threads) < Work(s.threads)
  {
    OwnStepsDecrease(s, t, clock, r, call);
    IsStepOf(s, t, clock, r, call);
    hide Inv, SwitchStep, Steps;
    WorkOf(s.threads, t);
    WorkOf(r.threads, t);
    assert r.threads - {t} == s.threads - {t};
  }

  // ---------- the calls in progress can return exactly when there is no knot ----------

  /** Only calls in progress go on. */
  predicate OnlyAdvances(actions: seq<Action>) {
    forall a :: a in actions ==> a.Advance?
  }

  ghost function End(s: State, actions: seq<Action>): (r: State)
    requires Inv(s)
    ensures Inv(r)
  {
    Execute(s, actions).0
  }

  lemma EndCons(s: State, a: Action, rest: seq<Action>)
    requires Inv(s)
    ensures Next(s, a).Move? ==> Inv(Next(s, a).s)
    ensures End(s, [a] + rest) == if Next(s, a).Move? then End(Next(s, a).s, rest) else End(s, rest)
  {
    if Next(s, a).Move? {
      NextKeepsInv(s, a);
    }
    hide Inv, Next;
    assert ([a] + rest)[1..] == rest;
  }

  lemma {:induction false} Drain(s: State) returns (rest: seq<Action>)
    requires Inv(s) && !Knotted(s)
    ensures OnlyAdvances(rest) && Quiet(End(s, rest))
    decreases Work(s.threads)
  {
    hide Inv, SwitchStep, Work, Knotted, Execute, End;
    if t :| Inside(s, t) {
      var u := Progress(s, t);
      var m := SwitchStep(s, u, 0);
      AdvanceKeepsInv(s, u, 0, m.s, m.call);
      StepsDecrease(s, u, 0, m.s, m.call);
      rest := Drain(m.s);
      EndCons(s, Advance(u, 0), rest);
      rest := [Advance(u, 0)] + rest;
    } else {
      rest := [];
      NoActions(s);
    }
  }

  lemma NoActions(s: State)
    requires Inv(s)
    ensures End(s, []) == s
  {
  }

  lemma {:induction false} KnotForever(s: State, actions: seq<Action>, k: set<Tid>)
    requires Inv(s) && Knot(s, k)
    ensures Knot(End(s, actions), k)
    ensures forall t :: t in k ==> Inside(End(s, actions), t)
    decreases |actions|
  {
    hide Inv, Next;
    if actions == [] {
      assert forall t :: t in k ==> Bound(s, t, k);
    } else {
      var a, rest := actions[0], actions[1..];
      assert actions == [a] + rest;
      EndCons(s, a, rest);
      if Next(s, a).Move? {
        KnotStays(s, a, k);
        KnotForever(Next(s, a).s, rest, k);
      } else {
        KnotForever(s, rest, k);
      }
    }
  }

  ghost predicate CanReturn(s: State)
    requires Inv(s)
  {
    exists rest :: OnlyAdvances(rest) && Quiet(End(s, rest))
  }

  /** All calls in progress can still return if and only if no threads are knotted; the threads of a
      knot never return, whatever any thread does. */
  lemma CanReturnExactly(s: State)
    requires Inv(s)
    ensures CanReturn(s) <==> !Knotted(s)
    ensures forall k, actions :: Knot(s, k) ==>
      Knot(End(s, actions), k) && forall t :: t in k ==> Inside(End(s, actions), t)
  {
    hide Inv, Execute;
    forall k, actions | Knot(s, k)
      ensures Knot(End(s, actions), k) && forall t :: t in k ==> Inside(End(s, actions), t)
      ensures !Quiet(End(s, actions))
    {
      KnotForever(s, actions, k);
      assert exists t :: t in k by { assert (forall t :: t !in k) ==> k == {}; }
    }
    if !Knotted(s) {
      var rest := Drain(s);
    }
  }

  lemma NextEnd(s: State, a: Action, r: State, call: Option<Call>, rest: seq<Action>)
    requires Inv(s) && Next(s, a) == Move(r, call)
    ensures Inv(r) && End(s, [a] + rest) == End(r, rest)
  {
    hide Inv, Next;
    EndCons(s, a, rest);
  }

  /** Two converted threads, each with its own fiber. */
  function Pair(f: T.Fiber, g: T.Fiber, a: Option<Tid>, b: Option<Tid>, x: Context, y: Context, p: Pc, q: Pc): State {
    State(map[1 := Cell(f, a), 2 := Cell(g, b)], map[1 := Thread(1, x, p), 2 := Thread(2, y, q)], 2)
  }

  function Converted(t: Tid, x: Context, clock: int): T.Fiber {
    T.DoFibCreate(t, x, x.regs.ip, 0, 0, -1, 0).(lastActivation := clock, correct := 1, selectedThread := Some(t))
  }

  lemma BothConvert(x: Context, y: Context, clock: int, rest: seq<Action>)
    ensures var s := Pair(Converted(1, x, clock), Converted(2, y, clock), None, None, x, y, Idle, Idle);
      Inv(Start) && Inv(s) && End(Start, [DoConvert(1, x, clock)] + ([DoConvert(2, y, clock)] + rest)) == End(s, rest)
  {
    StartInv();
    var s1 := State(map[1 := Cell(Converted(1, x, clock), None)], map[1 := Thread(1, x, Idle)], 1);
    var s2 := Pair(Converted(1, x, clock), Converted(2, y, clock), None, None, x, y, Idle, Idle);
    hide End, Inv, T.DoFibCreate;
    NextEnd(Start, DoConvert(1, x, clock), s1, Some(Convert(1, x, clock)), [DoConvert(2, y, clock)] + rest);
    NextEnd(s1, DoConvert(2, y, clock), s2, Some(Convert(2, y, clock)), rest);
  }

  lemma BothEnter(f: T.Fiber, g: T.Fiber, x: Context, y: Context, rest: seq<Action>)
    requires Inv(Pair(f, g, None, None, x, y, Idle, Idle))
    ensures var r := Pair(f, g, None, None, x, y, WantOld(2, 1), WantOld(1, 2));
      Inv(r) && End(Pair(f, g, None, None, x, y, Idle, Idle), [Enter(1, 2)] + ([Enter(2, 1)] + rest)) == End(r, rest)
  {
    hide End, Inv;
    var s1 := Pair(f, g, None, None, x, y, WantOld(2, 1), Idle);
    NextEnd(Pair(f, g, None, None, x, y, Idle, Idle), Enter(1, 2), s1, None, [Enter(2, 1)] + rest);
    NextEnd(s1, Enter(2, 1), Pair(f, g, None, None, x, y, WantOld(2, 1), WantOld(1, 2)), None, rest);
  }

  lemma BothLock(f: T.Fiber, g: T.Fiber, x: Context, y: Context, clock: int, rest: seq<Action>)
    requires Inv(Pair(f, g, None, None, x, y, WantOld(2, 1), WantOld(1, 2)))
    ensures var r := Pair(f, g, Some(1), Some(2), x, y, HaveOld(2, 1), HaveOld(1, 2));
      Inv(r) && End(Pair(f, g, None, None, x, y, WantOld(2, 1), WantOld(1, 2)),
                    [Advance(1, clock)] + ([Advance(2, clock)] + rest)) == End(r, rest)
  {
    hide End, Inv;
    var s := Pair(f, g, None, None, x, y, WantOld(2, 1), WantOld(1, 2));
    var s1 := Pair(f, g, Some(1), None, x, y, HaveOld(2, 1), WantOld(1, 2));
    NextEnd(s, Advance(1, clock), s1, None, [Advance(2, clock)] + rest);
    NextEnd(s1, Advance(2, clock), Pair(f, g, Some(1), Some(2), x, y, HaveOld(2, 1), HaveOld(1, 2)), None, rest);
  }

  /** Two threads, both converted, that call for each other's fibers and take their first locks. */
  function Crossing(x: Context, y: Context, clock: int): seq<Action> {
    [DoConvert(1, x, clock)] + ([DoConvert(2, y, clock)] + CrossingCalls(clock))
  }

  function CrossingCalls(clock: int): seq<Action> {
    [Enter(1, 2)] + ([Enter(2, 1)] + ([Advance(1, clock)] + ([Advance(2, clock)] + [])))
  }

  /** Two threads that switch to each other's fibers at the same time deadlock. */
  lemma CrossingKnots(x: Context, y: Context, clock: int)
    ensures Inv(Start)
    ensures Knot(End(Start, Crossing(x, y, clock)), {1, 2}) && !CanReturn(End(Start, Crossing(x, y, clock)))
  {
    var f, g := Converted(1, x, clock), Converted(2, y, clock);
    hide Inv, End, CanReturn, Converted;
    BothConvert(x, y, clock, CrossingCalls(clock));
    BothEnter(f, g, x, y, [Advance(1, clock)] + ([Advance(2, clock)] + []));
    BothLock(f, g, x, y, clock, []);
    var s := Pair(f, g, Some(1), Some(2), x, y, HaveOld(2, 1), HaveOld(1, 2));
    NoActions(s);
    assert Knot(s, {1, 2});
    CanReturnExactly(s);
  }
}
