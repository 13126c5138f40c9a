/**
 fib_switch_to of SviluppoHashTable/Module/Fiber.c at the level of its two spin locks: any number
 of threads take its steps in any order.  Converting and creating are single steps.

 Every interleaving is shown to act like a sequence of the atomic calls of `FiberTable`; a
 successful switch takes effect in its accounting step, a failed one where it is refused.
 */
module KernelSwitch {
  import opened Common
  import opened FiberTypes
  import T = FiberTable

  /** What a thread does next, with the fibers it has looked up: `o` its own, `n` the new one. */
  datatype Pc =
    | Idle
    | WantOld(id: Fid, o: Fid)
    | HaveOld(id: Fid, o: Fid)
    | WantNew(o: Fid, n: Fid)
    | HaveBoth(o: Fid, n: Fid)
    | SaveRegs(o: Fid, n: Fid)
    | SaveFpu(o: Fid, n: Fid)
    | Deselect(o: Fid, n: Fid)
    | LoadRegs(o: Fid, n: Fid)
    | LoadFpu(o: Fid, n: Fid)
    | Select(o: Fid, n: Fid)
    | SetRunner(o: Fid, n: Fid)
    | Account(o: Fid, n: Fid)
    | UnlockNew(o: Fid, n: Fid)
    | UnlockOld(o: Fid)

  datatype Cell = Cell(f: T.Fiber, lock: Option<Tid>)

  datatype Thread = Thread(runner: Fid, cpu: Context, pc: Pc)

  datatype State = State(fibers: map<Fid, Cell>, threads: map<Tid, Thread>, lastFibId: nat)

  const Start := State(map[], map[], 0)

  // ---------- the steps ----------

  datatype Action =
    | User(t: Tid, cpu: Context)
    | Enter(t: Tid, id: Fid)
    | Advance(t: Tid, clock: int)
    | DoConvert(t: Tid, cpu: Context, clock: int)
    | DoCreate(t: Tid, cpu: Context, func: int, parameters: int, stack: int, size: int)

  /** A step's new state, and the atomic call that takes effect in it, if any. */
  datatype Move = Blocked | Move(s: State, call: Option<Call>)

  function Goto(s: State, t: Tid, pc: Pc): State
    requires t in s.threads
  {
    s.(threads := s.threads[t := s.threads[t].(pc := pc)])
  }

  function SetCell(s: State, f: Fid, c: Cell): State {
    s.(fibers := s.fibers[f := c])
  }

  function SetFiber(s: State, f: Fid, x: T.Fiber): State
    requires f in s.fibers
  {
    SetCell(s, f, s.fibers[f].(f := x))
  }

  function SetCpu(s: State, t: Tid, cpu: Context): State
    requires t in s.threads
  {
    s.(threads := s.threads[t := s.threads[t].(cpu := cpu)])
  }

  function Lock(s: State, t: Tid, f: Fid, pc: Pc): Move
    requires t in s.threads && f in s.fibers
  {
    if s.fibers[f].lock.Some? then Blocked
    else Move(Goto(SetCell(s, f, s.fibers[f].(lock := Some(t))), t, pc), None)
  }

  function Unlock(s: State, t: Tid, f: Fid, pc: Pc): Move
    requires t in s.threads && f in s.fibers
  {
    Move(Goto(SetCell(s, f, s.fibers[f].(lock := None)), t, pc), None)
  }

  function Refuse(s: State, t: Tid, o: Fid, pc: Pc, call: Call): Move
    requires t in s.threads && o in s.fibers
  {
    var x := s.fibers[o].f;
    Move(Goto(SetFiber(s, o, x.(failed := x.failed + 1)), t, pc), Some(call))
  }

  /** Both locks are held and the switch goes through. */
  predicate Exchanging(pc: Pc) {
    pc.SaveRegs? || pc.SaveFpu? || pc.Deselect? || pc.LoadRegs? || pc.LoadFpu? || pc.Select? || pc.SetRunner?
      || pc.Account?
  }

  /** A step that takes or gives up a lock, or decides. */
  function LockStep(s: State, t: Tid, clock: int): Move
    requires Inv(s) && t in s.threads && !Exchanging(s.threads[t].pc)
  {
    assert ThreadInv(s, t);
    var th := s.threads[t];
    var cpu := th.cpu;
    match th.pc
    case Idle => Blocked
    case WantOld(id, o) => Lock(s, t, o, HaveOld(id, o))
    case HaveOld(id, o) =>
      if o == id then Refuse(s, t, o, UnlockOld(o), SwitchTo(t, id, cpu, clock))
      else if id !in s.fibers then Move(Goto(s, t, UnlockOld(o)), Some(SwitchTo(t, id, cpu, clock)))
      else Move(Goto(s, t, WantNew(o, id)), None)
    case WantNew(o, n) => Lock(s, t, n, HaveBoth(o, n))
    case HaveBoth(o, n) =>
      if s.fibers[n].f.selectedThread.Some? then Refuse(s, t, o, UnlockNew(o, n), SwitchTo(t, n, cpu, clock))
      else Move(Goto(s, t, SaveRegs(o, n)), None)
    case UnlockNew(o, n) => Unlock(s, t, n, UnlockOld(o))
    case UnlockOld(o) => Unlock(s, t, o, Idle)
  }

  /** A step of the exchange under both locks. */
  function ExchangeStep(s: State, t: Tid, clock: int): Move
    requires Inv(s) && t in s.threads && Exchanging(s.threads[t].pc)
  {
    assert ThreadInv(s, t);
    var th := s.threads[t];
    var cpu := th.cpu;
    match th.pc
    case SaveRegs(o, n) =>
      var x := s.fibers[o].f;
      Move(Goto(SetFiber(s, o, x.(saved := x.saved.(regs := cpu.regs))), t, SaveFpu(o, n)), None)
    case SaveFpu(o, n) =>
      var x := s.fibers[o].f;
      Move(Goto(SetFiber(s, o, x.(saved := x.saved.(fpu := cpu.fpu))), t, Deselect(o, n)), None)
    case Deselect(o, n) =>
      Move(Goto(SetFiber(s, o, s.fibers[o].f.(selectedThread := None)), t, LoadRegs(o, n)), None)
    case LoadRegs(o, n) =>
      Move(Goto(SetCpu(s, t, cpu.(regs := s.fibers[n].f.saved.regs)), t, LoadFpu(o, n)), None)
    case LoadFpu(o, n) =>
      Move(Goto(SetCpu(s, t, cpu.(fpu := s.fibers[n].f.saved.fpu)), t, Select(o, n)), None)
    case Select(o, n) =>
      Move(Goto(SetFiber(s, n, s.fibers[n].f.(selectedThread := Some(t))), t, SetRunner(o, n)), None)
    case SetRunner(o, n) =>
      Move(s.(threads := s.threads[t := th.(runner := n, pc := Account(o, n))]), None)
    case Account(o, n) =>
      var x, y := s.fibers[o].f, s.fibers[n].f;
      var s1 := SetFiber(s, n, y.(correct := y.correct + 1, lastActivation := clock));
      var s2 := SetFiber(s1, o, x.(execTime := (x.execTime + (clock - x.lastActivation)) % WORD));
      Move(Goto(s2, t, UnlockNew(o, n)), Some(SwitchTo(t, n, x.saved, clock)))
  }

  /** One step of thread t inside fib_switch_to. */
  function SwitchStep(s: State, t: Tid, clock: int): Move
    requires Inv(s) && t in s.threads
  {
    if Exchanging(s.threads[t].pc) then ExchangeStep(s, t, clock) else LockStep(s, t, clock)
  }

  function Next(s: State, a: Action): Move
    requires Inv(s)
  {
    match a
    case User(t, cpu) =>
      if t in s.threads && s.threads[t].pc == Idle then Move(SetCpu(s, t, cpu), None) else Blocked
    case Enter(t, id) =>
      if t in s.threads && s.threads[t].pc == Idle then Move(Goto(s, t, WantOld(id, s.threads[t].runner)), None)
      else Blocked
    case Advance(t, clock) =>
      if t in s.threads then SwitchStep(s, t, clock) else Blocked
    case DoConvert(t, cpu, clock) =>
      if t in s.threads then
        if s.threads[t].pc == Idle then Move(s, Some(Convert(t, cpu, clock))) else Blocked
      else
        var id := s.lastFibId + 1;
        var f := T.DoFibCreate(t, cpu, cpu.regs.ip, 0, 0, -1, 0)
          .(lastActivation := clock, correct := 1, selectedThread := Some(t));
        Move(State(s.fibers[id := Cell(f, None)], s.threads[t := Thread(id, cpu, Idle)], id),
          Some(Convert(t, cpu, clock)))
    case DoCreate(t, cpu, func, parameters, stack, size) =>
      if t in s.threads && s.threads[t].pc != Idle then Blocked else
        var id := s.lastFibId + 1;
        var f := T.DoFibCreate(t, cpu, func, parameters, stack, size, 1);
        Move(State(s.fibers[id := Cell(f, None)], s.threads, id), Some(Create(t, cpu, func, parameters, stack, size)))
  }

  // ---------- the invariant ----------

  /** The fibers whose locks a thread holds. */
  function OldHeld(pc: Pc): Option<Fid> {
    if pc.Idle? || pc.WantOld? then None else Some(pc.o)
  }

  function NewHeld(pc: Pc): Option<Fid> {
    if pc.Idle? || pc.WantOld? || pc.HaveOld? || pc.WantNew? || pc.UnlockOld? then None else Some(pc.n)
  }

  /** The old fiber no longer selects the thread and the new one does not yet. */
  predicate Between(pc: Pc) {
    pc.LoadRegs? || pc.LoadFpu? || pc.Select?
  }

  /** From releasing the old fiber until the switch has been accounted for. */
  predicate InFlight(pc: Pc) {
    Between(pc) || pc.SetRunner? || pc.Account?
  }

  /** The fiber whose selected_thread points to the thread. */
  function Selecting(th: Thread): Option<Fid> {
    if Between(th.pc) then None else if th.pc.SetRunner? then Some(th.pc.n) else Some(th.runner)
  }

  ghost predicate ThreadInv(s: State, t: Tid)
    requires t in s.threads
  {
    var th := s.threads[t];
    var pc := th.pc;
    && th.runner in s.fibers
    && (OldHeld(pc).Some? ==> pc.o in s.fibers && s.fibers[pc.o].lock == Some(t))
    && (NewHeld(pc).Some? ==> pc.n in s.fibers && s.fibers[pc.n].lock == Some(t) && pc.n != pc.o)
    && (pc.WantNew? ==> pc.n in s.fibers && pc.n != pc.o)
    && (!pc.Idle? && !pc.UnlockNew? && !pc.UnlockOld? ==> th.runner == if pc.Account? then pc.n else pc.o)
    && (Selecting(th).Some? ==> s.fibers[Selecting(th).value].f.selectedThread == Some(t))
    && (InFlight(pc) ==> s.fibers[pc.o].f.selectedThread == None)
    && (Between(pc) || pc.SaveRegs? || pc.SaveFpu? || pc.Deselect? ==> s.fibers[pc.n].f.selectedThread == None)
    && (pc.SaveFpu? ==> s.fibers[pc.o].f.saved.regs == th.cpu.regs)
    && (pc.Deselect? ==> s.fibers[pc.o].f.saved == th.cpu)
    && (pc.LoadFpu? ==> s.fibers[pc.n].f.saved.regs == th.cpu.regs)
    && (pc.Select? || pc.SetRunner? || pc.Account? ==> s.fibers[pc.n].f.saved == th.cpu)
  }

  ghost predicate LockInv(s: State, f: Fid)
    requires f in s.fibers
  {
    var c := s.fibers[f];
    c.lock.Some? ==>
      && c.lock.value in s.threads
      && (OldHeld(s.threads[c.lock.value].pc) == Some(f) || NewHeld(s.threads[c.lock.value].pc) == Some(f))
  }

  ghost predicate SelectInv(s: State, f: Fid)
    requires f in s.fibers
  {
    var x := s.fibers[f].f;
    x.selectedThread.Some? ==>
      x.selectedThread.value in s.threads && Selecting(s.threads[x.selectedThread.value]) == Some(f)
  }

  ghost predicate FiberInv(s: State, f: Fid)
    requires f in s.fibers
  {
    LockInv(s, f) && SelectInv(s, f)
  }

  ghost predicate Inv(s: State) {
    && (forall k :: k in s.fibers <==> 1 <= k <= s.lastFibId)
    && (forall t {:trigger ThreadInv(s, t)} :: t in s.threads ==> ThreadInv(s, t))
    && (forall f {:trigger FiberInv(s, f)} :: f in s.fibers ==> FiberInv(s, f))
  }

  lemma StartInv()
    ensures Inv(Start)
  {
  }

  // A step changes its thread t, and cells that t has locked, locks or unlocks.

  /** No other thread has anything to do with f. */
  ghost predicate Private(s: State, r: State, t: Tid, f: Fid)
    requires f in s.fibers && f in r.fibers
  {
    var c, d := s.fibers[f], r.fibers[f];
    && (c.lock == None || c.lock == Some(t)) && (d.lock == None || d.lock == Some(t))
    && (d.f.selectedThread == c.f.selectedThread
      || (c.lock == Some(t) && (c.f.selectedThread == None || c.f.selectedThread == Some(t))))
    && (c.lock == None ==> d.f == c.f)
  }

  ghost predicate StepOf(s: State, r: State, t: Tid) {
    && t in s.threads && t in r.threads && r.threads == s.threads[t := r.threads[t]]
    && r.fibers.Keys == s.fibers.Keys && r.lastFibId == s.lastFibId
    && forall f {:trigger Private(s, r, t, f)} :: f in s.fibers ==> r.fibers[f] == s.fibers[f] || Private(s, r, t, f)
  }

  lemma StepKeepsInv(s: State, r: State, t: Tid)
    requires Inv(s) && StepOf(s, r, t) && ThreadInv(r, t) && forall f :: f in r.fibers ==> FiberInv(r, f)
    ensures Inv(r)
  {
    forall u | u in r.threads && u != t ensures ThreadInv(r, u) {
      OtherThread(s, r, t, u);
    }
  }

  /** Other threads are not concerned. */
  lemma OtherThread(s: State, r: State, t: Tid, u: Tid)
    requires Inv(s) && StepOf(s, r, t) && u in s.threads && u != t
    ensures ThreadInv(r, u)
  {
    assert ThreadInv(s, u);
    var th := s.threads[u];
    assert OldHeld(th.pc).Some? ==> r.fibers[th.pc.o] == s.fibers[th.pc.o] || Private(s, r, t, th.pc.o);
    assert NewHeld(th.pc).Some? ==> r.fibers[th.pc.n] == s.fibers[th.pc.n] || Private(s, r, t, th.pc.n);
    assert r.fibers[th.runner] == s.fibers[th.runner] || Private(s, r, t, th.runner);
  }

  /** Taking and giving up locks leaves alone which thread each fiber selects. */
  ghost predicate SameSelection(s: State, r: State, t: Tid)
    requires t in s.threads
  {
    && t in r.threads && Selecting(r.threads[t]) == Selecting(s.threads[t])
    && forall f :: f in s.fibers ==> f in r.fibers && r.fibers[f].f.selectedThread == s.fibers[f].f.selectedThread
  }

  /** The exchange leaves alone which locks are held. */
  ghost predicate SameLocks(s: State, r: State, t: Tid)
    requires t in s.threads
  {
    && t in r.threads
    && OldHeld(r.threads[t].pc) == OldHeld(s.threads[t].pc) && NewHeld(r.threads[t].pc) == NewHeld(s.threads[t].pc)
    && forall f :: f in s.fibers ==> f in r.fibers && r.fibers[f].lock == s.fibers[f].lock
  }

  lemma LockStepOf(s: State, t: Tid, clock: int, r: State, call: Option<Call>)
    requires Inv(s) && t in s.threads && !Exchanging(s.threads[t].pc) && LockStep(s, t, clock) == Move(r, call)
    ensures StepOf(s, r, t) && SameSelection(s, r, t)
  {
    assert ThreadInv(s, t);
    hide Inv;
  }

  lemma LockStepThread(s: State, t: Tid, clock: int, r: State, call: Option<Call>)
    requires Inv(s) && t in s.threads && !Exchanging(s.threads[t].pc) && LockStep(s, t, clock) == Move(r, call)
    ensures t in r.threads && ThreadInv(r, t)
  {
    assert ThreadInv(s, t);
    hide Inv, FiberInv;
  }

  lemma LockStepLock(s: State, t: Tid, clock: int, r: State, call: Option<Call>, f: Fid)
    requires Inv(s) && t in s.threads && !Exchanging(s.threads[t].pc) && LockStep(s, t, clock) == Move(r, call)
    requires f in s.fibers && f in r.fibers
    ensures LockInv(r, f)
  {
    assert ThreadInv(s, t) && FiberInv(s, f);
    hide Inv, SelectInv, Selecting, InFlight, Between;
  }

  lemma ExchangeStepOf(s: State, t: Tid, clock: int, r: State, call: Option<Call>)
    requires Inv(s) && t in s.threads && Exchanging(s.threads[t].pc) && ExchangeStep(s, t, clock) == Move(r, call)
    ensures StepOf(s, r, t)
  {
    assert ThreadInv(s, t);
    hide Inv;
  }

  lemma ExchangeStepLocks(s: State, t: Tid, clock: int, r: State, call: Option<Call>)
    requires Inv(s) && t in s.threads && Exchanging(s.threads[t].pc) && ExchangeStep(s, t, clock) == Move(r, call)
    ensures SameLocks(s, r, t)
  {
    hide Inv;
  }

  lemma ExchangeStepThread(s: State, t: Tid, clock: int, r: State, call: Option<Call>)
    requires Inv(s) && t in s.threads && Exchanging(s.threads[t].pc) && ExchangeStep(s, t, clock) == Move(r, call)
    ensures t in r.threads && ThreadInv(r, t)
  {
    assert ThreadInv(s, t);
    hide Inv, FiberInv;
  }

  lemma ExchangeStepSelect(s: State, t: Tid, clock: int, r: State, call: Option<Call>, f: Fid)
    requires Inv(s) && t in s.threads && Exchanging(s.threads[t].pc) && ExchangeStep(s, t, clock) == Move(r, call)
    requires f in s.fibers && f in r.fibers
    ensures SelectInv(r, f)
  {
    assert ThreadInv(s, t) && FiberInv(s, f);
    hide Inv, LockInv;
  }

  lemma SelectionKept(s: State, r: State, t: Tid, f: Fid)
    requires Inv(s) && StepOf(s, r, t) && SameSelection(s, r, t) && f in s.fibers
    ensures f in r.fibers && SelectInv(r, f)
  {
    assert FiberInv(s, f);
    hide Inv, Selecting, Private;
  }

  lemma LocksKept(s: State, r: State, t: Tid, f: Fid)
    requires Inv(s) && StepOf(s, r, t) && SameLocks(s, r, t) && f in s.fibers
    ensures f in r.fibers && LockInv(r, f)
  {
    assert FiberInv(s, f);
    hide Inv, OldHeld, NewHeld, Private;
  }

  lemma AdvanceKeepsInv(s: State, t: Tid, clock: int, r: State, call: Option<Call>)
    requires Inv(s) && t in s.threads && SwitchStep(s, t, clock) == Move(r, call)
    ensures Inv(r)
  {
    hide LockStep, ExchangeStep, ThreadInv, LockInv, SelectInv, Private, SameLocks, SameSelection;
    if Exchanging(s.threads[t].pc) {
      ExchangeStepOf(s, t, clock, r, call);
      ExchangeStepLocks(s, t, clock, r, call);
      ExchangeStepThread(s, t, clock, r, call);
    } else {
      LockStepOf(s, t, clock, r, call);
      LockStepThread(s, t, clock, r, call);
    }
    forall f | f in s.fibers ensures FiberInv(r, f) {
      if Exchanging(s.threads[t].pc) {
        LocksKept(s, r, t, f);
        ExchangeStepSelect(s, t, clock, r, call, f);
      } else {
        SelectionKept(s, r, t, f);
        LockStepLock(s, t, clock, r, call, f);
      }
    }
    StepKeepsInv(s, r, t);
  }

  lemma IsStepOf(s: State, t: Tid, clock: int, r: State, call: Option<Call>)
    requires Inv(s) && t in s.threads && SwitchStep(s, t, clock) == Move(r, call)
    ensures StepOf(s, r, t)
  {
    hide LockStep, ExchangeStep, Inv;
    if Exchanging(s.threads[t].pc) {
      ExchangeStepOf(s, t, clock, r, call);
    } else {
      LockStepOf(s, t, clock, r, call);
    }
  }

  lemma QuietKeepsInv(s: State, a: Action)
    requires Inv(s) && (a.User? || a.Enter?) && Next(s, a).Move?
    ensures Inv(Next(s, a).s)
  {
    var r := Next(s, a).s;
    assert ThreadInv(s, a.t);
    forall f | f in r.fibers ensures FiberInv(r, f) {
      assert FiberInv(s, f);
    }
    assert ThreadInv(r, a.t);
    StepKeepsInv(s, r, a.t);
  }

  /** A new unlocked fiber, with or without a new thread that runs it. */
  lemma NewFiberKeepsInv(s: State, r: State, c: Cell)
    requires Inv(s) && r.lastFibId == s.lastFibId + 1 && r.fibers == s.fibers[r.lastFibId := c] && c.lock == None
    requires
      if c.f.selectedThread.None? then r.threads == s.threads
      else
        var t := c.f.selectedThread.value;
        t !in s.threads && t in r.threads && r.threads == s.threads[t := r.threads[t]]
        && r.threads[t].pc == Idle && r.threads[t].runner == r.lastFibId
    ensures Inv(r)
  {
    forall t | t in r.threads ensures ThreadInv(r, t) {
      assert t in s.threads ==> ThreadInv(s, t);
    }
    forall f | f in r.fibers ensures FiberInv(r, f) {
      assert f in s.fibers ==> FiberInv(s, f);
    }
  }

  /** Every step of every thread keeps the invariant. */
  lemma NextKeepsInv(s: State, a: Action)
    requires Inv(s) && Next(s, a).Move?
    ensures Inv(Next(s, a).s)
  {
    hide ThreadInv, FiberInv, SwitchStep;
    var r := Next(s, a).s;
    match a
    case Advance(t, clock) => AdvanceKeepsInv(s, t, clock, r, Next(s, a).call);
    case User(_, _) => QuietKeepsInv(s, a);
    case Enter(_, _) => QuietKeepsInv(s, a);
    case DoConvert(t, _, _) =>
      if t !in s.threads {
        NewFiberKeepsInv(s, r, r.fibers[r.lastFibId]);
      }
    case DoCreate(_, _, _, _, _, _) => NewFiberKeepsInv(s, r, r.fibers[r.lastFibId]);
  }

  // ---------- the atomic table behind a state ----------

  /** The thread that runs fiber f as far as completed switches go: a switch in flight, whose thread
      holds both locks, has not happened yet. */
  ghost function Owner(s: State, f: Fid): Option<Tid>
    requires f in s.fibers
  {
    var c := s.fibers[f];
    if c.lock.Some? && c.lock.value in s.threads && InFlight(s.threads[c.lock.value].pc) then
      var pc := s.threads[c.lock.value].pc;
      if pc.o == f then Some(c.lock.value) else None
    else c.f.selectedThread
  }

  ghost function Runs(th: Thread): Fid {
    if th.pc.Account? then th.pc.o else th.runner
  }

  /** The table that holds the effects of the completed calls; the saved context of a fiber that runs
      is of no significance. */
  ghost predicate Matches(s: State, a: T.Table)
    requires Inv(s)
  {
    && T.TableInv(a) && a.lastFibId == s.lastFibId
    && a.threads.Keys == s.threads.Keys && a.fibers.Keys == s.fibers.Keys
    && (forall t :: t in s.threads ==> a.threads[t] == Some(Runs(s.threads[t])))
    && (forall f {:trigger CellMatches(s, f, a.fibers[f])} :: f in s.fibers ==> CellMatches(s, f, a.fibers[f]))
  }

  /** All but the owner and the saved context. */
  predicate SameBooks(x: T.Fiber, y: T.Fiber) {
    && x.entryPoint == y.entryPoint && x.creator == y.creator && x.execTime == y.execTime
    && x.lastActivation == y.lastActivation && x.correct == y.correct && x.failed == y.failed
  }

  /** The contents of cell f; the saved context counts only while no thread runs the fiber. */
  ghost predicate ContentsMatch(s: State, f: Fid, x: T.Fiber)
    requires f in s.fibers
  {
    SameBooks(x, s.fibers[f].f) && (x.selectedThread == None ==> x.saved == s.fibers[f].f.saved)
  }

  ghost predicate CellMatches(s: State, f: Fid, x: T.Fiber)
    requires f in s.fibers
  {
    x.selectedThread == Owner(s, f) && ContentsMatch(s, f, x)
  }

  /** The table after the call that takes effect in a step. */
  ghost function Effect(a: T.Table, call: Option<Call>): T.Table
    requires T.TableInv(a)
  {
    if call.None? then a else T.Step(a, call.value).0
  }

  /** The answer a thread has after the step from s to r in which its call took effect: where a switch
      went through, the context it loaded. */
  function ReplyTo(s: State, r: State, call: Call): Reply {
    if call.SwitchTo? then
      if call.tid in r.threads && r.threads[call.tid].runner == call.id && r.threads[call.tid].pc.UnlockNew?
      then Switched(r.threads[call.tid].cpu) else Failed
    else if r.lastFibId == s.lastFibId then Failed
    else Created(r.lastFibId)
  }

  // A step in which no call takes effect is invisible in the cells of the table.

  lemma StutterOwner(s: State, t: Tid, clock: int, r: State, f: Fid)
    requires Inv(s) && t in s.threads && SwitchStep(s, t, clock) == Move(r, None) && f in s.fibers && f in r.fibers
    ensures Owner(r, f) == Owner(s, f)
  {
    if Exchanging(s.threads[t].pc) {
      ExchangeOwner(s, t, clock, r, f);
    } else {
      LockStepPc(s, t, clock, r, None);
      LockStepOf(s, t, clock, r, None);
      assert r.fibers[f] == s.fibers[f] || Private(s, r, t, f);
      hide SwitchStep, LockStep, Inv;
    }
  }

  lemma LockStepPc(s: State, t: Tid, clock: int, r: State, call: Option<Call>)
    requires Inv(s) && t in s.threads && !Exchanging(s.threads[t].pc) && LockStep(s, t, clock) == Move(r, call)
    ensures t in r.threads && !InFlight(r.threads[t].pc) && !InFlight(s.threads[t].pc)
  {
    hide Inv;
  }

  lemma ExchangeOwner(s: State, t: Tid, clock: int, r: State, f: Fid)
    requires Inv(s) && t in s.threads && Exchanging(s.threads[t].pc) && ExchangeStep(s, t, clock) == Move(r, None)
    requires f in s.fibers && f in r.fibers
    ensures Owner(r, f) == Owner(s, f)
  {
    assert ThreadInv(s, t) && FiberInv(s, f);
    hide Inv;
  }

  lemma StutterContents(s: State, t: Tid, clock: int, r: State, f: Fid, x: T.Fiber)
    requires Inv(s) && t in s.threads && SwitchStep(s, t, clock) == Move(r, None)
    requires f in s.fibers && f in r.fibers && CellMatches(s, f, x)
    ensures ContentsMatch(r, f, x)
  {
    assert ThreadInv(s, t) && FiberInv(s, f);
    hide Inv;
  }

  lemma StutterMatches(s: State, a: T.Table, t: Tid, clock: int, r: State)
    requires Inv(s) && Matches(s, a) && t in s.threads && SwitchStep(s, t, clock) == Move(r, None) && Inv(r)
    ensures Matches(r, a)
  {
    hide Inv, Owner, ContentsMatch, T.TableInv;
    IsStepOf(s, t, clock, r, None);
    StutterRuns(s, t, clock, r);
    hide SwitchStep, Private;
    forall f | f in r.fibers ensures CellMatches(r, f, a.fibers[f]) {
      StutterOwner(s, t, clock, r, f);
      StutterContents(s, t, clock, r, f, a.fibers[f]);
    }
  }

  lemma StutterRuns(s: State, t: Tid, clock: int, r: State)
    requires Inv(s) && t in s.threads && SwitchStep(s, t, clock) == Move(r, None)
    ensures t in r.threads && Runs(r.threads[t]) == Runs(s.threads[t])
  {
    assert ThreadInv(s, t);
    hide Inv;
  }

  /** The fiber a refused thread is charged for, if the fiber it wants exists. */
  function Charged(s: State, pc: Pc): Option<Fid> {
    if pc.HaveBoth? then Some(pc.o) else if pc.HaveOld? && pc.o == pc.id then Some(pc.o) else None
  }

  function Charge(x: T.Fiber): T.Fiber {
    x.(failed := x.failed + 1)
  }

  predicate Deciding(s: State, t: Tid) {
    t in s.threads && (s.threads[t].pc.HaveOld? || s.threads[t].pc.HaveBoth?)
  }

  lemma RefusalCall(s: State, a: T.Table, t: Tid, clock: int, r: State, call: Call)
    requires Inv(s) && Matches(s, a) && Deciding(s, t) && SwitchStep(s, t, clock) == Move(r, Some(call))
    ensures var o := Charged(s, s.threads[t].pc);
      T.Step(a, call) ==
        (if o.Some? && o.value in a.fibers then a.(fibers := a.fibers[o.value := Charge(a.fibers[o.value])])
         else a, Failed)
  {
    assert ThreadInv(s, t);
    var pc := s.threads[t].pc;
    assert pc.HaveBoth? ==> CellMatches(s, pc.n, a.fibers[pc.n]);
    hide T.TableInv, FiberInv, Inv;
  }

  lemma RefusalCell(s: State, t: Tid, clock: int, r: State, call: Call, f: Fid, x: T.Fiber)
    requires Inv(s) && Deciding(s, t) && SwitchStep(s, t, clock) == Move(r, Some(call))
    requires f in s.fibers && f in r.fibers && CellMatches(s, f, x)
    ensures CellMatches(r, f, if Charged(s, s.threads[t].pc) == Some(f) then Charge(x) else x)
  {
    assert ThreadInv(s, t) && FiberInv(s, f);
    hide Inv;
  }

  lemma RefusalRuns(s: State, t: Tid, clock: int, r: State, call: Call)
    requires Inv(s) && Deciding(s, t) && SwitchStep(s, t, clock) == Move(r, Some(call))
    ensures t in r.threads && Runs(r.threads[t]) == Runs(s.threads[t])
    ensures call.SwitchTo? && call.tid == t && (r.threads[t].runner == call.id ==> !r.threads[t].pc.UnlockNew?)
  {
    assert ThreadInv(s, t);
    hide Inv;
  }

  lemma RefusalMatches(s: State, a: T.Table, t: Tid, clock: int, r: State, call: Call)
    requires Inv(s) && Matches(s, a) && Deciding(s, t) && SwitchStep(s, t, clock) == Move(r, Some(call)) && Inv(r)
    ensures T.Step(a, call).1 == ReplyTo(s, r, call) && Matches(r, T.Step(a, call).0)
  {
    hide T.TableInv, T.Step, CellMatches, Inv, Private, Charge;
    T.StepKeepsOwnership(a, call);
    RefusalCall(s, a, t, clock, r, call);
    RefusalRuns(s, t, clock, r, call);
    IsStepOf(s, t, clock, r, Some(call));
    hide SwitchStep, Deciding;
    var b := T.Step(a, call).0;
    forall f | f in r.fibers ensures CellMatches(r, f, b.fibers[f]) {
      RefusalCell(s, t, clock, r, call, f, a.fibers[f]);
    }
  }

  /** The call that takes effect in the accounting step succeeds in the table. */
  lemma AccountCall(s: State, a: T.Table, t: Tid, clock: int, r: State, call: Call)
    requires Inv(s) && Matches(s, a) && t in s.threads && s.threads[t].pc.Account?
    requires SwitchStep(s, t, clock) == Move(r, Some(call))
    ensures var pc := s.threads[t].pc;
      && pc.o in a.fibers && pc.n in a.fibers && pc.o != pc.n
      && T.Step(a, call) ==
        (T.Table(a.threads[t := Some(pc.n)],
                 a.fibers[pc.o := T.Leaving(a.fibers[pc.o], s.fibers[pc.o].f.saved, clock)]
                         [pc.n := T.Entering(a.fibers[pc.n], t, clock)], a.lastFibId),
         Switched(s.threads[t].cpu))
  {
    hide T.TableInv;
    assert ThreadInv(s, t);
    assert CellMatches(s, s.threads[t].pc.n, a.fibers[s.threads[t].pc.n]);
  }

  /** A cell after the accounting step, as the switch leaves it in the table. */
  lemma AccountCell(s: State, t: Tid, clock: int, r: State, call: Call, f: Fid, x: T.Fiber)
    requires Inv(s) && t in s.threads && s.threads[t].pc.Account? && s.threads[t].pc.o in s.fibers
    requires SwitchStep(s, t, clock) == Move(r, Some(call)) && f in s.fibers && f in r.fibers && CellMatches(s, f, x)
    ensures var pc := s.threads[t].pc;
      CellMatches(r, f,
        if f == pc.n then T.Entering(x, t, clock)
        else if f == pc.o then T.Leaving(x, s.fibers[pc.o].f.saved, clock)
        else x)
  {
    assert ThreadInv(s, t) && FiberInv(s, f);
    hide Inv;
  }

  lemma AccountRuns(s: State, t: Tid, clock: int, r: State, call: Call)
    requires Inv(s) && t in s.threads && s.threads[t].pc.Account? && SwitchStep(s, t, clock) == Move(r, Some(call))
    ensures var n := s.threads[t].pc.n;
      && t in r.threads && r.threads[t].pc.UnlockNew? && r.threads[t].runner == n
      && r.threads[t].cpu == s.threads[t].cpu
      && call.SwitchTo? && call.tid == t && call.id == n
  {
    assert ThreadInv(s, t);
    hide Inv;
  }

  lemma AccountMatches(s: State, a: T.Table, t: Tid, clock: int, r: State, call: Call)
    requires Inv(s) && Matches(s, a) && t in s.threads && s.threads[t].pc.Account?
    requires SwitchStep(s, t, clock) == Move(r, Some(call)) && Inv(r)
    ensures T.Step(a, call).1 == ReplyTo(s, r, call) && Matches(r, T.Step(a, call).0)
  {
    hide T.TableInv, T.Step, CellMatches, Inv, Private, T.Entering, T.Leaving;
    T.StepKeepsOwnership(a, call);
    AccountCall(s, a, t, clock, r, call);
    IsStepOf(s, t, clock, r, Some(call));
    AccountRuns(s, t, clock, r, call);
    hide SwitchStep;
    var b := T.Step(a, call).0;
    forall f | f in r.fibers ensures CellMatches(r, f, b.fibers[f]) {
      AccountCell(s, t, clock, r, call, f, a.fibers[f]);
    }
  }

  lemma OnlyDecisionsTakeEffect(s: State, t: Tid, clock: int)
    requires Inv(s) && t in s.threads && SwitchStep(s, t, clock).Move? && SwitchStep(s, t, clock).call.Some?
    ensures s.threads[t].pc.Account? || Deciding(s, t)
  {
  }

  // ---------- what the callers asked for ----------

  /** The fiber a thread inside fib_switch_to was asked for, until its call has taken effect. */
  function Wanted(pc: Pc): Option<Fid> {
    if pc.Idle? || pc.UnlockNew? || pc.UnlockOld? then None
    else if pc.WantOld? || pc.HaveOld? then Some(pc.id)
    else Some(pc.n)
  }

  /** What a call was made for: the fiber, and the context with which the thread entered. */
  datatype Request = Request(id: Fid, cpu: Context)

  /** The context of the caller is still in its registers or, from releasing the old fiber on, saved there. */
  ghost predicate Carries(s: State, t: Tid, x: Request)
    requires t in s.threads
  {
    var th := s.threads[t];
    && Wanted(th.pc) == Some(x.id)
    && if InFlight(th.pc) then th.pc.o in s.fibers && s.fibers[th.pc.o].f.saved == x.cpu else th.cpu == x.cpu
  }

  ghost predicate Pending(s: State, asked: map<Tid, Request>, t: Tid)
    requires t in s.threads
  {
    if t in asked then Carries(s, t, asked[t]) else Wanted(s.threads[t].pc).None?
  }

  /** `asked` holds the calls that have been entered and have not taken effect. */
  ghost predicate AllPending(s: State, asked: map<Tid, Request>) {
    asked.Keys <= s.threads.Keys && forall t :: t in s.threads ==> Pending(s, asked, t)
  }

  /** Entering adds a call, taking effect removes it. */
  function Asked(s: State, asked: map<Tid, Request>, a: Action, call: Option<Call>): map<Tid, Request> {
    if a.Enter? && a.t in s.threads then asked[a.t := Request(a.id, s.threads[a.t].cpu)]
    else if a.Advance? && call.Some? then asked - {a.t}
    else asked
  }

  /** The call that takes effect in a step is the one its thread has asked for. */
  predicate AsAsked(asked: map<Tid, Request>, a: Action, call: Call) {
    match call
    case SwitchTo(t, id, cpu, clock) => a == Advance(t, clock) && t in asked && asked[t] == Request(id, cpu)
    case Convert(t, cpu, clock) => a == DoConvert(t, cpu, clock)
    case Create(t, cpu, func, parameters, stack, size) => a == DoCreate(t, cpu, func, parameters, stack, size)
  }

  /** A thread outside fib_switch_to may compute up to any context and enter with it, for any fiber. */
  lemma EntersWith(s: State, t: Tid, cpu: Context, id: Fid)
    requires Inv(s) && t in s.threads && s.threads[t].pc == Idle
    ensures Next(s, User(t, cpu)).Move? && Inv(Next(s, User(t, cpu)).s)
    ensures var s1 := Next(s, User(t, cpu)).s;
      && Next(s1, Enter(t, id)).Move? && t in Next(s1, Enter(t, id)).s.threads
      && Carries(Next(s1, Enter(t, id)).s, t, Request(id, cpu))
      && forall asked :: Asked(s1, asked, Enter(t, id), None) == asked[t := Request(id, cpu)]
  {
    NextKeepsInv(s, User(t, cpu));
    hide Inv;
  }

  /** What takes effect was asked for; a thread enters with nothing pending and returns only when its
      call has taken effect. */
  predicate Served(asked: map<Tid, Request>, a: Action, r: State, call: Option<Call>) {
    && (call.Some? ==> AsAsked(asked, a, call.value))
    && (a.Enter? ==> a.t !in asked)
    && (a.Advance? && a.t in r.threads && r.threads[a.t].pc.Idle? ==> a.t !in asked)
  }

  lemma OwnStepCarries(s: State, t: Tid, clock: int, r: State, call: Option<Call>, x: Request)
    requires Inv(s) && t in s.threads && SwitchStep(s, t, clock) == Move(r, call) && Carries(s, t, x)
    ensures t in r.threads && !r.threads[t].pc.Idle?
    ensures if call.None? then Carries(r, t, x)
      else call.value == SwitchTo(t, x.id, x.cpu, clock) && Wanted(r.threads[t].pc).None?
  {
    assert ThreadInv(s, t);
    hide Inv;
  }

  lemma ServedStep(s: State, t: Tid, clock: int, r: State, call: Option<Call>)
    requires Inv(s) && t in s.threads && SwitchStep(s, t, clock) == Move(r, call) && Wanted(s.threads[t].pc).None?
    ensures t in r.threads && Wanted(r.threads[t].pc).None? && call.None?
  {
    hide Inv;
  }

  lemma OtherStepCarries(s: State, r: State, t: Tid, u: Tid, x: Request)
    requires Inv(s) && StepOf(s, r, t) && u in s.threads && u != t && Carries(s, u, x)
    ensures Carries(r, u, x)
  {
    assert ThreadInv(s, u);
    var pc := s.threads[u].pc;
    if InFlight(pc) {
      assert r.fibers[pc.o] == s.fibers[pc.o] || Private(s, r, t, pc.o);
    }
  }

  lemma AdvanceAsAsked(s: State, asked: map<Tid, Request>, t: Tid, clock: int, r: State, call: Option<Call>)
    requires Inv(s) && AllPending(s, asked) && t in s.threads && SwitchStep(s, t, clock) == Move(r, call)
    ensures AllPending(r, Asked(s, asked, Advance(t, clock), call))
    ensures Served(asked, Advance(t, clock), r, call)
  {
    hide Inv, SwitchStep, Carries, Private;
    IsStepOf(s, t, clock, r, call);
    var after := Asked(s, asked, Advance(t, clock), call);
    assert Pending(s, asked, t);
    if t in asked {
      OwnStepCarries(s, t, clock, r, call, asked[t]);
    } else {
      ServedStep(s, t, clock, r, call);
    }
    forall u | u in r.threads ensures Pending(r, after, u) {
      if u != t {
        assert Pending(s, asked, u);
        if u in asked {
          OtherStepCarries(s, r, t, u, asked[u]);
        }
      }
    }
  }

  /** In every step only a call that has been asked for takes effect, with the context on entry. */
  lemma NextAsAsked(s: State, asked: map<Tid, Request>, a: Action, r: State, call: Option<Call>)
    requires Inv(s) && AllPending(s, asked) && Next(s, a) == Move(r, call)
    ensures AllPending(r, Asked(s, asked, a, call)) && Served(asked, a, r, call)
  {
    hide SwitchStep, T.DoFibCreate;
    if a.Advance? {
      AdvanceAsAsked(s, asked, a.t, a.clock, r, call);
    } else {
      var after := Asked(s, asked, a, call);
      forall u | u in r.threads ensures Pending(r, after, u) {
        assert u in s.threads ==> Pending(s, asked, u) && ThreadInv(s, u);
      }
    }
  }

  /** Every step acts on the table like the call that takes effect in it, with the same answer; and that
      call has been asked for. */
  lemma NextMatches(s: State, a: T.Table, asked: map<Tid, Request>, action: Action)
    requires Inv(s) && Matches(s, a) && AllPending(s, asked) && Next(s, action).Move?
    ensures Inv(Next(s, action).s)
    ensures AllPending(Next(s, action).s, Asked(s, asked, action, Next(s, action).call))
    ensures Served(asked, action, Next(s, action).s, Next(s, action).call)
    ensures Matches(Next(s, action).s, Effect(a, Next(s, action).call))
    ensures var call := Next(s, action).call;
      call.Some? ==> T.Step(a, call.value).1 == ReplyTo(s, Next(s, action).s, call.value)
  {
    NextKeepsInv(s, action);
    NextAsAsked(s, asked, action, Next(s, action).s, Next(s, action).call);
    hide AllPending, Served, Asked;
    match action
    case Advance(t, clock) =>
      var m := SwitchStep(s, t, clock);
      if m.call.Some? {
        OnlyDecisionsTakeEffect(s, t, clock);
      }
      hide SwitchStep;
      if m.call.None? {
        StutterMatches(s, a, t, clock, m.s);
      } else if s.threads[t].pc.Account? {
        AccountMatches(s, a, t, clock, m.s, m.call.value);
      } else {
        RefusalMatches(s, a, t, clock, m.s, m.call.value);
      }
    case User(t, cpu) => QuietMatches(s, a, action);
    case Enter(t, id) => QuietMatches(s, a, action);
    case DoConvert(t, cpu, clock) =>
      if t !in s.threads {
        NewFiberMatches(s, a, action, Next(s, action).s, Next(s, action).call.value);
      }
    case DoCreate(t, cpu, func, parameters, stack, size) =>
      NewFiberMatches(s, a, action, Next(s, action).s, Next(s, action).call.value);
  }

  /** A cell that no step in flight concerns stays as it is. */
  lemma KeptCell(s: State, r: State, f: Fid, x: T.Fiber)
    requires f in s.fibers && f in r.fibers && r.fibers[f] == s.fibers[f] && LockInv(s, f)
    requires forall u {:trigger u in r.threads} :: u in s.threads ==>
      u in r.threads &&
      (r.threads[u].pc == s.threads[u].pc || (!InFlight(s.threads[u].pc) && !InFlight(r.threads[u].pc)))
    requires CellMatches(s, f, x)
    ensures CellMatches(r, f, x)
  {
    if s.fibers[f].lock.Some? {
      var u: Tid := s.fibers[f].lock.value;
      assert u in s.threads;
      assert u in r.threads;
    }
  }

  lemma QuietMatches(s: State, a: T.Table, action: Action)
    requires Inv(s) && Matches(s, a) && (action.User? || action.Enter?) && Next(s, action).Move?
    requires Inv(Next(s, action).s)
    ensures Matches(Next(s, action).s, a)
  {
    hide CellMatches, T.TableInv;
    var r := Next(s, action).s;
    forall f | f in r.fibers ensures CellMatches(r, f, a.fibers[f]) {
      assert FiberInv(s, f);
      KeptCell(s, r, f, a.fibers[f]);
    }
  }

  predicate NewFiber(s: State, action: Action) {
    (action.DoConvert? && action.t !in s.threads) || action.DoCreate?
  }

  /** Converting and creating add the same new fiber to both. */
  lemma NewFiberCall(s: State, a: T.Table, action: Action, r: State, call: Call) returns (x: T.Fiber)
    requires Inv(s) && Matches(s, a) && NewFiber(s, action) && Next(s, action) == Move(r, Some(call))
    ensures T.Step(a, call).1 == ReplyTo(s, r, call)
    ensures var b, id := T.Step(a, call).0, s.lastFibId + 1;
      && r.lastFibId == b.lastFibId == id && r.fibers == s.fibers[id := Cell(x, None)] && b.fibers == a.fibers[id := x]
      && r.threads.Keys == b.threads.Keys
      && (forall t :: t in s.threads ==>
        t in r.threads && t in b.threads && r.threads[t] == s.threads[t] && b.threads[t] == a.threads[t])
      && (forall t :: t in r.threads && t !in s.threads ==>
        r.threads[t].pc == Idle && b.threads[t] == Some(r.threads[t].runner))
  {
    hide CellMatches, T.TableInv, T.DoFibCreate, ThreadInv, FiberInv, Runs, SwitchStep;
    x := r.fibers[s.lastFibId + 1].f;
  }

  lemma NewCell(r: State, f: Fid)
    requires f in r.fibers && r.fibers[f].lock == None
    ensures CellMatches(r, f, r.fibers[f].f)
  {
  }

  lemma NewFiberMatches(s: State, a: T.Table, action: Action, r: State, call: Call)
    requires Inv(s) && Matches(s, a) && NewFiber(s, action) && Next(s, action) == Move(r, Some(call)) && Inv(r)
    ensures T.Step(a, call).1 == ReplyTo(s, r, call) && Matches(r, T.Step(a, call).0)
  {
    hide CellMatches, T.TableInv, ThreadInv, SelectInv, LockInv, Next, T.Step, ReplyTo;
    var x := NewFiberCall(s, a, action, r, call);
    T.StepKeepsOwnership(a, call);
    var b := T.Step(a, call).0;
    NewCell(r, r.lastFibId);
    forall f | f in r.fibers ensures CellMatches(r, f, b.fibers[f]) {
      if f in s.fibers {
        assert FiberInv(s, f);
        KeptCell(s, r, f, a.fibers[f]);
      }
    }
  }

  // ---------- whole executions ----------

  /** The state after a sequence of steps, the calls that took effect, in that order, and the answers
      the threads got; blocked steps are skipped. */
  ghost function Execute(s: State, actions: seq<Action>): (r: (State, seq<Call>, seq<Reply>))
    requires Inv(s)
    ensures Inv(r.0)
    decreases |actions|
  {
    if actions == [] then (s, [], []) else
      match Next(s, actions[0])
      case Blocked => Execute(s, actions[1..])
      case Move(s1, call) =>
        NextKeepsInv(s, actions[0]);
        var (s2, calls, replies) := Execute(s1, actions[1..]);
        if call.Some? then (s2, [call.value] + calls, [ReplyTo(s, s1, call.value)] + replies)
        else (s2, calls, replies)
  }

  /** In every step of the execution what takes effect is what the callers asked for. */
  ghost predicate AllServed(s: State, asked: map<Tid, Request>, actions: seq<Action>)
    requires Inv(s)
    decreases |actions|
  {
    actions == [] ||
    match Next(s, actions[0])
    case Blocked => AllServed(s, asked, actions[1..])
    case Move(r, call) =>
      && Served(asked, actions[0], r, call)
      && (NextKeepsInv(s, actions[0]); AllServed(r, Asked(s, asked, actions[0], call), actions[1..]))
  }

  lemma {:induction false} ExecutionMatches(s: State, a: T.Table, asked: map<Tid, Request>, actions: seq<Action>)
    requires Inv(s) && Matches(s, a) && AllPending(s, asked)
    ensures AllServed(s, asked, actions)
    ensures Matches(Execute(s, actions).0, T.Run(a, Execute(s, actions).1).0)
    ensures Execute(s, actions).2 == T.Run(a, Execute(s, actions).1).1
    decreases |actions|
  {
    if actions != [] {
      hide Inv, Matches, ReplyTo, T.Step, Next, AllPending, Served, Asked;
      match Next(s, actions[0])
      case Blocked => ExecutionMatches(s, a, asked, actions[1..]);
      case Move(s1, call) =>
        NextMatches(s, a, asked, actions[0]);
        ExecutionMatches(s1, Effect(a, call), Asked(s, asked, actions[0], call), actions[1..]);
        var calls := Execute(s1, actions[1..]).1;
        if call.Some? {
          assert ([call.value] + calls)[0] == call.value && ([call.value] + calls)[1..] == calls;
        }
    }
  }

  /** Each call of a thread takes effect exactly once, between its entry and its return, as a call
      by this thread for the fiber it asked for. */
  lemma TakesEffectOnce(s: State, t: Tid, clock: int)
    requires Inv(s) && t in s.threads && SwitchStep(s, t, clock).Move?
    ensures var pc := s.threads[t].pc; var r := SwitchStep(s, t, clock); var pc' := r.s.threads[t].pc;
      if r.call.Some? then
        r.call.value.SwitchTo? && r.call.value.tid == t && Wanted(pc) == Some(r.call.value.id) && Wanted(pc').None?
      else Wanted(pc') == Wanted(pc)
  {
    assert ThreadInv(s, t);
  }

  /** The answer stands: once its call has taken effect, no step changes what the thread runs or has
      loaded until it has returned. */
  lemma AnswerStands(s: State, t: Tid, a: Action)
    requires Inv(s) && t in s.threads && (s.threads[t].pc.UnlockNew? || s.threads[t].pc.UnlockOld?) && Next(s, a).Move?
    ensures var r := Next(s, a).s;
      t in r.threads && r.threads[t].cpu == s.threads[t].cpu && r.threads[t].runner == s.threads[t].runner
  {
    if a.Advance? {
      IsStepOf(s, a.t, a.clock, Next(s, a).s, Next(s, a).call);
    }
  }

  /** Any interleaving of the locked steps of any number of threads leaves the table that the calls
      which took effect produce one after the other, and every thread has got the answer of its call.
      Each of these calls took effect once, between entry and return of the thread that made it, for
      the fiber it asked for and with the context it had on entry. */
  lemma Linearizable(actions: seq<Action>)
    ensures Inv(Start) && T.TableInv(T.EmptyTable)
    ensures AllServed(Start, map[], actions)
    ensures Matches(Execute(Start, actions).0, T.Run(T.EmptyTable, Execute(Start, actions).1).0)
    ensures Execute(Start, actions).2 == T.Run(T.EmptyTable, Execute(Start, actions).1).1
  {
    StartInv();
    ExecutionMatches(Start, T.EmptyTable, map[], actions);
  }

  // ---------- what the locks guarantee in every reachable state ----------

  ghost predicate Free(s: State, f: Fid)
    requires f in s.fibers
  {
    s.fibers[f].lock.None?
  }

  /** runner and selected_thread are inverse to each other wherever the fiber's lock is free; no two
      threads share a runner, whatever is locked; and no lock is held by two threads. */
  lemma MutualInverse(actions: seq<Action>)
    ensures Inv(Start)
    ensures var s := Execute(Start, actions).0;
      && (forall t :: t in s.threads ==> s.threads[t].runner in s.fibers)
      && (forall t :: t in s.threads && Free(s, s.threads[t].runner) ==>
        s.fibers[s.threads[t].runner].f.selectedThread == Some(t))
      && (forall f :: f in s.fibers && Free(s, f) && s.fibers[f].f.selectedThread.Some? ==>
        s.fibers[f].f.selectedThread.value in s.threads && s.threads[s.fibers[f].f.selectedThread.value].runner == f)
      && (forall t, u :: t in s.threads && u in s.threads && t != u ==> s.threads[t].runner != s.threads[u].runner)
  {
    var s := Execute(Start, actions).0;
    InvMeansInverse(s);
  }

  lemma InvMeansInverse(s: State)
    requires Inv(s)
    ensures forall t :: t in s.threads ==> s.threads[t].runner in s.fibers
    ensures forall t :: t in s.threads && Free(s, s.threads[t].runner) ==>
      s.fibers[s.threads[t].runner].f.selectedThread == Some(t)
    ensures forall f :: f in s.fibers && Free(s, f) && s.fibers[f].f.selectedThread.Some? ==>
      s.fibers[f].f.selectedThread.value in s.threads && s.threads[s.fibers[f].f.selectedThread.value].runner == f
    ensures forall t, u :: t in s.threads && u in s.threads && t != u ==> s.threads[t].runner != s.threads[u].runner
  {
    forall t | t in s.threads
      ensures s.threads[t].runner in s.fibers
      ensures Free(s, s.threads[t].runner) ==> s.fibers[s.threads[t].runner].f.selectedThread == Some(t)
    {
      assert ThreadInv(s, t);
    }
    forall f | f in s.fibers && Free(s, f) && s.fibers[f].f.selectedThread.Some?
      ensures s.fibers[f].f.selectedThread.value in s.threads
        && s.threads[s.fibers[f].f.selectedThread.value].runner == f
    {
      assert FiberInv(s, f);
      assert ThreadInv(s, s.fibers[f].f.selectedThread.value);
    }
    forall t, u | t in s.threads && u in s.threads && t != u ensures s.threads[t].runner != s.threads[u].runner {
      assert ThreadInv(s, t) && ThreadInv(s, u);
    }
  }

  /** The fiber whose saved registers or floating-point state a thread's next step reads or writes. */
  function Touches(pc: Pc): Option<Fid> {
    if pc.SaveRegs? || pc.SaveFpu? then Some(pc.o)
    else if pc.LoadRegs? || pc.LoadFpu? then Some(pc.n)
    else None
  }

  /** Saved registers are read and written only under that fiber's lock, while no thread runs it or
      its own thread is leaving it. */
  lemma LockDiscipline(actions: seq<Action>, t: Tid)
    requires Inv(Start)
    requires t in Execute(Start, actions).0.threads && Touches(Execute(Start, actions).0.threads[t].pc).Some?
    ensures var s := Execute(Start, actions).0; var f := Touches(s.threads[t].pc).value;
      f in s.fibers && s.fibers[f].lock == Some(t)
      && (s.fibers[f].f.selectedThread == None || s.fibers[f].f.selectedThread == Some(t))
  {
    assert ThreadInv(Execute(Start, actions).0, t);
  }

  /** A step of one thread never changes a saved context of a fiber whose lock it does not hold. */
  lemma OnlyUnderLock(s: State, t: Tid, clock: int, f: Fid)
    requires Inv(s) && t in s.threads && SwitchStep(s, t, clock).Move? && f in s.fibers
    requires s.fibers[f].lock != Some(t)
    ensures f in SwitchStep(s, t, clock).s.fibers && SwitchStep(s, t, clock).s.fibers[f].f == s.fibers[f].f
  {
    assert ThreadInv(s, t);
  }
}
