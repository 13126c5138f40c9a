/**
 The user-level threads of 2018-fibers/src/ult.c under interleaving: the atomic running flag of a
 fiber, and the save, unlock and jump of `context_switch`, as separate steps of any number of
 threads.  Saving and loading a context take two steps each, so that a half-written context exists.

 Threads are converted at any time.  The main thread creates fibers before it sets `initComplete`;
 no thread switches before that.
 */
module UltProtocol {
  import opened Common

  type Tid = int
  type Uid = int

  /** One half of a machine context: of a computing thread, of the signal trampoline, or of
      context_create_boot about to start `entry`. */
  datatype Half = User(x: int) | Trampoline(entry: int) | Boot(entry: int) | Blank

  datatype Ctx = Ctx(a: Half, b: Half)

  /** A fiber.  `left` is the context with which it last left a processor and `owner` the thread that
      disposes of it; both are auxiliary, no step depends on them. */
  datatype Ult = Ult(running: bool, saved: Ctx, left: Ctx, owner: Option<Tid>)

  datatype Pc =
    | Idle
    // ult_switch_to and context_switch
    | SetCurrent(from: Uid, to: Uid)
    | SaveA(from: Uid, to: Uid)
    | SaveB(from: Uid, to: Uid)
    | Release(from: Uid, to: Uid)
    | LoadA(to: Uid)
    | LoadB(to: Uid)
    // ult_creat: context_create, context_switch_create, context_create_boot
    | Tramp(c: Uid, entry: int)
    | LockNew(c: Uid, entry: int)
    | SaveCreator(c: Uid, entry: int)
    | ReleaseCreator(c: Uid, entry: int)
    | JumpNew(c: Uid, entry: int)
    | RelockCreator(c: Uid, entry: int)
    | SaveNew(c: Uid, entry: int)
    | ReleaseNew(c: Uid, entry: int)
    | JumpBack(c: Uid, entry: int)

  /** `was` is the context in which the thread called ult_switch_to or ult_creat; it is auxiliary too. */
  datatype Thread = Thread(current: Uid, cpu: Ctx, pc: Pc, was: Ctx)

  datatype State = State(fibers: map<Uid, Ult>, threads: map<Tid, Thread>, ultId: nat, mainThread: Tid,
          initComplete: bool)

  function Start(mainThread: Tid): (s: State)
    ensures Inv(s)
  {
    State(map[], map[], 0, mainThread, false)
  }

  // ---------- the steps ----------

  datatype Action =
    | Compute(t: Tid, cpu: Ctx)
    | Convert(t: Tid, cpu: Ctx)
    | Creat(t: Tid, entry: int)
    | CompleteInit
    | SwitchTo(t: Tid, to: Uid)
    | Advance(t: Tid)

  function Goto(s: State, t: Tid, pc: Pc): State
    requires t in s.threads
  {
    s.(threads := s.threads[t := s.threads[t].(pc := pc)])
  }

  /** The thread enters ult_switch_to or ult_creat. */
  function Call(s: State, t: Tid, pc: Pc): State
    requires t in s.threads
  {
    s.(threads := s.threads[t := s.threads[t].(pc := pc, was := s.threads[t].cpu)])
  }

  function Load(s: State, t: Tid, cpu: Ctx, pc: Pc): State
    requires t in s.threads
  {
    s.(threads := s.threads[t := s.threads[t].(cpu := cpu, pc := pc)])
  }

  function Set(s: State, f: Uid, u: Ult): State {
    s.(fibers := s.fibers[f := u])
  }

  /** One step of a thread inside ult_switch_to. */
  function InsideSwitch(s: State, t: Tid): Option<State>
    requires Inv(s) && t in s.threads && !Creating(s.threads[t].pc)
  {
    assert ThreadInv(s, t);
    var th := s.threads[t];
    match th.pc
    case Idle => None
    case SetCurrent(from, to) =>
      Some(s.(threads := s.threads[t := th.(current := to, pc := SaveA(from, to))]))
    case SaveA(from, to) =>
      var u := s.fibers[from];
      Some(Goto(Set(s, from, u.(saved := u.saved.(a := th.cpu.a))), t, SaveB(from, to)))
    case SaveB(from, to) =>
      var u := s.fibers[from];
      Some(Goto(Set(s, from, u.(saved := u.saved.(b := th.cpu.b))), t, Release(from, to)))
    case Release(from, to) =>
      Some(Goto(Set(s, from, s.fibers[from].(running := false, left := th.cpu, owner := None)), t, LoadA(to)))
    case LoadA(to) =>
      Some(Load(s, t, th.cpu.(a := s.fibers[to].saved.a), LoadB(to)))
    case LoadB(to) =>
      Some(Load(s, t, th.cpu.(b := s.fibers[to].saved.b), Idle))
  }

  /** One step of a thread inside ult_creat. */
  function InsideCreat(s: State, t: Tid): Option<State>
    requires Inv(s) && t in s.threads && Creating(s.threads[t].pc)
  {
    assert ThreadInv(s, t);
    var th := s.threads[t];
    var cur := th.current;
    match th.pc
    case Tramp(c, entry) =>
      Some(Goto(Set(s, c, s.fibers[c].(saved := Ctx(Trampoline(entry), Trampoline(entry)))), t, LockNew(c, entry)))
    case LockNew(c, entry) =>
      if s.fibers[c].running then None
      else Some(Goto(Set(s, c, s.fibers[c].(running := true)), t, SaveCreator(c, entry)))
    case SaveCreator(c, entry) =>
      Some(Goto(Set(s, cur, s.fibers[cur].(saved := th.cpu)), t, ReleaseCreator(c, entry)))
    case ReleaseCreator(c, entry) =>
      Some(Goto(Set(s, cur, s.fibers[cur].(running := false, left := th.cpu)), t, JumpNew(c, entry)))
    case JumpNew(c, entry) =>
      Some(Load(s, t, s.fibers[c].saved, RelockCreator(c, entry)))
    case RelockCreator(c, entry) =>
      if s.fibers[cur].running then None
      else Some(Load(Set(s, cur, s.fibers[cur].(running := true)), t, Ctx(Boot(entry), Boot(entry)), SaveNew(c, entry)))
    case SaveNew(c, entry) =>
      Some(Goto(Set(s, c, s.fibers[c].(saved := th.cpu)), t, ReleaseNew(c, entry)))
    case ReleaseNew(c, entry) =>
      Some(Goto(Set(s, c, s.fibers[c].(running := false, left := th.cpu, owner := None)), t, JumpBack(c, entry)))
    case JumpBack(c, entry) =>
      Some(Load(s, t, s.fibers[cur].saved, Idle))
  }

  function Inside(s: State, t: Tid): Option<State>
    requires Inv(s) && t in s.threads
  {
    if Creating(s.threads[t].pc) then InsideCreat(s, t) else InsideSwitch(s, t)
  }

  const BlankCtx := Ctx(Blank, Blank)

  function Next(s: State, a: Action): Option<State>
    requires Inv(s)
  {
    match a
    case Compute(t, cpu) =>
      if t in s.threads && s.threads[t].pc == Idle then Some(Load(s, t, cpu, Idle)) else None
    case Convert(t, cpu) =>
      if t in s.threads then None else
        var id := s.ultId;
        Some(s.(fibers := s.fibers[id := Ult(true, cpu, BlankCtx, Some(t))],
                threads := s.threads[t := Thread(id, cpu, Idle, cpu)], ultId := id + 1))
    case Creat(t, entry) =>
      if t != s.mainThread || s.initComplete || t !in s.threads || s.threads[t].pc != Idle then None else
        var id := s.ultId;
        Some(Call(Set(s, id, Ult(false, BlankCtx, BlankCtx, Some(t))).(ultId := id + 1), t, Tramp(id, entry)))
    case CompleteInit =>
      if s.mainThread in s.threads && s.threads[s.mainThread].pc == Idle then Some(s.(initComplete := true)) else None
    case SwitchTo(t, to) =>
      if !s.initComplete || t !in s.threads || s.threads[t].pc != Idle then None
      else if to !in s.fibers then Some(s)  // a null fiber: return
      else if s.fibers[to].running then Some(s)  // ult_trylock fails: return
      else Some(Call(Set(s, to, s.fibers[to].(running := true, owner := Some(t))), t,
        SetCurrent(s.threads[t].current, to)))
    case Advance(t) =>
      if t in s.threads then Inside(s, t) else None
  }

  // ---------- who holds what ----------

  predicate Creating(pc: Pc) {
    pc.Tramp? || pc.LockNew? || pc.SaveCreator? || pc.ReleaseCreator? || pc.JumpNew? || pc.RelockCreator?
    || pc.SaveNew? || pc.ReleaseNew? || pc.JumpBack?
  }

  predicate Leaving(pc: Pc) {
    pc.SetCurrent? || pc.SaveA? || pc.SaveB? || pc.Release?
  }

  /** A thread holds the fiber it computes in and, inside a switch or a creation, a second one. */
  predicate Holds(th: Thread, f: Uid) {
    var pc := th.pc;
    if Leaving(pc) then f == pc.from || f == pc.to
    else if pc.JumpNew? || pc.RelockCreator? then f == pc.c
    else if pc.SaveCreator? || pc.ReleaseCreator? || pc.SaveNew? || pc.ReleaseNew? then f == th.current || f == pc.c
    else f == th.current
  }

  /** A creating thread also disposes of the fiber it makes and of the one it came from. */
  predicate Disposes(th: Thread, f: Uid) {
    Holds(th, f) || (Creating(th.pc) && (f == th.current || (f == th.pc.c && !th.pc.JumpBack?)))
  }

  // ---------- the invariant ----------

  /** What a thread holds, and what it disposes of. */
  ghost predicate HoldingInv(s: State, t: Tid)
    requires t in s.threads
  {
    var th := s.threads[t];
    var pc := th.pc;
    && th.current in s.fibers
    && (Leaving(pc) ==> pc.from in s.fibers && pc.to in s.fibers && pc.from != pc.to)
    && (Leaving(pc) ==> th.current == if pc.SetCurrent? then pc.from else pc.to)
    && (pc.LoadA? || pc.LoadB? ==> th.current == pc.to)
    && (Creating(pc) ==> t == s.mainThread && !s.initComplete && pc.c in s.fibers && pc.c != th.current)
    && (forall f :: f in s.fibers ==> (Disposes(th, f) <==> s.fibers[f].owner == Some(t)))
    && (forall f :: f in s.fibers && Disposes(th, f) ==> (s.fibers[f].running <==> Holds(th, f)))
  }

  ghost predicate ThreadInv(s: State, t: Tid)
    requires t in s.threads
  {
    HoldingInv(s, t) && ContextInv(s, s.threads[t])
  }

  /** How far a save or a load has come. */
  ghost predicate ContextInv(s: State, th: Thread)
    requires th.current in s.fibers
    requires Leaving(th.pc) ==> th.pc.from in s.fibers && th.pc.to in s.fibers
    requires th.pc.LoadA? || th.pc.LoadB? ==> th.pc.to in s.fibers
    requires Creating(th.pc) ==> th.pc.c in s.fibers
  {
    var pc := th.pc;
    && (Leaving(pc) || pc.LoadA? || pc.LoadB? ==> s.fibers[pc.to].saved == s.fibers[pc.to].left)
    && (Leaving(pc) || pc.Tramp? || pc.LockNew? || pc.SaveCreator? || pc.ReleaseCreator? ==> th.cpu == th.was)
    && (pc.JumpNew? || pc.RelockCreator? || pc.SaveNew? || pc.ReleaseNew? || pc.JumpBack? ==>
        s.fibers[th.current].left == th.was)
    && (pc.SaveB? ==> s.fibers[pc.from].saved.a == th.cpu.a)
    && (pc.Release? ==> s.fibers[pc.from].saved == th.cpu)
    && (pc.LoadB? ==> th.cpu.a == s.fibers[pc.to].left.a)
    && (pc.ReleaseCreator? ==> s.fibers[th.current].saved == th.cpu)
    && (pc.JumpNew? || pc.RelockCreator? || pc.SaveNew? || pc.ReleaseNew? || pc.JumpBack? ==>
        s.fibers[th.current].saved == s.fibers[th.current].left)
    && (pc.ReleaseNew? ==> s.fibers[pc.c].saved == th.cpu)
    && (pc.SaveNew? || pc.ReleaseNew? ==> th.cpu == Ctx(Boot(pc.entry), Boot(pc.entry)))
  }

  /** A fiber nobody disposes of is not running and its saved context is the complete one with which
      it was left. */
  ghost predicate FiberInv(s: State, f: Uid)
    requires f in s.fibers
  {
    var u := s.fibers[f];
    if u.owner.Some? then u.owner.value in s.threads else !u.running && u.saved == u.left
  }

  ghost predicate Inv(s: State) {
    && (forall f :: f in s.fibers <==> 0 <= f < s.ultId)
    && (forall t {:trigger ThreadInv(s, t)} :: t in s.threads ==> ThreadInv(s, t))
    && (forall f {:trigger FiberInv(s, f)} :: f in s.fibers ==> FiberInv(s, f))
  }

  /** The invariant is kept by a step of t that rewrites one fiber g, which no other thread disposes of. */
  lemma OneFiberKeepsInv(s: State, r: State, t: Tid, g: Uid)
    requires Inv(s) && t in r.threads && g in r.fibers
    requires r.threads == s.threads[t := r.threads[t]] && r.fibers == s.fibers[g := r.fibers[g]]
    requires if g in s.fibers then r.ultId == s.ultId else g == s.ultId && r.ultId == s.ultId + 1
    requires r.mainThread == s.mainThread && r.initComplete == s.initComplete
    requires g in s.fibers ==> s.fibers[g].owner == Some(t) || s.fibers[g].owner == None
    requires r.fibers[g].owner == Some(t) || r.fibers[g].owner == None
    requires ThreadInv(r, t) && FiberInv(r, g)
    ensures Inv(r)
  {
    forall u | u in r.threads && u != t ensures ThreadInv(r, u) {
      OtherThread(s, r, t, g, u);
    }
    forall f | f in r.fibers && f != g ensures FiberInv(r, f) {
      assert FiberInv(s, f);
    }
  }

  lemma OtherThread(s: State, r: State, t: Tid, g: Uid, u: Tid)
    requires Inv(s) && t in r.threads && g in r.fibers && u in s.threads && u != t
    requires r.threads == s.threads[t := r.threads[t]] && r.fibers == s.fibers[g := r.fibers[g]]
    requires g in s.fibers || g == s.ultId
    requires r.mainThread == s.mainThread && r.initComplete == s.initComplete
    requires g in s.fibers ==> s.fibers[g].owner == Some(t) || s.fibers[g].owner == None
    requires r.fibers[g].owner == Some(t) || r.fibers[g].owner == None
    ensures ThreadInv(r, u)
  {
    assert ThreadInv(s, u);
    var th := s.threads[u];
    assert g !in s.fibers || !Disposes(th, g);
    assert Disposes(th, th.current);
    assert Leaving(th.pc) ==> Disposes(th, th.pc.from) && Disposes(th, th.pc.to);
    assert Creating(th.pc) && !th.pc.JumpBack? ==> Disposes(th, th.pc.c);
    assert !Disposes(th, g);
    assert ContextInv(r, th);
  }

  /** The fiber a step of t inside a switch or a creation writes. */
  function Touched(th: Thread): Uid {
    match th.pc
    case Idle => th.current
    case SetCurrent(from, _) => from
    case SaveA(from, _) => from
    case SaveB(from, _) => from
    case Release(from, _) => from
    case LoadA(to) => to
    case LoadB(to) => to
    case Tramp(c, _) => c
    case LockNew(c, _) => c
    case SaveNew(c, _) => c
    case ReleaseNew(c, _) => c
    case _ => th.current
  }

  /** A step of t writes at most the fiber g, of which t disposes before and after if anyone does. */
  ghost predicate Touches(s: State, r: State, t: Tid, g: Uid) {
    && t in r.threads && r.threads == s.threads[t := r.threads[t]]
    && g in s.fibers && g in r.fibers && r.fibers == s.fibers[g := r.fibers[g]]
    && r.ultId == s.ultId && r.mainThread == s.mainThread && r.initComplete == s.initComplete
    && (s.fibers[g].owner == Some(t) || s.fibers[g].owner == None)
    && (r.fibers[g].owner == Some(t) || r.fibers[g].owner == None)
  }

  lemma SwitchTouches(s: State, t: Tid, r: State)
    requires Inv(s) && t in s.threads && !Creating(s.threads[t].pc) && InsideSwitch(s, t) == Some(r)
    ensures Touches(s, r, t, Touched(s.threads[t]))
  {
    assert ThreadInv(s, t);
    hide Inv;
  }

  lemma SwitchHolding(s: State, t: Tid, r: State)
    requires Inv(s) && t in s.threads && !Creating(s.threads[t].pc) && InsideSwitch(s, t) == Some(r)
    ensures t in r.threads && HoldingInv(r, t)
  {
    assert ThreadInv(s, t);
    hide Inv, ContextInv;
  }

  lemma SwitchContext(s: State, t: Tid, r: State)
    requires Inv(s) && t in s.threads && !Creating(s.threads[t].pc) && InsideSwitch(s, t) == Some(r)
    requires t in r.threads && HoldingInv(r, t)
    ensures ContextInv(r, r.threads[t])
  {
    assert ThreadInv(s, t);
    hide Inv;
  }

  lemma CreatTouches(s: State, t: Tid, r: State)
    requires Inv(s) && t in s.threads && Creating(s.threads[t].pc) && InsideCreat(s, t) == Some(r)
    ensures Touches(s, r, t, Touched(s.threads[t]))
  {
    assert ThreadInv(s, t);
    hide Inv;
  }

  lemma CreatHolding(s: State, t: Tid, r: State)
    requires Inv(s) && t in s.threads && Creating(s.threads[t].pc) && InsideCreat(s, t) == Some(r)
    ensures t in r.threads && HoldingInv(r, t)
  {
    assert ThreadInv(s, t);
    hide Inv, ContextInv;
  }

  lemma CreatContext(s: State, t: Tid, r: State)
    requires Inv(s) && t in s.threads && Creating(s.threads[t].pc) && InsideCreat(s, t) == Some(r)
    requires t in r.threads && HoldingInv(r, t)
    ensures ContextInv(r, r.threads[t])
  {
    assert ThreadInv(s, t);
    hide Inv;
  }

  /** A fiber that is given up has been saved in full. */
  lemma TouchedFiber(s: State, t: Tid, r: State)
    requires Inv(s) && t in s.threads && Inside(s, t) == Some(r) && Touches(s, r, t, Touched(s.threads[t]))
    ensures FiberInv(r, Touched(s.threads[t]))
  {
    assert ThreadInv(s, t) && FiberInv(s, Touched(s.threads[t]));
    hide Inv;
  }

  lemma InsideKeepsInv(s: State, t: Tid, r: State)
    requires Inv(s) && t in s.threads && Inside(s, t) == Some(r)
    ensures Inv(r)
  {
    hide InsideSwitch, InsideCreat, HoldingInv, ContextInv, FiberInv;
    if Creating(s.threads[t].pc) {
      CreatTouches(s, t, r);
      CreatHolding(s, t, r);
      CreatContext(s, t, r);
    } else {
      SwitchTouches(s, t, r);
      SwitchHolding(s, t, r);
      SwitchContext(s, t, r);
    }
    TouchedFiber(s, t, r);
    OneFiberKeepsInv(s, r, t, Touched(s.threads[t]));
  }

  lemma NextKeepsInv(s: State, a: Action)
    requires Inv(s) && Next(s, a).Some?
    ensures Inv(Next(s, a).value)
  {
    match a
    case Compute(t, cpu) => ComputeKeepsInv(s, t, cpu);
    case Convert(t, cpu) => ConvertKeepsInv(s, t, cpu);
    case Creat(t, entry) => CreatKeepsInv(s, t, entry);
    case CompleteInit => CompleteInitKeepsInv(s);
    case SwitchTo(t, to) => SwitchToKeepsInv(s, t, to);
    case Advance(t) => InsideKeepsInv(s, t, Next(s, a).value);
  }

  lemma ComputeKeepsInv(s: State, t: Tid, cpu: Ctx)
    requires Inv(s) && Next(s, Compute(t, cpu)).Some?
    ensures Inv(Next(s, Compute(t, cpu)).value)
  {
    var r := Next(s, Compute(t, cpu)).value;
    assert ThreadInv(s, t);
    var g := s.threads[t].current;
    assert FiberInv(s, g) && Disposes(s.threads[t], g);
    assert FiberInv(r, g) && ThreadInv(r, t);
    OneFiberKeepsInv(s, r, t, g);
  }

  lemma ConvertKeepsInv(s: State, t: Tid, cpu: Ctx)
    requires Inv(s) && Next(s, Convert(t, cpu)).Some?
    ensures Inv(Next(s, Convert(t, cpu)).value)
  {
    var r := Next(s, Convert(t, cpu)).value;
    assert ThreadInv(r, t) by {
      forall f | f in r.fibers && f != s.ultId ensures r.fibers[f].owner != Some(t) {
        assert FiberInv(s, f);
      }
    }
    OneFiberKeepsInv(s, r, t, s.ultId);
  }

  lemma CreatKeepsInv(s: State, t: Tid, entry: int)
    requires Inv(s) && Next(s, Creat(t, entry)).Some?
    ensures Inv(Next(s, Creat(t, entry)).value)
  {
    var r := Next(s, Creat(t, entry)).value;
    assert ThreadInv(s, t);
    assert ThreadInv(r, t);
    OneFiberKeepsInv(s, r, t, s.ultId);
  }

  lemma CompleteInitKeepsInv(s: State)
    requires Inv(s) && Next(s, CompleteInit).Some?
    ensures Inv(Next(s, CompleteInit).value)
  {
    var r := Next(s, CompleteInit).value;
    forall t | t in r.threads ensures ThreadInv(r, t) {
      assert ThreadInv(s, t);
    }
    forall f | f in r.fibers ensures FiberInv(r, f) {
      assert FiberInv(s, f);
    }
  }

  lemma SwitchToKeepsInv(s: State, t: Tid, to: Uid)
    requires Inv(s) && Next(s, SwitchTo(t, to)).Some?
    ensures Inv(Next(s, SwitchTo(t, to)).value)
  {
    var r := Next(s, SwitchTo(t, to)).value;
    if to in s.fibers && !s.fibers[to].running {
      assert ThreadInv(s, t) && FiberInv(s, to);
      FreeIsUnowned(s, to);
      assert ThreadInv(r, t) && FiberInv(r, to);
      OneFiberKeepsInv(s, r, t, to);
    }
  }

  lemma FreeIsUnowned(s: State, f: Uid)
    requires Inv(s) && f in s.fibers && !s.fibers[f].running && s.initComplete
    ensures s.fibers[f].owner == None
  {
    var o := s.fibers[f].owner;
    assert FiberInv(s, f);
    assert o.Some? ==> ThreadInv(s, o.value);
  }

  /** Thread th is in the middle of a creation from or of fiber f. */
  predicate MakingWith(th: Thread, f: Uid) {
    Creating(th.pc) && !th.pc.JumpBack? && (f == th.current || f == th.pc.c)
  }

  /** A fiber is at nobody's disposal exactly if its flag is clear and no creation goes on with it. */
  lemma UnownedExactly(s: State, f: Uid)
    requires Inv(s) && f in s.fibers
    ensures s.fibers[f].owner == None <==>
      !s.fibers[f].running && forall t :: t in s.threads ==> !MakingWith(s.threads[t], f)
  {
    var o := s.fibers[f].owner;
    assert FiberInv(s, f);
    if o.Some? {
      assert ThreadInv(s, o.value);
      assert Disposes(s.threads[o.value], f);
      assert o.value in s.threads && (s.fibers[f].running || MakingWith(s.threads[o.value], f));
    } else {
      forall t | t in s.threads ensures !MakingWith(s.threads[t], f) {
        assert ThreadInv(s, t);
      }
    }
  }

  // ---------- whole runs ----------

  /** The state after the actions, if each of them could be taken. */
  function Run(s: State, actions: seq<Action>): Option<State>
    requires Inv(s)
    decreases |actions|
  {
    if actions == [] then Some(s)
    else if Next(s, actions[0]).None? then None
    else
      NextKeepsInv(s, actions[0]);
      Run(Next(s, actions[0]).value, actions[1..])
  }

  lemma {:induction false} RunKeepsInv(s: State, actions: seq<Action>)
    requires Inv(s) && Run(s, actions).Some?
    ensures Inv(Run(s, actions).value)
    decreases |actions|
  {
    if actions != [] {
      NextKeepsInv(s, actions[0]);
      RunKeepsInv(Next(s, actions[0]).value, actions[1..]);
    }
  }

  /** After any run the flag of a fiber is set exactly when a thread holds the fiber, and then one
      thread only. */
  lemma OneHolder(mainThread: Tid, actions: seq<Action>, f: Uid)
    requires Run(Start(mainThread), actions).Some?
    requires f in Run(Start(mainThread), actions).value.fibers
    ensures var r := Run(Start(mainThread), actions).value;
      && (r.fibers[f].running <==> exists t :: t in r.threads && Holds(r.threads[t], f))
      && (forall t, u :: t in r.threads && u in r.threads && Holds(r.threads[t], f) && Holds(r.threads[u], f) ==>
        t == u)
  {
    RunKeepsInv(Start(mainThread), actions);
    HolderIsUnique(Run(Start(mainThread), actions).value, f);
  }

  lemma HolderIsUnique(s: State, f: Uid)
    requires Inv(s) && f in s.fibers
    ensures s.fibers[f].running <==> exists t :: t in s.threads && Holds(s.threads[t], f)
    ensures forall t, u :: t in s.threads && u in s.threads && Holds(s.threads[t], f) && Holds(s.threads[u], f) ==>
      t == u
  {
    forall t | t in s.threads && Holds(s.threads[t], f) ensures s.fibers[f].running && s.fibers[f].owner == Some(t) {
      assert ThreadInv(s, t);
    }
    assert FiberInv(s, f);
    var o := s.fibers[f].owner;
    assert o.Some? ==> ThreadInv(s, o.value);
  }

  /** After any run the saved context of an unlocked fiber is a complete one, the context with which
      the fiber was last left, unless the main thread has yet to lock the fiber it is creating. */
  lemma UnlockedIsComplete(mainThread: Tid, actions: seq<Action>, f: Uid)
    requires Run(Start(mainThread), actions).Some?
    requires var r := Run(Start(mainThread), actions).value;
      && f in r.fibers && !r.fibers[f].running
      && !(mainThread in r.threads && (r.threads[mainThread].pc.Tramp? || r.threads[mainThread].pc.LockNew?)
           && r.threads[mainThread].pc.c == f)
    ensures var u := Run(Start(mainThread), actions).value.fibers[f]; u.saved == u.left
  {
    var r := Run(Start(mainThread), actions).value;
    RunKeepsInv(Start(mainThread), actions);
    RunKeepsMain(Start(mainThread), actions);
    assert FiberInv(r, f);
    var o := r.fibers[f].owner;
    assert o.Some? ==> ThreadInv(r, o.value);
  }

  lemma {:induction false} RunKeepsMain(s: State, actions: seq<Action>)
    requires Inv(s) && Run(s, actions).Some?
    ensures Run(s, actions).value.mainThread == s.mainThread
    decreases |actions|
  {
    if actions != [] {
      NextKeepsInv(s, actions[0]);
      RunKeepsMain(Next(s, actions[0]).value, actions[1..]);
    }
  }

  /** No thread is ever stuck inside a switch or a creation: neither lock of a creation spins. */
  lemma NeverStuck(mainThread: Tid, actions: seq<Action>, t: Tid)
    requires Run(Start(mainThread), actions).Some?
    requires var r := Run(Start(mainThread), actions).value; t in r.threads && r.threads[t].pc != Idle
    ensures Run(Start(mainThread), actions + [Advance(t)]).Some?
  {
    var r := Run(Start(mainThread), actions).value;
    RunKeepsInv(Start(mainThread), actions);
    assert ThreadInv(r, t);
    RunOneMore(Start(mainThread), actions, Advance(t));
  }

  lemma {:induction false} RunOneMore(s: State, actions: seq<Action>, a: Action)
    requires Inv(s) && Run(s, actions).Some? && Inv(Run(s, actions).value)
    ensures Run(s, actions + [a]) == Next(Run(s, actions).value, a)
    decreases |actions|
  {
    if actions == [] {
      assert [a][1..] == [];
    } else {
      NextKeepsInv(s, actions[0]);
      RunOneMore(Next(s, actions[0]).value, actions[1..], a);
      assert (actions + [a])[1..] == actions[1..] + [a];
    }
  }

  // ---------- contexts come back ----------

  /** The action gives up the flag of f. */
  predicate Leaves(s: State, a: Action, f: Uid) {
    a.Advance? && a.t in s.threads &&
    var th := s.threads[a.t];
    (th.pc.Release? && f == th.pc.from) || (th.pc.ReleaseCreator? && f == th.current)
      || (th.pc.ReleaseNew? && f == th.pc.c)
  }

  predicate NeverLeft(s: State, actions: seq<Action>, f: Uid)
    requires Inv(s) && Run(s, actions).Some?
    decreases |actions|
  {
    actions != [] ==>
      !Leaves(s, actions[0], f) &&
      (NextKeepsInv(s, actions[0]); NeverLeft(Next(s, actions[0]).value, actions[1..], f))
  }

  lemma LeftStep(s: State, a: Action, f: Uid)
    requires Inv(s) && Next(s, a).Some? && f in s.fibers && !Leaves(s, a, f)
    ensures f in Next(s, a).value.fibers && Next(s, a).value.fibers[f].left == s.fibers[f].left
  {
  }

  lemma {:induction false} LeftKept(s: State, actions: seq<Action>, f: Uid)
    requires Inv(s) && Run(s, actions).Some? && f in s.fibers && NeverLeft(s, actions, f)
    ensures f in Run(s, actions).value.fibers && Run(s, actions).value.fibers[f].left == s.fibers[f].left
    decreases |actions|
  {
    if actions != [] {
      hide Inv, Next, Leaves;
      LeftStep(s, actions[0], f);
      NextKeepsInv(s, actions[0]);
      LeftKept(Next(s, actions[0]).value, actions[1..], f);
    }
  }

  /** Whatever all threads do from a state in which f is at nobody's disposal, until f is left again the
      thread that switches into f ends up with the context f has in that state, in full. */
  lemma ContextComesBack(s: State, actions: seq<Action>, f: Uid, t: Tid)
    requires Inv(s) && Run(s, actions).Some?
    requires f in s.fibers && s.fibers[f].owner == None && NeverLeft(s, actions, f)
    requires var r := Run(s, actions).value; t in r.threads && r.threads[t].pc == LoadB(f)
    ensures var r := Run(s, actions + [Advance(t)]);
      r.Some? && t in r.value.threads && r.value.threads[t].cpu == s.fibers[f].saved && r.value.threads[t].current == f
  {
    var r := Run(s, actions).value;
    assert FiberInv(s, f);
    LeftKept(s, actions, f);
    RunKeepsInv(s, actions);
    assert ThreadInv(r, t);
    RunOneMore(s, actions, Advance(t));
  }

  /** A thread that leaves a fiber leaves it with the context in which it called ult_switch_to. */
  lemma LeftAsCalled(s: State, t: Tid)
    requires Inv(s) && t in s.threads && s.threads[t].pc.Release?
    ensures var f := s.threads[t].pc.from; var r := Inside(s, t);
      r.Some? && f in r.value.fibers && !r.value.fibers[f].running && r.value.fibers[f].saved == s.threads[t].was
  {
    assert ThreadInv(s, t);
  }

  // ---------- a whole creation ----------

  /** Thread t is creating fiber c, called from fiber `cur` with context `was`; the fiber is suspended
      before its entry point as soon as t only has to jump back. */
  ghost predicate InCreation(s: State, t: Tid, c: Uid, entry: int, was: Ctx, cur: Uid) {
    && t in s.threads && Creating(s.threads[t].pc)
    && s.threads[t].pc.c == c && s.threads[t].pc.entry == entry
    && s.threads[t].was == was && s.threads[t].current == cur
    && (s.threads[t].pc.JumpBack? ==> c in s.fibers && SuspendedAtEntry(s.fibers[c], entry))
  }

  predicate SuspendedAtEntry(u: Ult, entry: int) {
    !u.running && u.owner == None && u.saved == Ctx(Boot(entry), Boot(entry))
  }

  predicate NeverReturns(s: State, actions: seq<Action>, t: Tid)
    requires Inv(s) && Run(s, actions).Some?
    decreases |actions|
  {
    && t in s.threads && s.threads[t].pc != Idle
    && (actions != [] ==> (NextKeepsInv(s, actions[0]); NeverReturns(Next(s, actions[0]).value, actions[1..], t)))
  }

  lemma OwnCreationStep(s: State, t: Tid, r: State, c: Uid, entry: int, was: Ctx, cur: Uid)
    requires Inv(s) && InCreation(s, t, c, entry, was, cur) && InsideCreat(s, t) == Some(r)
    requires t in r.threads && r.threads[t].pc != Idle
    ensures InCreation(r, t, c, entry, was, cur)
  {
    assert ThreadInv(s, t);
    hide Inv;
  }

  /** A step never writes a fiber of which nobody disposes, while the main thread is creating. */
  lemma UnownedUntouched(s: State, a: Action, t: Tid, r: State, c: Uid)
    requires Inv(s) && t in s.threads && Creating(s.threads[t].pc) && a != Advance(t) && Next(s, a) == Some(r)
    requires c in s.fibers && s.fibers[c].owner == None
    ensures t in r.threads && r.threads[t] == s.threads[t] && c in r.fibers && r.fibers[c] == s.fibers[c]
  {
    assert ThreadInv(s, t);
    if a.Advance? {
      var u := a.t;
      assert ThreadInv(s, u);
      TouchedIsOwned(s, u);
      hide Inv, InsideCreat, InsideSwitch;
      if Creating(s.threads[u].pc) {
        CreatTouches(s, u, r);
      } else {
        SwitchTouches(s, u, r);
      }
    }
  }

  lemma TouchedIsOwned(s: State, t: Tid)
    requires Inv(s) && t in s.threads && s.threads[t].pc != Idle && Touched(s.threads[t]) in s.fibers
    ensures s.fibers[Touched(s.threads[t])].owner == Some(t)
  {
    assert ThreadInv(s, t);
    assert Disposes(s.threads[t], Touched(s.threads[t]));
  }

  lemma OthersCreationStep(s: State, a: Action, t: Tid, r: State, c: Uid, entry: int, was: Ctx, cur: Uid)
    requires Inv(s) && InCreation(s, t, c, entry, was, cur) && a != Advance(t) && Next(s, a) == Some(r)
    ensures InCreation(r, t, c, entry, was, cur)
  {
    assert ThreadInv(s, t);
    if s.threads[t].pc.JumpBack? {
      UnownedUntouched(s, a, t, r, c);
    }
  }

  lemma {:induction false} CreationRun(s: State, actions: seq<Action>, t: Tid, c: Uid, entry: int, was: Ctx, cur: Uid)
    requires Inv(s) && InCreation(s, t, c, entry, was, cur) && Run(s, actions).Some? && NeverReturns(s, actions, t)
    ensures InCreation(Run(s, actions).value, t, c, entry, was, cur)
    decreases |actions|
  {
    if actions != [] {
      var r := Next(s, actions[0]).value;
      NextKeepsInv(s, actions[0]);
      assert t in r.threads && r.threads[t].pc != Idle;
      if actions[0] == Advance(t) {
        OwnCreationStep(s, t, r, c, entry, was, cur);
      } else {
        OthersCreationStep(s, actions[0], t, r, c, entry, was, cur);
      }
      hide Inv, Next;
      CreationRun(r, actions[1..], t, c, entry, was, cur);
    }
  }

  ghost function After(s: State, a: Action): (r: State)
    requires Inv(s) && Next(s, a).Some?
    ensures Inv(r) && Next(s, a) == Some(r)
  {
    NextKeepsInv(s, a);
    Next(s, a).value
  }

  /** Thread t enters ult_creat; after further actions all that is left for it is to jump back. */
  ghost predicate JumpingBack(s: State, t: Tid, entry: int, actions: seq<Action>)
    requires Inv(s)
  {
    && Next(s, Creat(t, entry)).Some? && Run(After(s, Creat(t, entry)), actions).Some?
    && NeverReturns(After(s, Creat(t, entry)), actions, t)
    && var r := Run(After(s, Creat(t, entry)), actions).value;
      t in r.threads && r.threads[t].pc.JumpBack?
  }

  /** From entering ult_creat to returning, whatever other threads do meanwhile: the new fiber is left
      unlocked, about to start its entry point, and the creator goes on in its own fiber with the
      context in which it called. */
  lemma CreationReturns(s: State, t: Tid, entry: int, actions: seq<Action>)
    requires Inv(s) && JumpingBack(s, t, entry, actions)
    ensures var r := Run(After(s, Creat(t, entry)), actions + [Advance(t)]);
      && r.Some? && Inv(r.value) && t in s.threads && t in r.value.threads
      && r.value.threads[t].pc == Idle && r.value.threads[t].cpu == s.threads[t].cpu
      && r.value.threads[t].current == s.threads[t].current && s.threads[t].current in r.value.fibers
      && r.value.fibers[s.threads[t].current].running
      && s.ultId !in s.fibers && s.ultId in r.value.fibers && SuspendedAtEntry(r.value.fibers[s.ultId], entry)
  {
    var s1 := After(s, Creat(t, entry));
    CreationRun(s1, actions, t, s.ultId, entry, s.threads[t].cpu, s.threads[t].current);
    RunKeepsInv(s1, actions);
    RunOneMore(s1, actions, Advance(t));
    var r1 := Run(s1, actions).value;
    assert ThreadInv(r1, t);
    NextKeepsInv(r1, Advance(t));
  }

  /** The state in which ult_creat has returned. */
  ghost function Created(s: State, t: Tid, entry: int, actions: seq<Action>): (r: State)
    requires Inv(s) && JumpingBack(s, t, entry, actions)
    ensures Inv(r)
  {
    CreationReturns(s, t, entry, actions);
    Run(After(s, Creat(t, entry)), actions + [Advance(t)]).value
  }

  /** And the first thread to switch into the new fiber, whenever it does, starts at its entry point. */
  lemma FirstSwitchStartsAtEntry(s: State, t: Tid, entry: int, actions: seq<Action>, more: seq<Action>, u: Tid)
    requires Inv(s) && JumpingBack(s, t, entry, actions)
    requires var r := Created(s, t, entry, actions);
      && Run(r, more).Some? && NeverLeft(r, more, s.ultId)
      && u in Run(r, more).value.threads && Run(r, more).value.threads[u].pc == LoadB(s.ultId)
    ensures var r := Run(Created(s, t, entry, actions), more + [Advance(u)]);
      && r.Some? && u in r.value.threads
      && r.value.threads[u].cpu == Ctx(Boot(entry), Boot(entry)) && r.value.threads[u].current == s.ultId
  {
    hide Inv, Next, NeverLeft, JumpingBack;
    CreationReturns(s, t, entry, actions);
    ContextComesBack(Created(s, t, entry, actions), more, s.ultId, u);
  }
}
