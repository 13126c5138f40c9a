/**
 When the calls of fib_switch_to that are in progress are sure to return, whatever the scheduler does,
 and what a caller has to look at before a call for that to stay so.
 */
module KernelTangle {
  import opened Common
  import opened FiberTypes
  import opened KernelSwitch
  import opened KernelProgress

  // ---------- tangles ----------

  /** The other fiber that a thread which does not hold both locks yet will ask for. */
  function Target(pc: Pc): Option<Fid> {
    if (pc.WantOld? || pc.HaveOld?) && pc.id != pc.o then Some(pc.id)
    else if pc.WantNew? then Some(pc.n)
    else None
  }

  predicate RunIn(s: State, f: Fid, k: set<Tid>, u: Tid) {
    u in k && u in s.threads && s.threads[u].runner == f
  }

  ghost predicate Wants(s: State, t: Tid, k: set<Tid>) {
    t in s.threads && Target(s.threads[t].pc).Some? && exists u :: RunIn(s, Target(s.threads[t].pc).value, k, u)
  }

  /** Undecided callers, each of which wants the fiber of another. */
  ghost predicate Tangle(s: State, k: set<Tid>) {
    k != {} && forall t :: t in k ==> Wants(s, t, k)
  }

  ghost predicate Tangled(s: State) {
    exists k :: Tangle(s, k)
  }

  lemma HolderRuns(s: State, f: Fid, u: Tid)
    requires Inv(s) && f in s.fibers && s.fibers[f].lock == Some(u) && u in s.threads && Target(s.threads[u].pc).Some?
    ensures s.threads[u].runner == f
  {
    assert FiberInv(s, f) && ThreadInv(s, u);
  }

  lemma KnotIsTangle(s: State, k: set<Tid>)
    requires Inv(s) && Knot(s, k)
    ensures Tangle(s, k)
  {
    hide Inv;
    forall t | t in k ensures Wants(s, t, k) {
      assert Bound(s, t, k);
      var f := Asks(s.threads[t].pc).value;
      var u: Tid := s.fibers[f].lock.value;
      assert Bound(s, u, k);
      HolderRuns(s, f, u);
      assert RunIn(s, f, k, u);
    }
  }

  /** An undecided thread was undecided before its step, with the same fiber and the same target. */
  lemma UndecidedBefore(s: State, t: Tid, clock: int, r: State, call: Option<Call>)
    requires Inv(s) && t in s.threads && SwitchStep(s, t, clock) == Move(r, call)
    requires t in r.threads && Target(r.threads[t].pc).Some?
    ensures SameWish(s, r, t)
  {
    hide Inv;
  }

  /** The thread has the same fiber and the same target in both states. */
  predicate SameWish(s: State, r: State, t: Tid) {
    && t in s.threads && t in r.threads
    && r.threads[t].runner == s.threads[t].runner && Target(r.threads[t].pc) == Target(s.threads[t].pc)
  }

  lemma SameWishes(s: State, r: State, k: set<Tid>)
    requires Tangle(s, k) && forall t :: t in k ==> SameWish(s, r, t)
    ensures Tangle(r, k)
  {
    hide Target;
    forall t | t in k ensures Wants(r, t, k) {
      assert SameWish(s, r, t) && Wants(s, t, k);
      var u :| RunIn(s, Target(s.threads[t].pc).value, k, u);
      assert SameWish(s, r, u);
      assert RunIn(r, Target(s.threads[t].pc).value, k, u);
    }
  }

  /** Only entering fib_switch_to can tangle threads. */
  lemma NoNewTangle(s: State, a: Action, k: set<Tid>)
    requires Inv(s) && Next(s, a).Move? && !a.Enter? && Tangle(Next(s, a).s, k)
    ensures Tangle(s, k)
  {
    hide Inv, SwitchStep;
    var r := Next(s, a).s;
    if a.Advance? {
      IsStepOf(s, a.t, a.clock, r, Next(s, a).call);
      if a.t in k {
        assert Wants(r, a.t, k);
        UndecidedBefore(s, a.t, a.clock, r, Next(s, a).call);
      }
    }
    forall t | t in k ensures SameWish(r, s, t) {
      assert Wants(r, t, k);
    }
    SameWishes(r, s, k);
  }

  // ---------- a tangle can become a knot ----------

  /** A tangle in which every thread has its first lock is a knot. */
  lemma AllLockedIsKnot(s: State, k: set<Tid>)
    requires Inv(s) && Tangle(s, k) && forall t :: t in k ==> t in s.threads && !s.threads[t].pc.WantOld?
    ensures Knot(s, k)
  {
    hide Inv;
    forall t | t in k ensures Bound(s, t, k) {
      assert Wants(s, t, k);
      var u :| RunIn(s, Target(s.threads[t].pc).value, k, u);
      assert Wants(s, u, k);
      assert ThreadInv(s, u) by { EveryThread(s, u); }
    }
  }

  lemma EveryThread(s: State, t: Tid)
    requires Inv(s) && t in s.threads
    ensures ThreadInv(s, t)
  {
  }

  /** A thread of a tangle that waits for its first lock, or the thread that keeps it waiting, can go
      on without leaving the tangle. */
  lemma Tighten(s: State, k: set<Tid>, t: Tid) returns (u: Tid)
    requires Inv(s) && Tangle(s, k) && t in k && t in s.threads && s.threads[t].pc.WantOld?
    ensures CanStep(s, u) && Tangle(SwitchStep(s, u, 0).s, k)
  {
    hide Inv, SwitchStep;
    assert ThreadInv(s, t) by { EveryThread(s, t); }
    var o := s.threads[t].pc.o;
    OnlyLocksBlock(s, t, 0);
    if s.fibers[o].lock.None? {
      u := t;
      FirstLockKeepsTarget(s, t, 0, SwitchStep(s, t, 0).s, SwitchStep(s, t, 0).call);
    } else {
      u := HolderHolds(s, o);
      HolderGoesOn(s, k, t, u);
    }
    OthersKeepTangle(s, k, u, SwitchStep(s, u, 0).s, SwitchStep(s, u, 0).call);
  }

  lemma FirstLockKeepsTarget(s: State, t: Tid, clock: int, r: State, call: Option<Call>)
    requires Inv(s) && t in s.threads && s.threads[t].pc.WantOld? && SwitchStep(s, t, clock) == Move(r, call)
    ensures SameWish(s, r, t)
  {
    hide Inv;
  }

  /** Whoever holds the lock of another thread's fiber is past asking for locks. */
  lemma HolderGoesOn(s: State, k: set<Tid>, t: Tid, u: Tid)
    requires Inv(s) && Tangle(s, k) && t in s.threads && s.threads[t].pc.WantOld?
    requires s.threads[t].pc.o in s.fibers && s.fibers[s.threads[t].pc.o].lock == Some(u)
    requires u in s.threads && !HoldsNothing(s.threads[u].pc)
    ensures u !in k && CanStep(s, u)
  {
    hide SwitchStep;
    var o := s.threads[t].pc.o;
    assert FiberInv(s, o) && ThreadInv(s, u) && ThreadInv(s, t);
    InvMeansInverse(s);
    assert u in k ==> Wants(s, u, k);
    OnlyLocksBlock(s, u, 0);
  }

  lemma OthersKeepTangle(s: State, k: set<Tid>, u: Tid, r: State, call: Option<Call>)
    requires Inv(s) && Tangle(s, k) && u in s.threads && SwitchStep(s, u, 0) == Move(r, call)
    requires u in k ==> SameWish(s, r, u)
    ensures Tangle(r, k)
  {
    hide Inv, SwitchStep, Target;
    IsStepOf(s, u, 0, r, call);
    TangleThreads(s, k);
    SameWishes(s, r, k);
  }

  lemma {:induction false} TieUp(s: State, k: set<Tid>) returns (rest: seq<Action>)
    requires Inv(s) && Tangle(s, k)
    ensures OnlyAdvances(rest) && Knot(End(s, rest), k)
    decreases Work(s.threads)
  {
    hide Inv, SwitchStep, Work, Tangle, Execute, End;
    if t :| t in k && t in s.threads && s.threads[t].pc.WantOld? {
      var u := Tighten(s, k, t);
      var m := SwitchStep(s, u, 0);
      AdvanceKeepsInv(s, u, 0, m.s, m.call);
      StepsDecrease(s, u, 0, m.s, m.call);
      rest := TieUp(m.s, k);
      EndCons(s, Advance(u, 0), rest);
      rest := [Advance(u, 0)] + rest;
    } else {
      rest := [];
      TangleThreads(s, k);
      AllLockedIsKnot(s, k);
      NoActions(s);
    }
  }

  lemma TangleThreads(s: State, k: set<Tid>)
    requires Tangle(s, k)
    ensures forall t :: t in k ==> t in s.threads
    ensures exists t :: t in k && t in s.threads
  {
    forall t | t in k ensures t in s.threads {
      assert Wants(s, t, k);
    }
    assert exists t :: t in k by { assert (forall t :: t !in k) ==> k == {}; }
  }

  // ---------- all schedules ----------

  /** No call in progress can go on. */
  ghost predicate Halted(s: State)
    requires Inv(s)
  {
    forall t :: !CanStep(s, t)
  }

  /** Whatever the scheduler does, the calls in progress do not stop before all of them have returned. */
  ghost predicate SureToReturn(s: State)
    requires Inv(s)
  {
    forall rest :: OnlyAdvances(rest) && Halted(End(s, rest)) ==> Quiet(End(s, rest))
  }

  lemma {:induction false} Exhaust(s: State) returns (rest: seq<Action>)
    requires Inv(s)
    ensures OnlyAdvances(rest) && Halted(End(s, rest))
    decreases Work(s.threads)
  {
    hide Inv, SwitchStep, Work, Execute, End;
    if t :| CanStep(s, t) {
      var m := SwitchStep(s, t, 0);
      AdvanceKeepsInv(s, t, 0, m.s, m.call);
      StepsDecrease(s, t, 0, m.s, m.call);
      rest := Exhaust(m.s);
      EndCons(s, Advance(t, 0), rest);
      rest := [Advance(t, 0)] + rest;
    } else {
      rest := [];
      NoActions(s);
    }
  }

  lemma {:induction false} EndAppend(s: State, actions: seq<Action>, rest: seq<Action>)
    requires Inv(s)
    ensures End(s, actions + rest) == End(End(s, actions), rest)
    decreases |actions|
  {
    hide Inv, Next, End, Execute;
    if actions == [] {
      assert [] + rest == rest;
      NoActions(s);
    } else {
      var a := actions[0];
      assert actions == [a] + actions[1..] && actions + rest == [a] + (actions[1..] + rest);
      EndCons(s, a, actions[1..]);
      EndCons(s, a, actions[1..] + rest);
      EndAppend(if Next(s, a).Move? then Next(s, a).s else s, actions[1..], rest);
    }
  }

  lemma {:induction false} UntangledStays(s: State, rest: seq<Action>)
    requires Inv(s) && !Tangled(s) && OnlyAdvances(rest)
    ensures !Tangled(End(s, rest))
    decreases |rest|
  {
    hide Inv, Next, End, Execute, Tangle;
    if rest == [] {
      NoActions(s);
    } else {
      var a := rest[0];
      assert rest == [a] + rest[1..];
      EndCons(s, a, rest[1..]);
      assert a in rest;
      if Next(s, a).Move? {
        forall k | Tangle(Next(s, a).s, k) ensures Tangle(s, k) {
          NoNewTangle(s, a, k);
        }
        UntangledStays(Next(s, a).s, rest[1..]);
      } else {
        UntangledStays(s, rest[1..]);
      }
    }
  }

  /** All calls in progress return under every scheduler if and only if no undecided callers want each
      other's fibers in a circle. */
  lemma SureToReturnExactly(s: State)
    requires Inv(s)
    ensures SureToReturn(s) <==> !Tangled(s)
  {
    hide Inv, End, Execute, Tangle, Knot;
    if k :| Tangle(s, k) {
      var rest := TieUp(s, k);
      var more := Exhaust(End(s, rest));
      KnotForever(End(s, rest), more, k);
      EndAppend(s, rest, more);
      SomeInside(End(s, rest), End(End(s, rest), more), k);
      assert OnlyAdvances(rest + more);
    } else {
      forall rest | OnlyAdvances(rest) && Halted(End(s, rest)) ensures Quiet(End(s, rest)) {
        UntangledStays(s, rest);
        HaltedUntangled(End(s, rest));
      }
    }
  }

  lemma SomeInside(s: State, r: State, k: set<Tid>)
    requires Knot(s, k) && forall t :: t in k ==> Inside(r, t)
    ensures !Quiet(r)
  {
    assert exists t :: t in k by { assert (forall t :: t !in k) ==> k == {}; }
  }

  lemma HaltedUntangled(s: State)
    requires Inv(s) && !Tangled(s) && Halted(s)
    ensures Quiet(s)
  {
    hide Inv, Tangle, Knot, SwitchStep;
    forall k | Knot(s, k) ensures Tangle(s, k) {
      KnotIsTangle(s, k);
    }
    if t :| Inside(s, t) {
      var u := Progress(s, t);
      assert false;
    }
  }

  /** The steps that the calls in progress take. */
  ghost function Taken(s: State, actions: seq<Action>): nat
    requires Inv(s)
    decreases |actions|
  {
    if actions == [] then 0
    else if Next(s, actions[0]).Blocked? then Taken(s, actions[1..])
    else
      NextKeepsInv(s, actions[0]);
      1 + Taken(Next(s, actions[0]).s, actions[1..])
  }

  /** No scheduler can keep them going for ever. */
  lemma {:induction false} SchedulesEnd(s: State, actions: seq<Action>)
    requires Inv(s) && OnlyAdvances(actions)
    ensures Taken(s, actions) + Work(End(s, actions).threads) <= Work(s.threads)
    decreases |actions|
  {
    hide Inv, SwitchStep, End, Execute, Work;
    if actions == [] {
      NoActions(s);
    } else {
      var a := actions[0];
      assert actions == [a] + actions[1..];
      EndCons(s, a, actions[1..]);
      if Next(s, a).Move? {
        StepsDecrease(s, a.t, a.clock, Next(s, a).s, Next(s, a).call);
        SchedulesEnd(Next(s, a).s, actions[1..]);
      } else {
        SchedulesEnd(s, actions[1..]);
      }
    }
  }

  // ---------- before a call ----------

  predicate Undecided(s: State, t: Tid) {
    t in s.threads && Target(s.threads[t].pc).Some?
  }

  predicate Follows(s: State, t: Tid, u: Tid) {
    Undecided(s, t) && u in s.threads && s.threads[u].runner == Target(s.threads[t].pc).value
  }

  /** Threads, the first of which runs fiber `id`, each wanting the fiber of the next. */
  predicate Chain(s: State, p: seq<Tid>, id: Fid) {
    && p != [] && p[0] in s.threads && s.threads[p[0]].runner == id
    && (forall i :: 0 <= i < |p| ==> Undecided(s, p[i]))
    && (forall i {:trigger p[i]} :: 0 < i < |p| ==> Follows(s, p[i - 1], p[i]))
  }

  /** From the thread that runs `id`, one wanting the fiber of the next, to one that wants the fiber of t. */
  ghost predicate LeadsBack(s: State, id: Fid, t: Tid) {
    exists p :: Chain(s, p, id) && Follows(s, p[|p| - 1], t)
  }

  ghost function Members(p: seq<Tid>): set<Tid> {
    set t | t in p
  }

  /** A chain that comes back to one of its threads is a tangle. */
  lemma LoopIsTangle(s: State, p: seq<Tid>, id: Fid, j: nat)
    requires Chain(s, p, id) && j < |p| && Follows(s, p[|p| - 1], p[j])
    ensures Tangle(s, Members(p[j..]))
  {
    var k := Members(p[j..]);
    assert p[j..][0] in k;
    forall t | t in k ensures Wants(s, t, k) {
      var i :| 0 <= i < |p[j..]| && p[j..][i] == t;
      assert t == p[j + i] && Undecided(s, p[j + i]);
      if j + i + 1 < |p| {
        assert Follows(s, p[j + i], p[j + i + 1]) && p[j + i + 1] == p[j..][i + 1];
        assert RunIn(s, Target(s.threads[t].pc).value, k, p[j + i + 1]);
      } else {
        assert RunIn(s, Target(s.threads[t].pc).value, k, p[j]);
      }
    }
  }

  lemma {:induction false} FindChain(s: State, r: State, t: Tid, id: Fid, k: set<Tid>, p: seq<Tid>)
    requires !Tangled(s) && t in r.threads && s.threads.Keys == r.threads.Keys
    requires forall u :: u in s.threads && u != t ==> r.threads[u] == s.threads[u]
    requires r.threads[t].runner == s.threads[t].runner
    requires Tangle(r, k) && Chain(s, p, id) && Members(p) <= k - {t}
    ensures LeadsBack(s, id, t)
    decreases k - Members(p)
  {
    hide Target;
    var l := p[|p| - 1];
    assert l in Members(p);
    assert Wants(r, l, k);
    var u :| RunIn(r, Target(r.threads[l].pc).value, k, u);
    assert Follows(s, l, u);
    if u == t {
    } else if u in p {
      var j :| 0 <= j < |p| && p[j] == u;
      LoopIsTangle(s, p, id, j);
      assert false;
    } else {
      assert Wants(r, u, k);
      assert Members(p + [u]) == Members(p) + {u};
      FindChain(s, r, t, id, k, p + [u]);
    }
  }

  lemma TangleWithout(s: State, t: Tid, r: State, k: set<Tid>)
    requires t in s.threads && t in r.threads && r.threads == s.threads[t := r.threads[t]] && Tangle(r, k) && t !in k
    ensures Tangle(s, k)
  {
    TangleThreads(r, k);
    SameWishes(r, s, k);
  }

  lemma TangleHasChain(s: State, t: Tid, id: Fid, r: State, k: set<Tid>)
    requires Inv(s) && !Tangled(s) && Next(s, Enter(t, id)) == Move(r, None) && Tangle(r, k)
    ensures id != s.threads[t].runner && LeadsBack(s, id, t)
  {
    hide Inv;
    if t !in k {
      TangleWithout(s, t, r, k);
      assert false;
    } else {
      assert Wants(r, t, k);
      var u :| RunIn(r, id, k, u);
      assert Wants(r, u, k);
      FindChain(s, r, t, id, k, [u]);
    }
  }

  lemma ChainTangles(s: State, t: Tid, id: Fid, r: State, p: seq<Tid>)
    requires Inv(s) && Next(s, Enter(t, id)) == Move(r, None) && id != s.threads[t].runner
    requires Chain(s, p, id) && Follows(s, p[|p| - 1], t)
    ensures Tangled(r)
  {
    hide Inv;
    var k := Members(p) + {t};
    forall u | u in k ensures Wants(r, u, k) {
      if u == t {
        assert RunIn(r, id, k, p[0]);
      } else {
        var i :| 0 <= i < |p| && p[i] == u;
        assert Undecided(s, p[i]);
        var v := if i + 1 < |p| then p[i + 1] else t;
        assert Follows(s, u, v);
        assert RunIn(r, Target(r.threads[u].pc).value, k, v);
      }
    }
    assert Tangle(r, k);
  }

  /** Where all calls in progress are sure to return, a further call for `id` leaves it so if and only
      if the wants of the thread that runs `id` do not lead back to the caller's own fiber. */
  lemma CallKeepsSureExactly(s: State, t: Tid, id: Fid, r: State)
    requires Inv(s) && SureToReturn(s) && Next(s, Enter(t, id)) == Move(r, None)
    ensures Inv(r) && (SureToReturn(r) <==> id == s.threads[t].runner || !LeadsBack(s, id, t))
  {
    NextKeepsInv(s, Enter(t, id));
    SureToReturnExactly(s);
    SureToReturnExactly(r);
    hide Inv, SureToReturn, Tangle, Chain, Follows;
    if k :| Tangle(r, k) {
      TangleHasChain(s, t, id, r, k);
    } else if id != s.threads[t].runner && LeadsBack(s, id, t) {
      var p :| Chain(s, p, id) && Follows(s, p[|p| - 1], t);
      ChainTangles(s, t, id, r, p);
    }
  }

  // ---------- whole executions ----------

  /** No call of the execution is for a fiber from whose thread the wants lead back to the caller. */
  ghost predicate NeverLeadsBack(s: State, actions: seq<Action>)
    requires Inv(s)
    decreases |actions|
  {
    actions == [] ||
    match Next(s, actions[0])
    case Blocked => NeverLeadsBack(s, actions[1..])
    case Move(r, _) =>
      && Considerate(s, actions[0])
      && (NextKeepsInv(s, actions[0]); NeverLeadsBack(r, actions[1..]))
  }

  ghost predicate Considerate(s: State, a: Action)
    requires Inv(s) && Next(s, a).Move?
  {
    a.Enter? ==> a.id == s.threads[a.t].runner || !LeadsBack(s, a.id, a.t)
  }

  /** In every state of the execution the calls in progress are sure to return. */
  ghost predicate AlwaysSure(s: State, actions: seq<Action>)
    requires Inv(s)
    decreases |actions|
  {
    && SureToReturn(s)
    && (actions == [] ||
        match Next(s, actions[0])
        case Blocked => AlwaysSure(s, actions[1..])
        case Move(r, _) => (NextKeepsInv(s, actions[0]); AlwaysSure(r, actions[1..])))
  }

  lemma StepKeepsSureExactly(s: State, a: Action, r: State, call: Option<Call>)
    requires Inv(s) && SureToReturn(s) && Next(s, a) == Move(r, call)
    ensures Inv(r) && (SureToReturn(r) <==> Considerate(s, a))
  {
    NextKeepsInv(s, a);
    hide Inv, SureToReturn, LeadsBack, Tangle, SwitchStep;
    if a.Enter? {
      CallKeepsSureExactly(s, a.t, a.id, r);
    } else {
      SureToReturnExactly(s);
      SureToReturnExactly(r);
      forall k | Tangle(r, k) ensures Tangle(s, k) {
        NoNewTangle(s, a, k);
      }
    }
  }

  lemma {:induction false} ExecutionSureExactly(s: State, actions: seq<Action>)
    requires Inv(s) && SureToReturn(s)
    ensures AlwaysSure(s, actions) <==> NeverLeadsBack(s, actions)
    decreases |actions|
  {
    hide Inv, SureToReturn, Next, Considerate;
    if actions != [] {
      match Next(s, actions[0])
      case Blocked => ExecutionSureExactly(s, actions[1..]);
      case Move(r, call) =>
        StepKeepsSureExactly(s, actions[0], r, call);
        if SureToReturn(r) {
          ExecutionSureExactly(r, actions[1..]);
        }
    }
  }

  /** From an empty process: in every state of an execution all calls in progress return under every
      scheduler, if and only if no call is made for a fiber whose thread, directly or over other
      callers, wants the fiber of the caller. */
  lemma DeadlockFreeExactly(actions: seq<Action>)
    ensures Inv(Start) && (AlwaysSure(Start, actions) <==> NeverLeadsBack(Start, actions))
  {
    StartInv();
    StartUntangled();
    SureToReturnExactly(Start);
    hide Inv, SureToReturn, AlwaysSure, NeverLeadsBack;
    ExecutionSureExactly(Start, actions);
  }

  lemma StartUntangled()
    ensures !Tangled(Start)
  {
    forall k | Tangle(Start, k) ensures false {
      TangleThreads(Start, k);
    }
  }
}
