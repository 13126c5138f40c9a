/**
 The calls of 2018-fibers/src/ult.c do what they are called for: by a thread's own steps a conversion, a
 creation and a switch to a free fiber go through to the end.
 */
module UltProgress {
  import opened Common
  import opened UltProtocol

  /** t takes n steps. */
  function Advances(t: Tid, n: nat): seq<Action> {
    if n == 0 then [] else [Advance(t)] + Advances(t, n - 1)
  }

  ghost predicate Reaches(s: State, actions: seq<Action>, r: State) {
    Inv(s) && Inv(r) && Run(s, actions) == Some(r)
  }

  lemma ReachOn(s: State, a: Action, rest: seq<Action>, mid: State, r: State)
    requires Inv(s) && Next(s, a) == Some(mid) && Reaches(mid, rest, r)
    ensures Reaches(s, [a] + rest, r)
  {
    hide Inv, Next;
    assert ([a] + rest)[1..] == rest;
  }

  lemma ReachSelf(s: State)
    requires Inv(s)
    ensures Reaches(s, [], s)
  {
  }

  // ---------- switches ----------

  /** s with another thread t and other fibers `from` and `to`. */
  function Switching(s: State, t: Tid, th: Thread, from: Uid, u: Ult, to: Uid, v: Ult): State {
    s.(threads := s.threads[t := th], fibers := s.fibers[from := u][to := v])
  }

  lemma SavingSteps(s: State, t: Tid, th: Thread, from: Uid, u: Ult, to: Uid, v: Ult)
    requires from != to && Inv(Switching(s, t, th, from, u, to, v))
    requires Leaving(th.pc) && th.pc.from == from && th.pc.to == to
    ensures Next(Switching(s, t, th, from, u, to, v), Advance(t)) ==
      if th.pc.SetCurrent? then Some(Switching(s, t, th.(current := to, pc := SaveA(from, to)), from, u, to, v))
      else if th.pc.SaveA? then
        Some(Switching(s, t, th.(pc := SaveB(from, to)), from, u.(saved := u.saved.(a := th.cpu.a)), to, v))
      else if th.pc.SaveB? then
        Some(Switching(s, t, th.(pc := Release(from, to)), from, u.(saved := u.saved.(b := th.cpu.b)), to, v))
      else
        Some(Switching(s, t, th.(pc := LoadA(to)), from, u.(running := false, left := th.cpu, owner := None), to, v))
  {
    var b := Switching(s, t, th, from, u, to, v);
    hide Inv;
    var r := Inside(b, t).value;
    assert r.threads == s.threads[t := r.threads[t]];
    assert r.fibers == s.fibers[from := r.fibers[from]][to := v];
  }

  lemma LoadingSteps(s: State, t: Tid, th: Thread, from: Uid, u: Ult, to: Uid, v: Ult)
    requires from != to && Inv(Switching(s, t, th, from, u, to, v)) && (th.pc == LoadA(to) || th.pc == LoadB(to))
    ensures Next(Switching(s, t, th, from, u, to, v), Advance(t)) ==
      if th.pc.LoadA? then Some(Switching(s, t, th.(cpu := th.cpu.(a := v.saved.a), pc := LoadB(to)), from, u, to, v))
      else Some(Switching(s, t, th.(cpu := th.cpu.(b := v.saved.b), pc := Idle), from, u, to, v))
  {
    var b := Switching(s, t, th, from, u, to, v);
    hide Inv;
    var r := Inside(b, t).value;
    assert r.threads == s.threads[t := r.threads[t]];
  }

  lemma OneStep(s: State, t: Tid, n: nat, mid: State, r: State)
    requires Inv(s) && Next(s, Advance(t)) == Some(mid) && (Inv(mid) ==> Reaches(mid, Advances(t, n), r))
    ensures Reaches(s, Advances(t, n + 1), r)
  {
    NextKeepsInv(s, Advance(t));
    hide Inv, Next;
    ReachOn(s, Advance(t), Advances(t, n), mid, r);
  }

  /** The six steps of a thread that has locked the fiber it switches to. */
  lemma SixSteps(s: State, t: Tid, th: Thread, from: Uid, u: Ult, to: Uid, v: Ult)
    requires from != to && th.pc == SetCurrent(from, to) && Inv(Switching(s, t, th, from, u, to, v))
    ensures Reaches(Switching(s, t, th, from, u, to, v), Advances(t, 6),
      Switching(s, t, th.(current := to, cpu := v.saved, pc := Idle), from, Ult(false, th.cpu, th.cpu, None), to, v))
  {
    hide Inv, Next, Switching;
    var th1 := th.(current := to, pc := SaveA(from, to));
    var th2, th3, th4 := th1.(pc := SaveB(from, to)), th1.(pc := Release(from, to)), th1.(pc := LoadA(to));
    var th5 := th1.(cpu := th.cpu.(a := v.saved.a), pc := LoadB(to));
    var th6 := th.(current := to, cpu := v.saved, pc := Idle);
    var u2 := u.(saved := u.saved.(a := th.cpu.a));
    var u3 := u.(saved := th.cpu);
    var u4 := Ult(false, th.cpu, th.cpu, None);
    assert u3 == u2.(saved := u2.saved.(b := th.cpu.b)) && th6.cpu == th5.cpu.(b := v.saved.b);
    var s0, s1 := Switching(s, t, th, from, u, to, v), Switching(s, t, th1, from, u, to, v);
    var s2, s3 := Switching(s, t, th2, from, u2, to, v), Switching(s, t, th3, from, u3, to, v);
    var s4, s5 := Switching(s, t, th4, from, u4, to, v), Switching(s, t, th5, from, u4, to, v);
    var s6 := Switching(s, t, th6, from, u4, to, v);
    SavingSteps(s, t, th, from, u, to, v);
    NextKeepsInv(s0, Advance(t));
    SavingSteps(s, t, th1, from, u, to, v);
    NextKeepsInv(s1, Advance(t));
    SavingSteps(s, t, th2, from, u2, to, v);
    NextKeepsInv(s2, Advance(t));
    SavingSteps(s, t, th3, from, u3, to, v);
    NextKeepsInv(s3, Advance(t));
    LoadingSteps(s, t, th4, from, u4, to, v);
    NextKeepsInv(s4, Advance(t));
    LoadingSteps(s, t, th5, from, u4, to, v);
    NextKeepsInv(s5, Advance(t));
    ReachSelf(s6);
    hide Reaches;
    OneStep(s5, t, 0, s6, s6);
    OneStep(s4, t, 1, s5, s6);
    OneStep(s3, t, 2, s4, s6);
    OneStep(s2, t, 3, s3, s6);
    OneStep(s1, t, 4, s2, s6);
    OneStep(s0, t, 5, s1, s6);
  }

  /** A thread that computes up to the context `cpu` and then calls ult_switch_to for a fiber that is free
      ends up, by its own six further steps, in that fiber with its whole saved context; its old fiber is left
      unlocked with `cpu`; nothing else changes. */
  lemma SwitchGoesThrough(s: State, t: Tid, cpu: Ctx, to: Uid)
    requires Inv(s) && s.initComplete && t in s.threads && s.threads[t].pc == Idle
    requires to in s.fibers && !s.fibers[to].running
    ensures var from := s.threads[t].current;
      var r := Run(s, [Compute(t, cpu)] + ([SwitchTo(t, to)] + Advances(t, 6)));
      && r.Some? && from in s.fibers && from != to && s.fibers[from].running
      && r.value == s.(threads := s.threads[t := Thread(to, s.fibers[to].saved, Idle, cpu)],
                       fibers := s.fibers[from := Ult(false, cpu, cpu, None)]
                                         [to := s.fibers[to].(running := true, owner := Some(t))])
  {
    assert ThreadInv(s, t);
    var from := s.threads[t].current;
    assert Disposes(s.threads[t], from);
    var s1 := Next(s, Compute(t, cpu)).value;
    NextKeepsInv(s, Compute(t, cpu));
    var th, v := Thread(from, cpu, SetCurrent(from, to), cpu), s.fibers[to].(running := true, owner := Some(t));
    var s2 := Next(s1, SwitchTo(t, to)).value;
    NextKeepsInv(s1, SwitchTo(t, to));
    assert s2 == Switching(s, t, th, from, s.fibers[from], to, v) by {
      assert s2.threads == s.threads[t := th];
      assert s2.fibers == s.fibers[from := s.fibers[from]][to := v];
    }
    hide Inv, ThreadInv;
    SixSteps(s, t, th, from, s.fibers[from], to, v);
    var r := Switching(s, t, th.(current := to, cpu := v.saved, pc := Idle), from, Ult(false, cpu, cpu, None), to, v);
    hide Next;
    ReachOn(s1, SwitchTo(t, to), Advances(t, 6), s2, r);
    ReachOn(s, Compute(t, cpu), [SwitchTo(t, to)] + Advances(t, 6), s1, r);
  }

  /** A fiber that is locked, or none, is not switched to: the call returns with nothing changed. */
  lemma SwitchIsRefused(s: State, t: Tid, to: Uid)
    requires Inv(s) && s.initComplete && t in s.threads && s.threads[t].pc == Idle
    ensures Run(s, [SwitchTo(t, to)]) == Some(s) <==> to !in s.fibers || s.fibers[to].running
  {
    assert [SwitchTo(t, to)][1..] == [];
    assert Run(s, [SwitchTo(t, to)]) == Next(s, SwitchTo(t, to)) by {
      if Next(s, SwitchTo(t, to)).Some? {
        NextKeepsInv(s, SwitchTo(t, to));
        hide Inv, Next;
      }
    }
  }

  // ---------- creations ----------

  /** The steps a creating thread takes before it only has to jump back. */
  function StepsToJumpBack(pc: Pc): nat {
    match pc
    case Tramp(_, _) => 8
    case LockNew(_, _) => 7
    case SaveCreator(_, _) => 6
    case ReleaseCreator(_, _) => 5
    case JumpNew(_, _) => 4
    case RelockCreator(_, _) => 3
    case SaveNew(_, _) => 2
    case ReleaseNew(_, _) => 1
    case _ => 0
  }

  lemma CreatingStep(s: State, t: Tid)
    requires Inv(s) && t in s.threads && Creating(s.threads[t].pc) && !s.threads[t].pc.JumpBack?
    ensures Next(s, Advance(t)).Some?
    ensures var r := Next(s, Advance(t)).value;
      && t in r.threads && Creating(r.threads[t].pc)
      && StepsToJumpBack(r.threads[t].pc) == StepsToJumpBack(s.threads[t].pc) - 1
  {
    assert ThreadInv(s, t);
    hide Inv;
  }

  lemma {:induction false} CreatingGoesOn(s: State, t: Tid)
    requires Inv(s) && t in s.threads && Creating(s.threads[t].pc)
    ensures var actions := Advances(t, StepsToJumpBack(s.threads[t].pc));
      && Run(s, actions).Some? && NeverReturns(s, actions, t)
      && t in Run(s, actions).value.threads && Run(s, actions).value.threads[t].pc.JumpBack?
    decreases StepsToJumpBack(s.threads[t].pc)
  {
    hide Inv, Next;
    if !s.threads[t].pc.JumpBack? {
      CreatingStep(s, t);
      NextKeepsInv(s, Advance(t));
      var r := Next(s, Advance(t)).value;
      CreatingGoesOn(r, t);
      var rest := Advances(t, StepsToJumpBack(r.threads[t].pc));
      assert Advances(t, StepsToJumpBack(s.threads[t].pc)) == [Advance(t)] + rest;
      assert ([Advance(t)] + rest)[1..] == rest;
    }
  }

  lemma {:induction false} AdvancesSnoc(t: Tid, n: nat)
    ensures Advances(t, n) + [Advance(t)] == Advances(t, n + 1)
  {
    if n > 0 {
      AdvancesSnoc(t, n - 1);
      assert Advances(t, n) + [Advance(t)] == [Advance(t)] + (Advances(t, n - 1) + [Advance(t)]);
    }
  }

  /** The main thread's call of ult_creat goes through by its own nine steps: it returns to its fiber with
      the context in which it called, and the new fiber is left unlocked, about to start its entry point. */
  lemma CreationGoesThrough(s: State, t: Tid, entry: int)
    requires Inv(s) && t == s.mainThread && !s.initComplete && t in s.threads && s.threads[t].pc == Idle
    ensures Next(s, Creat(t, entry)).Some?
    ensures var r := Run(After(s, Creat(t, entry)), Advances(t, 9));
      && r.Some? && Inv(r.value) && t in r.value.threads
      && r.value.threads[t].pc == Idle && r.value.threads[t].cpu == s.threads[t].cpu
      && r.value.threads[t].current == s.threads[t].current && s.threads[t].current in r.value.fibers
      && r.value.fibers[s.threads[t].current].running
      && s.ultId in r.value.fibers && SuspendedAtEntry(r.value.fibers[s.ultId], entry)
  {
    var s1 := After(s, Creat(t, entry));
    CreatingGoesOn(s1, t);
    AdvancesSnoc(t, 8);
    assert JumpingBack(s, t, entry, Advances(t, 8));
    CreationReturns(s, t, entry, Advances(t, 8));
  }

  // ---------- from the start ----------

  /** A thread that converts runs a fiber of its own from then on. */
  lemma Converted(s: State, t: Tid, cpu: Ctx)
    requires Inv(s) && t !in s.threads
    ensures Next(s, Convert(t, cpu)).Some?
    ensures var r := After(s, Convert(t, cpu));
      && t in r.threads && r.threads[t].pc == Idle && r.threads[t].cpu == cpu
      && r.threads[t].current == s.ultId && s.ultId !in s.fibers && s.ultId in r.fibers && r.fibers[s.ultId].running
      && r.mainThread == s.mainThread && r.initComplete == s.initComplete && r.ultId == s.ultId + 1
  {
  }

  lemma {:induction false} CreatingSetting(s: State, t: Tid, n: nat)
    requires Inv(s) && Run(s, Advances(t, n)).Some?
    ensures var r := Run(s, Advances(t, n)).value;
      r.mainThread == s.mainThread && r.initComplete == s.initComplete && r.ultId == s.ultId
    decreases n
  {
    hide Inv;
    if n > 0 {
      NextKeepsInv(s, Advance(t));
      assert ([Advance(t)] + Advances(t, n - 1))[1..] == Advances(t, n - 1);
      SettingKept(s, t);
      CreatingSetting(Next(s, Advance(t)).value, t, n - 1);
    }
  }

  lemma SettingKept(s: State, t: Tid)
    requires Inv(s) && Next(s, Advance(t)).Some?
    ensures var r := Next(s, Advance(t)).value;
      r.mainThread == s.mainThread && r.initComplete == s.initComplete && r.ultId == s.ultId
  {
    hide Inv;
  }

  /** The state once the main thread has converted, created one fiber and completed the initialisation. */
  ghost function Initialised(main: Tid, cpu: Ctx, entry: int): (s: State)
    ensures Inv(s) && s.initComplete && main in s.threads && s.threads[main].pc == Idle
    ensures s.threads[main].current == 0 && 1 in s.fibers && SuspendedAtEntry(s.fibers[1], entry)
  {
    Converted(Start(main), main, cpu);
    var s1 := After(Start(main), Convert(main, cpu));
    CreationGoesThrough(s1, main, entry);
    var s2 := After(s1, Creat(main, entry));
    CreatingSetting(s2, main, 9);
    After(Run(s2, Advances(main, 9)).value, CompleteInit)
  }

  /** And then its first switch starts the new fiber at its entry point. */
  lemma FirstFiberStarts(main: Tid, cpu: Ctx, entry: int)
    ensures var r := Run(Initialised(main, cpu, entry),
                         [Compute(main, cpu)] + ([SwitchTo(main, 1)] + Advances(main, 6)));
      && r.Some? && main in r.value.threads && r.value.threads[main].pc == Idle
      && r.value.threads[main].current == 1 && r.value.threads[main].cpu == Ctx(Boot(entry), Boot(entry))
  {
    hide Inv, Next, Run, Advances, Initialised;
    SwitchGoesThrough(Initialised(main, cpu, entry), main, cpu, 1);
  }
}
