/**
 The list design and the thread-table design answer every sequence of calls alike: same ids, same
 successes and failures, same fiber on each thread, same counters and times, and the same context
 for every fiber that has already run.  Only failed activations are charged to different fibers;
 their total agrees.
 */
module FiberSimulation {
  import opened Common
  import opened FiberTypes
  import T = FiberTable
  import L = FiberList

  // ---------- the relation ----------

  /** Contexts of a fiber that never ran: the table design leaves 8 bytes of stack, the list design
      one, and the list design clears the floating-point state. */
  ghost predicate FreshAgree(a: Context, b: Context) {
    && a.regs.ip == b.regs.ip && a.regs.di == b.regs.di && a.regs.others == b.regs.others
    && a.regs.sp == (b.regs.sp + 7) % WORD
    && a.regs.bp == a.regs.sp && b.regs.bp == b.regs.sp && a.fpu == 0
  }

  ghost predicate FiberAgree(a: L.ListFiber, b: T.Fiber) {
    && a.running == b.selectedThread.Some?
    && a.runner == (if b.selectedThread.Some? then b.selectedThread.value else 0)
    && a.entryPoint == b.entryPoint && a.creator == b.creator
    && a.execTime == b.execTime && a.lastActivation == b.lastActivation && a.correct == b.correct
    && (b.selectedThread.None? ==> if b.correct == 0 then FreshAgree(a.saved, b.saved) else a.saved == b.saved)
  }

  /** Fiber k of the list, which holds fiber n at the front and fiber 1 at the end. */
  function Entry(l: seq<L.ListFiber>, k: Fid): L.ListFiber
    requires 1 <= k <= |l|
  {
    l[|l| - k]
  }

  ghost predicate Agree(l: seq<L.ListFiber>, s: T.Table) {
    && T.TableInv(s)
    && (forall t :: t in s.threads ==> t > 0)
    && (forall k :: k in s.fibers && s.fibers[k].selectedThread.Some? ==> s.fibers[k].correct > 0)
    && |l| == s.lastFibId
    && (forall k {:trigger Entry(l, k)} :: 1 <= k <= |l| ==>
      Entry(l, k).id == k && FiberAgree(Entry(l, k), s.fibers[k]))
    && ListFailed(l) == TableFailed(s, s.lastFibId)
  }

  ghost function ListFailed(l: seq<L.ListFiber>): int {
    if l == [] then 0 else l[0].failed + ListFailed(l[1..])
  }

  ghost function TableFailed(s: T.Table, n: nat): int
    requires forall k :: 1 <= k <= n ==> k in s.fibers
  {
    if n == 0 then 0 else s.fibers[n].failed + TableFailed(s, n - 1)
  }

  /** The replies to one call, made when the table is s: the same id, or both refused, or the same
      context; only the contexts of a fiber that never ran may differ, as far as `FreshAgree` says. */
  ghost predicate ReplyAgree(s: T.Table, call: Call, a: Reply, b: Reply) {
    match (a, b)
    case (Created(x), Created(y)) => x == y
    case (Failed, Failed) => true
    case (Switched(x), Switched(y)) =>
      call.SwitchTo? && call.id in s.fibers && (if s.fibers[call.id].correct > 0 then x == y else FreshAgree(x, y))
    case _ => false
  }

  /** The replies to all calls of a run. */
  ghost predicate RepliesAgree(s: T.Table, calls: seq<Call>, a: seq<Reply>, b: seq<Reply>)
    requires T.TableInv(s) && |a| == |b| == |calls|
    decreases |calls|
  {
    calls != [] ==>
      && ReplyAgree(s, calls[0], a[0], b[0])
      && (T.StepKeepsOwnership(s, calls[0]); RepliesAgree(T.Step(s, calls[0]).0, calls[1..], a[1..], b[1..]))
  }

  // ---------- sums of failures ----------

  lemma {:induction false} ListFailedUpdate(l: seq<L.ListFiber>, i: nat, f: L.ListFiber)
    requires i < |l|
    ensures ListFailed(l[i := f]) == ListFailed(l) - l[i].failed + f.failed
  {
    if i == 0 {
      assert l[0 := f][1..] == l[1..];
    } else {
      assert l[i := f][1..] == l[1..][i - 1 := f];
      ListFailedUpdate(l[1..], i - 1, f);
    }
  }

  lemma {:induction false} TableFailedUpdate(s: T.Table, r: T.Table, n: nat, k: int)
    requires forall j :: 1 <= j <= n ==> j in s.fibers && j in r.fibers
    requires forall j :: 1 <= j <= n && j != k ==> r.fibers[j].failed == s.fibers[j].failed
    ensures TableFailed(r, n) == TableFailed(s, n) +
      if 1 <= k <= n then r.fibers[k].failed - s.fibers[k].failed else 0
  {
    if n > 0 {
      TableFailedUpdate(s, r, n - 1, k);
    }
  }

  // ---------- the scans ----------

  /** Scanning the list for a thread's fiber finds the fiber the thread table points to. */
  lemma ScanForRunner(l: seq<L.ListFiber>, s: T.Table, tid: Tid)
    requires Agree(l, s) && tid > 0
    ensures L.FindRunner(l, tid) < |l| <==> tid in s.threads
    ensures tid in s.threads ==> s.threads[tid] == Some(|l| - L.FindRunner(l, tid))
    ensures tid in s.threads ==> s.threads[tid] == Some(l[L.FindRunner(l, tid)].id)
  {
    var i := L.FindRunner(l, tid);
    L.FindRunnerFirst(l, tid);
    if i < |l| {
      assert Entry(l, |l| - i) == l[i];
    }
    if tid in s.threads {
      assert Entry(l, s.threads[tid].value).runner == tid;
    }
  }

  /** Scanning the list for an id finds it exactly when the fiber table has it. */
  lemma ScanForId(l: seq<L.ListFiber>, s: T.Table, id: Fid)
    requires Agree(l, s)
    ensures L.FindId(l, id) < |l| <==> id in s.fibers
    ensures id in s.fibers ==> L.FindId(l, id) == |l| - id
  {
    var i := L.FindId(l, id);
    L.FindIdFirst(l, id);
    if i < |l| {
      assert Entry(l, |l| - i) == l[i];
    }
    if id in s.fibers {
      assert Entry(l, id).id == id;
    }
  }

  // ---------- one call ----------

  lemma AddedFiber(l: seq<L.ListFiber>, s: T.Table, f: L.ListFiber, r: T.Table)
    requires Agree(l, s) && T.TableInv(r) && r.lastFibId == s.lastFibId + 1
    requires forall t :: t in r.threads ==> t > 0
    requires forall k :: k in s.fibers ==> r.fibers[k] == s.fibers[k]
    requires var g := r.fibers[r.lastFibId];
      && f.id == r.lastFibId && FiberAgree(f, g) && f.failed == g.failed
      && (g.selectedThread.Some? ==> g.correct > 0)
    ensures Agree([f] + l, r)
  {
    hide FiberAgree, TableFailed, ListFailed;
    var m := [f] + l;
    forall k | 1 <= k <= |m| ensures Entry(m, k).id == k && FiberAgree(Entry(m, k), r.fibers[k]) {
      if k < |m| {
        assert Entry(m, k) == Entry(l, k);
      }
    }
    TableFailedUpdate(s, r, s.lastFibId, 0);
    TableFailedStep(r, r.lastFibId);
    ListFailedStep(f, l);
  }

  lemma ListFailedStep(f: L.ListFiber, l: seq<L.ListFiber>)
    ensures ListFailed([f] + l) == f.failed + ListFailed(l)
  {
    assert ([f] + l)[1..] == l;
  }

  lemma TableFailedStep(s: T.Table, n: nat)
    requires n > 0 && forall k :: 1 <= k <= n ==> k in s.fibers
    ensures TableFailed(s, n) == s.fibers[n].failed + TableFailed(s, n - 1)
  {
  }

  lemma HeadId(l: seq<L.ListFiber>, s: T.Table)
    requires Agree(l, s)
    ensures (if l == [] then 1 else l[0].id + 1) == s.lastFibId + 1
  {
    if l != [] {
      assert Entry(l, |l|) == l[0];
    }
  }

  lemma ConvertSimulates(l: seq<L.ListFiber>, s: T.Table, tid: Tid, cpu: Context, clock: int)
    requires Agree(l, s) && tid > 0
    ensures Agree(L.FibConvert(l, tid, cpu, clock).0, T.FibConvert(s, tid, cpu, clock).0)
    ensures ReplyAgree(s, Convert(tid, cpu, clock), L.FibConvert(l, tid, cpu, clock).1,
      T.FibConvert(s, tid, cpu, clock).1)
  {
    ScanForRunner(l, s, tid);
    HeadId(l, s);
    if tid !in s.threads {
      var m, r := L.FibConvert(l, tid, cpu, clock).0, T.FibConvert(s, tid, cpu, clock).0;
      T.StepKeepsOwnership(s, Convert(tid, cpu, clock));
      AddedFiber(l, s, m[0], r);
    }
  }

  lemma StackTops(top: int)
    ensures ((top - 8) % WORD + 7) % WORD == (top - 1) % WORD
  {
  }

  lemma FreshContexts(cpu: Context, func: int, parameters: int, stack: int, size: int)
    ensures FreshAgree(L.NewContext(cpu, func, parameters, stack, size),
      T.NewContext(cpu, func, parameters, stack, size, 1))
  {
    StackTops(stack + size);
  }

  lemma CreateSimulates(l: seq<L.ListFiber>, s: T.Table, tid: Tid, cpu: Context, func: int, parameters: int,
          stack: int, size: int)
    requires Agree(l, s)
    ensures Agree(L.FibCreate(l, tid, cpu, func, parameters, stack, size).0,
      T.FibCreate(s, tid, cpu, func, parameters, stack, size).0)
    ensures ReplyAgree(s, Create(tid, cpu, func, parameters, stack, size),
      L.FibCreate(l, tid, cpu, func, parameters, stack, size).1,
      T.FibCreate(s, tid, cpu, func, parameters, stack, size).1)
  {
    hide FreshAgree, L.NewContext, T.NewContext, ListFailed, TableFailed;
    HeadId(l, s);
    FreshContexts(cpu, func, parameters, stack, size);
    var m, r := L.FibCreate(l, tid, cpu, func, parameters, stack, size).0,
      T.FibCreate(s, tid, cpu, func, parameters, stack, size).0;
    T.StepKeepsOwnership(s, Create(tid, cpu, func, parameters, stack, size));
    AddedFiber(l, s, m[0], r);
  }

  /** Rewriting entries of the list and of the table by agreeing fibers keeps the agreement. */
  lemma UpdatedFibers(l: seq<L.ListFiber>, s: T.Table, m: seq<L.ListFiber>, r: T.Table)
    requires Agree(l, s) && T.TableInv(r) && r.lastFibId == s.lastFibId && |m| == |l|
    requires forall t :: t in r.threads ==> t > 0
    requires forall k :: k in r.fibers && r.fibers[k].selectedThread.Some? ==> r.fibers[k].correct > 0
    requires forall k {:trigger Entry(m, k)} :: 1 <= k <= |m| ==>
      || (Entry(m, k) == Entry(l, k) && r.fibers[k] == s.fibers[k])
      || (Entry(m, k).id == k && FiberAgree(Entry(m, k), r.fibers[k]))
    requires ListFailed(m) - ListFailed(l) == TableFailed(r, r.lastFibId) - TableFailed(s, s.lastFibId)
    ensures Agree(m, r)
  {
    hide FiberAgree, ListFailed, TableFailed;
  }

  lemma ChargedAgree(a: L.ListFiber, b: T.Fiber, i: nat, j: nat)
    requires FiberAgree(a, b)
    ensures FiberAgree(a.(failed := i), b.(failed := j))
  {
  }

  lemma FailedSwitchSimulates(l: seq<L.ListFiber>, s: T.Table, j: nat, o: Fid)
    requires Agree(l, s) && j < |l| && o in s.fibers
    ensures Agree(l[j := l[j].(failed := l[j].failed + 1)], T.ChargeFailure(s, o))
  {
    hide ListFailed, TableFailed, FiberAgree;
    var m, r := l[j := l[j].(failed := l[j].failed + 1)], T.ChargeFailure(s, o);
    forall k {:trigger Entry(m, k)} | 1 <= k <= |m|
      ensures Entry(m, k).id == k && FiberAgree(Entry(m, k), r.fibers[k])
    {
      assert Entry(l, k).id == k && FiberAgree(Entry(l, k), s.fibers[k]);
      ChargedAgree(Entry(l, k), s.fibers[k], Entry(m, k).failed, r.fibers[k].failed);
    }
    ListFailedUpdate(l, j, m[j]);
    TableFailedUpdate(s, r, s.lastFibId, o);
    UpdatedFibers(l, s, m, r);
  }

  /** The two fibers of a switch are rewritten, the others and all failure counts stay. */
  lemma TwoUpdates(l: seq<L.ListFiber>, s: T.Table, o: Fid, id: Fid, a: L.ListFiber, b: L.ListFiber, r: T.Table)
    requires Agree(l, s) && o in s.fibers && id in s.fibers && o != id
    requires T.TableInv(r) && r.lastFibId == s.lastFibId
    requires forall t :: t in r.threads ==> t > 0
    requires forall k :: k in r.fibers && r.fibers[k].selectedThread.Some? ==> r.fibers[k].correct > 0
    requires forall k :: k in s.fibers && k != o && k != id ==> r.fibers[k] == s.fibers[k]
    requires a.id == o && FiberAgree(a, r.fibers[o]) && a.failed == l[|l| - o].failed
      && r.fibers[o].failed == s.fibers[o].failed
    requires b.id == id && FiberAgree(b, r.fibers[id]) && b.failed == l[|l| - id].failed
      && r.fibers[id].failed == s.fibers[id].failed
    ensures Agree(l[|l| - o := a][|l| - id := b], r)
  {
    hide ListFailed, TableFailed, FiberAgree;
    var i, j := |l| - o, |l| - id;
    var m := l[i := a][j := b];
    assert forall k {:trigger Entry(m, k)} :: 1 <= k <= |m| ==>
      Entry(m, k) == if k == o then a else if k == id then b else Entry(l, k);
    ListFailedUpdate(l, i, a);
    ListFailedUpdate(l[i := a], j, b);
    TableFailedUpdate(s, r, s.lastFibId, 0);
    UpdatedFibers(l, s, m, r);
  }

  lemma LeavingAgree(a: L.ListFiber, b: T.Fiber, cpu: Context, clock: int)
    requires FiberAgree(a, b) && b.selectedThread.Some? && b.correct > 0
    ensures FiberAgree(L.Leaving(a, cpu, clock), T.Leaving(b, cpu, clock))
  {
  }

  lemma EnteringAgree(a: L.ListFiber, b: T.Fiber, tid: Tid, clock: int)
    requires FiberAgree(a, b) && tid > 0
    ensures FiberAgree(L.Entering(a, tid, clock), T.Entering(b, tid, clock))
  {
  }

  lemma SwitchedSimulates(l: seq<L.ListFiber>, s: T.Table, tid: Tid, id: Fid, cpu: Context, clock: int)
    requires Agree(l, s) && tid > 0 && tid in s.threads && id in s.fibers && s.fibers[id].selectedThread.None?
    ensures Agree(L.FibSwitchTo(l, tid, id, cpu, clock).0, T.FibSwitchTo(s, tid, id, cpu, clock).0)
    ensures ReplyAgree(s, SwitchTo(tid, id, cpu, clock), L.FibSwitchTo(l, tid, id, cpu, clock).1,
      T.FibSwitchTo(s, tid, id, cpu, clock).1)
  {
    hide ListFailed, TableFailed, L.FindRunner, L.FindId, FreshAgree;
    var m, r := L.FibSwitchTo(l, tid, id, cpu, clock).0, T.FibSwitchTo(s, tid, id, cpu, clock).0;
    T.StepKeepsOwnership(s, SwitchTo(tid, id, cpu, clock));
    ScanForRunner(l, s, tid);
    ScanForId(l, s, id);
    var o := s.threads[tid].value;
    assert FiberAgree(Entry(l, o), s.fibers[o]) && FiberAgree(Entry(l, id), s.fibers[id]);
    LeavingAgree(Entry(l, o), s.fibers[o], cpu, clock);
    EnteringAgree(Entry(l, id), s.fibers[id], tid, clock);
    assert ReplyAgree(s, SwitchTo(tid, id, cpu, clock), L.FibSwitchTo(l, tid, id, cpu, clock).1,
      T.FibSwitchTo(s, tid, id, cpu, clock).1);
    hide FiberAgree;
    TwoUpdates(l, s, o, id, L.Leaving(Entry(l, o), cpu, clock), L.Entering(Entry(l, id), tid, clock), r);
  }

  lemma SwitchSimulates(l: seq<L.ListFiber>, s: T.Table, tid: Tid, id: Fid, cpu: Context, clock: int)
    requires Agree(l, s) && tid > 0
    ensures Agree(L.FibSwitchTo(l, tid, id, cpu, clock).0, T.FibSwitchTo(s, tid, id, cpu, clock).0)
    ensures ReplyAgree(s, SwitchTo(tid, id, cpu, clock), L.FibSwitchTo(l, tid, id, cpu, clock).1,
      T.FibSwitchTo(s, tid, id, cpu, clock).1)
  {
    ScanForRunner(l, s, tid);
    ScanForId(l, s, id);
    if tid in s.threads && id in s.fibers {
      if s.fibers[id].selectedThread.None? {
        SwitchedSimulates(l, s, tid, id, cpu, clock);
      } else {
        assert FiberAgree(Entry(l, id), s.fibers[id]);
        FailedSwitchSimulates(l, s, |l| - id, s.threads[tid].value);
      }
    }
  }

  ghost predicate ValidCaller(call: Call) {
    call.tid > 0
  }

  lemma StepSimulates(l: seq<L.ListFiber>, s: T.Table, call: Call)
    requires Agree(l, s) && ValidCaller(call)
    ensures Agree(L.Step(l, call).0, T.Step(s, call).0)
    ensures ReplyAgree(s, call, L.Step(l, call).1, T.Step(s, call).1)
  {
    match call
    case Convert(tid, cpu, clock) => ConvertSimulates(l, s, tid, cpu, clock);
    case Create(tid, cpu, func, parameters, stack, size) =>
      CreateSimulates(l, s, tid, cpu, func, parameters, stack, size);
    case SwitchTo(tid, id, cpu, clock) => SwitchSimulates(l, s, tid, id, cpu, clock);
  }

  // ---------- whole runs ----------

  /** For every sequence of calls the two designs stay in agreement and reply alike. */
  lemma {:induction false} RunSimulates(l: seq<L.ListFiber>, s: T.Table, calls: seq<Call>)
    requires Agree(l, s) && forall i :: 0 <= i < |calls| ==> ValidCaller(calls[i])
    ensures Agree(L.Run(l, calls).0, T.Run(s, calls).0)
    ensures RepliesAgree(s, calls, L.Run(l, calls).1, T.Run(s, calls).1)
    decreases |calls|
  {
    if calls != [] {
      assert ValidCaller(calls[0]);
      StepSimulates(l, s, calls[0]);
      TableOf(l, s);
      T.StepKeepsOwnership(s, calls[0]);
      hide Agree, T.TableInv, T.Step, L.Step, ReplyAgree, ValidCaller;
      var l1, s1 := L.Step(l, calls[0]).0, T.Step(s, calls[0]).0;
      RunSimulates(l1, s1, calls[1..]);
      assert L.Run(l, calls).1[1..] == L.Run(l1, calls[1..]).1 && T.Run(s, calls).1[1..] == T.Run(s1, calls[1..]).1;
    }
  }

  lemma TableOf(l: seq<L.ListFiber>, s: T.Table)
    requires Agree(l, s)
    ensures T.TableInv(s)
  {
  }

  lemma EmptyAgree()
    ensures Agree([], T.EmptyTable)
  {
  }

  /** Every thread runs the same fiber, or none, in both designs. */
  ghost predicate SameRunners(l: seq<L.ListFiber>, s: T.Table) {
    forall t {:trigger L.FindRunner(l, t)} :: t > 0 ==>
      && (t in s.threads <==> L.FindRunner(l, t) < |l|)
      && (t in s.threads ==> s.threads[t] == Some(l[L.FindRunner(l, t)].id))
  }

  lemma AgreeSameRunners(l: seq<L.ListFiber>, s: T.Table)
    requires Agree(l, s)
    ensures SameRunners(l, s)
  {
    forall t | t > 0
      ensures t in s.threads <==> L.FindRunner(l, t) < |l|
      ensures t in s.threads ==> s.threads[t] == Some(l[L.FindRunner(l, t)].id)
    {
      ScanForRunner(l, s, t);
    }
  }

  /** From two empty processes: same replies, same fiber on every thread, same contexts of all fibers
      that have run, same counters and times, same total of failures. */
  lemma DesignsAgree(calls: seq<Call>)
    requires forall i :: 0 <= i < |calls| ==> ValidCaller(calls[i])
    ensures T.TableInv(T.EmptyTable)
    ensures RepliesAgree(T.EmptyTable, calls, L.Run([], calls).1, T.Run(T.EmptyTable, calls).1)
    ensures Agree(L.Run([], calls).0, T.Run(T.EmptyTable, calls).0)
    ensures SameRunners(L.Run([], calls).0, T.Run(T.EmptyTable, calls).0)
  {
    EmptyAgree();
    RunSimulates([], T.EmptyTable, calls);
    AgreeSameRunners(L.Run([], calls).0, T.Run(T.EmptyTable, calls).0);
  }

  /** A fiber that has run is resumed alike by the two designs. */
  lemma SameContexts(l: seq<L.ListFiber>, s: T.Table, tid: Tid, id: Fid, cpu: Context, clock: int)
    requires Agree(l, s) && tid > 0 && id in s.fibers && s.fibers[id].correct > 0
    ensures L.FibSwitchTo(l, tid, id, cpu, clock).1 == T.FibSwitchTo(s, tid, id, cpu, clock).1
  {
    SwitchSimulates(l, s, tid, id, cpu, clock);
  }

  /** A switch to a fiber that another thread runs fails in both designs; the list design charges
      the failure to the target, the table design to the fiber that asked. */
  lemma FailuresChargedDifferently(l: seq<L.ListFiber>, s: T.Table, tid: Tid, id: Fid, cpu: Context, clock: int)
    requires Agree(l, s) && tid in s.threads && id in s.fibers
    requires s.threads[tid] != Some(id) && s.fibers[id].selectedThread.Some?
    ensures var o := s.threads[tid].value;
      var m, r := L.FibSwitchTo(l, tid, id, cpu, clock), T.FibSwitchTo(s, tid, id, cpu, clock);
      && m.1 == r.1 == Failed
      && m.0[|l| - id].failed == l[|l| - id].failed + 1 && m.0[|l| - o].failed == l[|l| - o].failed
      && r.0.fibers[o].failed == s.fibers[o].failed + 1 && r.0.fibers[id].failed == s.fibers[id].failed
  {
    ScanForRunner(l, s, tid);
    ScanForId(l, s, id);
    assert FiberAgree(Entry(l, id), s.fibers[id]);
  }

  // ---------- when the failures of each fiber agree ----------

  ghost predicate Numbered(l: seq<L.ListFiber>, s: T.Table) {
    forall k :: 1 <= k <= |l| ==> k in s.fibers
  }

  lemma AgreeNumbered(l: seq<L.ListFiber>, s: T.Table)
    requires Agree(l, s)
    ensures Numbered(l, s) && |l| == s.lastFibId
  {
  }

  /** Every fiber has been charged with the same number of failures. */
  ghost predicate SameFailures(l: seq<L.ListFiber>, s: T.Table)
    requires Numbered(l, s)
  {
    forall k {:trigger Entry(l, k)} :: 1 <= k <= |l| ==> Entry(l, k).failed == s.fibers[k].failed
  }

  /** The call is refused because another thread runs its target. */
  predicate Contended(s: T.Table, call: Call) {
    && call.SwitchTo? && call.tid in s.threads && call.id in s.fibers
    && s.threads[call.tid] != Some(call.id) && s.fibers[call.id].selectedThread.Some?
  }

  lemma ContendedCharges(l: seq<L.ListFiber>, s: T.Table, call: Call)
    requires Agree(l, s) && Numbered(l, s) && SameFailures(l, s) && Contended(s, call)
    requires Numbered(L.Step(l, call).0, T.Step(s, call).0) && |L.Step(l, call).0| == |l|
    ensures !SameFailures(L.Step(l, call).0, T.Step(s, call).0)
  {
    var m, r := L.Step(l, call).0, T.Step(s, call).0;
    FailuresChargedDifferently(l, s, call.tid, call.id, call.cpu, call.clock);
    assert 1 <= call.id <= |l|;
    hide Agree, L.FibSwitchTo, T.FibSwitchTo;
    assert Entry(l, call.id).failed == s.fibers[call.id].failed;
    assert Entry(m, call.id).failed != r.fibers[call.id].failed;
  }

  lemma SwitchedCharges(l: seq<L.ListFiber>, s: T.Table, o: Fid, id: Fid, a: L.ListFiber, b: L.ListFiber, r: T.Table)
    requires Numbered(l, s) && SameFailures(l, s) && 1 <= o <= |l| && 1 <= id <= |l|
    requires a.failed == Entry(l, o).failed && b.failed == Entry(l, id).failed
    requires forall k :: k in s.fibers ==> k in r.fibers && r.fibers[k].failed == s.fibers[k].failed
    ensures Numbered(l[|l| - o := a][|l| - id := b], r) && SameFailures(l[|l| - o := a][|l| - id := b], r)
  {
    var m := l[|l| - o := a][|l| - id := b];
    forall k | 1 <= k <= |m| ensures Entry(m, k).failed == Entry(l, k).failed {
      assert Entry(m, k) == if k == id then b else if k == o then a else Entry(l, k);
    }
  }

  lemma SelfCharges(l: seq<L.ListFiber>, s: T.Table, o: Fid)
    requires Numbered(l, s) && SameFailures(l, s) && 1 <= o <= |l|
    ensures var m := l[|l| - o := Entry(l, o).(failed := Entry(l, o).failed + 1)];
      Numbered(m, T.ChargeFailure(s, o)) && SameFailures(m, T.ChargeFailure(s, o))
  {
    var m := l[|l| - o := Entry(l, o).(failed := Entry(l, o).failed + 1)];
    assert Entry(l, o).failed == s.fibers[o].failed;
    forall k | 1 <= k <= |m| ensures Entry(m, k).failed == T.ChargeFailure(s, o).fibers[k].failed {
      assert Entry(m, k).failed == Entry(l, k).failed + if k == o then 1 else 0;
    }
  }

  lemma SwitchCharges(l: seq<L.ListFiber>, s: T.Table, tid: Tid, id: Fid, cpu: Context, clock: int)
    requires Agree(l, s) && Numbered(l, s) && SameFailures(l, s) && tid > 0
    requires !Contended(s, SwitchTo(tid, id, cpu, clock))
    ensures var m, r := L.FibSwitchTo(l, tid, id, cpu, clock).0, T.FibSwitchTo(s, tid, id, cpu, clock).0;
      Numbered(m, r) && SameFailures(m, r)
  {
    hide SameFailures, ListFailed, TableFailed, L.FindRunner, L.FindId;
    ScanForRunner(l, s, tid);
    ScanForId(l, s, id);
    if tid in s.threads && id in s.fibers {
      var o := s.threads[tid].value;
      assert FiberAgree(Entry(l, id), s.fibers[id]);
      hide FiberAgree;
      if o == id {
        SelfCharges(l, s, o);
      } else {
        SwitchedCharges(l, s, o, id, L.Leaving(Entry(l, o), cpu, clock), L.Entering(Entry(l, id), tid, clock),
                        T.FibSwitchTo(s, tid, id, cpu, clock).0);
      }
    }
  }

  lemma AddedCharges(l: seq<L.ListFiber>, s: T.Table, f: L.ListFiber, r: T.Table)
    requires Numbered(l, s) && SameFailures(l, s) && |l| + 1 in r.fibers && f.failed == r.fibers[|l| + 1].failed
    requires forall k :: 1 <= k <= |l| ==> k in r.fibers && r.fibers[k] == s.fibers[k]
    ensures Numbered([f] + l, r) && SameFailures([f] + l, r)
  {
    var m := [f] + l;
    forall k | 1 <= k <= |m| ensures Entry(m, k).failed == r.fibers[k].failed {
      if k <= |l| {
        assert Entry(m, k) == Entry(l, k);
      }
    }
  }

  /** One call charges the same fiber in both designs, or none, unless another thread runs its target. */
  lemma StepChargesExactly(l: seq<L.ListFiber>, s: T.Table, call: Call)
    requires Agree(l, s) && Numbered(l, s) && SameFailures(l, s) && ValidCaller(call)
    ensures Agree(L.Step(l, call).0, T.Step(s, call).0) && Numbered(L.Step(l, call).0, T.Step(s, call).0)
    ensures SameFailures(L.Step(l, call).0, T.Step(s, call).0) <==> !Contended(s, call)
  {
    StepSimulates(l, s, call);
    AgreeNumbered(L.Step(l, call).0, T.Step(s, call).0);
    AgreeNumbered(l, s);
    hide Numbered, SameFailures;
    match call
    case SwitchTo(tid, id, cpu, clock) =>
      if Contended(s, call) {
        ContendedCharges(l, s, call);
      } else {
        SwitchCharges(l, s, tid, id, cpu, clock);
      }
    case Convert(tid, _, _) =>
      ScanForRunner(l, s, tid);
      if tid !in s.threads {
        AddedCharges(l, s, L.Step(l, call).0[0], T.Step(s, call).0);
      }
    case Create(_, _, _, _, _, _) => AddedCharges(l, s, L.Step(l, call).0[0], T.Step(s, call).0);
  }

  /** The failures of each fiber agree after every call of the run. */
  ghost predicate SameFailuresThroughout(l: seq<L.ListFiber>, s: T.Table, calls: seq<Call>)
    requires Agree(l, s) && forall i :: 0 <= i < |calls| ==> ValidCaller(calls[i])
    decreases |calls|
  {
    && (AgreeNumbered(l, s); SameFailures(l, s))
    && (calls != [] ==>
      (StepSimulates(l, s, calls[0]);
       SameFailuresThroughout(L.Step(l, calls[0]).0, T.Step(s, calls[0]).0, calls[1..])))
  }

  ghost predicate NeverContended(s: T.Table, calls: seq<Call>)
    requires T.TableInv(s)
    decreases |calls|
  {
    calls != [] ==>
      && !Contended(s, calls[0])
      && (T.StepKeepsOwnership(s, calls[0]); NeverContended(T.Step(s, calls[0]).0, calls[1..]))
  }

  lemma {:induction false} RunChargesExactly(l: seq<L.ListFiber>, s: T.Table, calls: seq<Call>)
    requires Agree(l, s) && Numbered(l, s) && SameFailures(l, s)
    requires forall i :: 0 <= i < |calls| ==> ValidCaller(calls[i])
    ensures T.TableInv(s) && (SameFailuresThroughout(l, s, calls) <==> NeverContended(s, calls))
    decreases |calls|
  {
    TableOf(l, s);
    hide Agree, T.TableInv, T.Step, L.Step, SameFailures, Numbered, Contended;
    if calls != [] {
      assert ValidCaller(calls[0]);
      StepChargesExactly(l, s, calls[0]);
      T.StepKeepsOwnership(s, calls[0]);
      if !Contended(s, calls[0]) {
        RunChargesExactly(L.Step(l, calls[0]).0, T.Step(s, calls[0]).0, calls[1..]);
      } else {
        NotThroughout(L.Step(l, calls[0]).0, T.Step(s, calls[0]).0, calls[1..]);
      }
    }
  }

  lemma NotThroughout(l: seq<L.ListFiber>, s: T.Table, calls: seq<Call>)
    requires Agree(l, s) && Numbered(l, s) && !SameFailures(l, s)
    requires forall i :: 0 <= i < |calls| ==> ValidCaller(calls[i])
    ensures !SameFailuresThroughout(l, s, calls)
  {
  }

  /** From two empty processes: the failures of each fiber agree throughout a run if and only if no call of
      it is refused because another thread runs its target. */
  lemma FailuresAgreeExactly(calls: seq<Call>)
    requires forall i :: 0 <= i < |calls| ==> ValidCaller(calls[i])
    ensures Agree([], T.EmptyTable) && T.TableInv(T.EmptyTable)
    ensures SameFailuresThroughout([], T.EmptyTable, calls) <==> NeverContended(T.EmptyTable, calls)
  {
    EmptyAgree();
    RunChargesExactly([], T.EmptyTable, calls);
  }
}
