/** What whole runs of the thread-table runtime preserve: saved contexts, time and counters. */
module FiberRuns {
  import opened Common
  import opened FiberTypes
  import opened FiberTable

  // ---------- saved contexts ----------

  ghost predicate Suspended(s: Table, f: Fid, r: Context) {
    f in s.fibers && s.fibers[f].selectedThread.None? && s.fibers[f].saved == r
  }

  /** No call of the run switches into fiber f. */
  ghost predicate NeverEnters(s: Table, calls: seq<Call>, f: Fid)
    requires TableInv(s)
    decreases |calls|
  {
    calls == [] || (
      StepKeepsOwnership(s, calls[0]);
      var (r, reply) := Step(s, calls[0]);
      !(calls[0].SwitchTo? && calls[0].id == f && reply.Switched?) && NeverEnters(r, calls[1..], f))
  }

  lemma StepKeepsContext(s: Table, call: Call, f: Fid, r: Context)
    requires TableInv(s) && Suspended(s, f, r)
    requires !(call.SwitchTo? && call.id == f && Step(s, call).1.Switched?)
    ensures Suspended(Step(s, call).0, f, r)
  {
  }

  /** The saved context of a suspended fiber is untouched by any run that does not switch into it. */
  lemma {:induction false} ContextKept(s: Table, calls: seq<Call>, f: Fid, r: Context)
    requires TableInv(s) && Suspended(s, f, r) && NeverEnters(s, calls, f)
    ensures Suspended(Run(s, calls).0, f, r)
    decreases |calls|
  {
    if calls != [] {
      StepKeepsOwnership(s, calls[0]);
      StepKeepsContext(s, calls[0], f, r);
      ContextKept(Step(s, calls[0]).0, calls[1..], f, r);
    }
  }

  lemma {:induction false} RunGrows(s: Table, calls: seq<Call>)
    requires TableInv(s)
    ensures s.threads.Keys <= Run(s, calls).0.threads.Keys && s.fibers.Keys <= Run(s, calls).0.fibers.Keys
    decreases |calls|
  {
    if calls != [] {
      StepKeepsOwnership(s, calls[0]);
      StepGrows(s, calls[0]);
      RunGrows(Step(s, calls[0]).0, calls[1..]);
    }
  }

  /** A switch into a suspended fiber by any converted thread succeeds and loads what was saved. */
  lemma EnterSuspended(s: Table, tid: Tid, f: Fid, r: Context, cpu: Context, clock: int)
    requires TableInv(s) && Suspended(s, f, r) && tid in s.threads
    ensures FibSwitchTo(s, tid, f, cpu, clock).1 == Switched(r)
  {
    assert s.fibers[s.threads[tid].value].selectedThread == Some(tid);
  }

  /** The table after one call. */
  ghost function After(s: Table, call: Call): (r: Table)
    requires TableInv(s)
    ensures TableInv(r) && r == Step(s, call).0
  {
    StepKeepsOwnership(s, call);
    Step(s, call).0
  }

  /** A fiber switched out with context `cpu` resumes with exactly `cpu`, on whatever thread and
      after whatever calls that did not enter it. */
  lemma ContextRoundTrip(s: Table, tid: Tid, g: Fid, cpu: Context, clock: int, calls: seq<Call>, tid': Tid,
          cpu': Context, clock': int)
    requires TableInv(s) && FibSwitchTo(s, tid, g, cpu, clock).1.Switched?
    requires NeverEnters(After(s, SwitchTo(tid, g, cpu, clock)), calls, s.threads[tid].value)
    requires tid' in Run(After(s, SwitchTo(tid, g, cpu, clock)), calls).0.threads
    ensures var left := Run(After(s, SwitchTo(tid, g, cpu, clock)), calls).0;
      FibSwitchTo(left, tid', s.threads[tid].value, cpu', clock').1 == Switched(cpu)
  {
    var f, s1 := s.threads[tid].value, After(s, SwitchTo(tid, g, cpu, clock));
    ContextKept(s1, calls, f, cpu);
    EnterSuspended(Run(s1, calls).0, tid', f, cpu, cpu', clock');
  }

  /** A created fiber starts at its function, with its argument, eight bytes below its stack's top; all
      else, floating-point state included, is its creator's. */
  lemma FreshStart(s: Table, tid: Tid, cpu: Context, func: int, parameters: int, stack: int, size: int,
                   calls: seq<Call>, tid': Tid, cpu': Context, clock': int)
    requires TableInv(s)
    requires NeverEnters(After(s, Create(tid, cpu, func, parameters, stack, size)), calls, s.lastFibId + 1)
    requires tid' in Run(After(s, Create(tid, cpu, func, parameters, stack, size)), calls).0.threads
    ensures var later := Run(After(s, Create(tid, cpu, func, parameters, stack, size)), calls).0;
      var entered := FibSwitchTo(later, tid', s.lastFibId + 1, cpu', clock').1;
      && FibCreate(s, tid, cpu, func, parameters, stack, size).1 == Created(s.lastFibId + 1)
      && entered.Switched?
      && entered.cpu.regs.ip == func && entered.cpu.regs.di == parameters
      && entered.cpu.regs.sp == entered.cpu.regs.bp == (stack + size - 8) % 0x1_0000_0000_0000_0000
      && entered.cpu.fpu == cpu.fpu && entered.cpu.regs.others == cpu.regs.others
  {
    var s1 := After(s, Create(tid, cpu, func, parameters, stack, size));
    var f, r := s.lastFibId + 1, FiberTable.NewContext(cpu, func, parameters, stack, size, 1);
    ContextKept(s1, calls, f, r);
    EnterSuspended(Run(s1, calls).0, tid', f, r, cpu', clock');
  }

  // ---------- sums over the fibers ----------

  ghost function SumOver(fibers: map<Fid, Fiber>, n: nat, f: Fiber -> int): int
    requires forall k :: 1 <= k <= n ==> k in fibers
  {
    if n == 0 then 0 else f(fibers[n]) + SumOver(fibers, n - 1, f)
  }

  lemma {:induction false} SumUpdate(m: map<Fid, Fiber>, r: map<Fid, Fiber>, n: nat, k: Fid, f: Fiber -> int)
    requires forall j :: 1 <= j <= n ==> j in m && j in r
    requires forall j :: 1 <= j <= n && j != k ==> f(r[j]) == f(m[j])
    ensures SumOver(r, n, f) == SumOver(m, n, f) + if 1 <= k <= n then f(r[k]) - f(m[k]) else 0
  {
    if n > 0 {
      SumUpdate(m, r, n - 1, k, f);
    }
  }

  ghost const ExecTime: Fiber -> int := (f: Fiber) => f.execTime
  /** Counted only while the fiber runs. */
  ghost const RunningSince: Fiber -> int := (f: Fiber) => if f.selectedThread.Some? then f.lastActivation else 0
  ghost const Activations: Fiber -> int := (f: Fiber) => f.correct

  ghost function Sum(s: Table, f: Fiber -> int): int
    requires TableInv(s)
  {
    SumOver(s.fibers, s.lastFibId, f)
  }

  lemma SumAdded(s: Table, r: Table, f: Fiber -> int)
    requires TableInv(s) && TableInv(r) && r.lastFibId == s.lastFibId + 1
    requires forall k :: k in s.fibers ==> f(r.fibers[k]) == f(s.fibers[k])
    ensures Sum(r, f) == Sum(s, f) + f(r.fibers[r.lastFibId])
  {
    SumUpdate(s.fibers, r.fibers, s.lastFibId, 0, f);
  }

  lemma SumMoved(s: Table, r: Table, o: Fid, g: Fid, f: Fiber -> int)
    requires TableInv(s) && TableInv(r) && r.lastFibId == s.lastFibId && o in s.fibers && g in s.fibers && o != g
    requires forall k :: k in s.fibers && k != o && k != g ==> f(r.fibers[k]) == f(s.fibers[k])
    ensures Sum(r, f) == Sum(s, f) + f(r.fibers[o]) - f(s.fibers[o]) + f(r.fibers[g]) - f(s.fibers[g])
  {
    var mid := s.fibers[o := r.fibers[o]];
    SumUpdate(s.fibers, mid, s.lastFibId, o, f);
    SumUpdate(mid, r.fibers, s.lastFibId, g, f);
  }

  // ---------- time and counters ----------

  ghost predicate Congruent(a: int, b: int) {
    (a - b) % 0x1_0000_0000_0000_0000 == 0
  }

  lemma CongruentWrap(a: int, b: int, x: int)
    requires Congruent(a, b)
    ensures Congruent(a + x % WORD, b + x)
  {
    var q, k := x / WORD, (a - b) / WORD;
    assert x == WORD * q + x % WORD;
    assert (a + x % WORD) - (b + x) == WORD * (k - q);
  }

  /** The clock reading of a call if it is a successful convert. */
  ghost function ConvertReading(s: Table, call: Call): int
    requires TableInv(s)
  {
    if call.Convert? && Step(s, call).1.Created? then call.clock else 0
  }

  ghost function Activating(s: Table, call: Call): int
    requires TableInv(s)
  {
    if (call.Convert? && Step(s, call).1.Created?) || Step(s, call).1.Switched? then 1 else 0
  }

  lemma SwitchAccounts(s: Table, tid: Tid, g: Fid, cpu: Context, clock: int, base: int)
    requires TableInv(s) && TableInv(FibSwitchTo(s, tid, g, cpu, clock).0)
    requires FibSwitchTo(s, tid, g, cpu, clock).1.Switched?
    requires Congruent(Sum(s, ExecTime), Sum(s, RunningSince) - base)
    ensures var r := FibSwitchTo(s, tid, g, cpu, clock).0;
      Congruent(Sum(r, ExecTime), Sum(r, RunningSince) - base)
  {
    hide SumOver;
    var o, r := s.threads[tid].value, FibSwitchTo(s, tid, g, cpu, clock).0;
    var was, since := s.fibers[o].execTime, s.fibers[o].lastActivation;
    SumMoved(s, r, o, g, ExecTime);
    SumMoved(s, r, o, g, RunningSince);
    assert Congruent(Sum(s, ExecTime) - was, Sum(s, RunningSince) - base - was);
    hide Congruent;
    CongruentWrap(Sum(s, ExecTime) - was, Sum(s, RunningSince) - base - was, was + (clock - since));
  }

  lemma NewFiberAccounts(s: Table, call: Call, base: int)
    requires TableInv(s) && TableInv(Step(s, call).0) && Step(s, call).0.lastFibId == s.lastFibId + 1
    requires Congruent(Sum(s, ExecTime), Sum(s, RunningSince) - base)
    ensures var r := Step(s, call).0;
      Congruent(Sum(r, ExecTime), Sum(r, RunningSince) - (base + ConvertReading(s, call)))
  {
    hide SumOver;
    SumAdded(s, Step(s, call).0, ExecTime);
    SumAdded(s, Step(s, call).0, RunningSince);
  }

  lemma RefusalAccounts(s: Table, call: Call, base: int)
    requires TableInv(s) && TableInv(Step(s, call).0) && Step(s, call).0.lastFibId == s.lastFibId
      && !Step(s, call).1.Switched?
    requires Congruent(Sum(s, ExecTime), Sum(s, RunningSince) - base)
    ensures var r := Step(s, call).0;
      Congruent(Sum(r, ExecTime), Sum(r, RunningSince) - (base + ConvertReading(s, call)))
  {
    hide SumOver, Congruent;
    var r := Step(s, call).0;
    SumUpdate(s.fibers, r.fibers, s.lastFibId, 0, ExecTime);
    SumUpdate(s.fibers, r.fibers, s.lastFibId, 0, RunningSince);
  }

  lemma StepAccounts(s: Table, call: Call, base: int)
    requires TableInv(s) && TableInv(Step(s, call).0)
    requires Congruent(Sum(s, ExecTime), Sum(s, RunningSince) - base)
    ensures var r := Step(s, call).0;
      Congruent(Sum(r, ExecTime), Sum(r, RunningSince) - (base + ConvertReading(s, call)))
  {
    hide SumOver, Congruent, TableInv;
    if Step(s, call).0.lastFibId == s.lastFibId + 1 {
      NewFiberAccounts(s, call, base);
    } else if Step(s, call).1.Switched? {
      SwitchAccounts(s, call.tid, call.id, call.cpu, call.clock, base);
    } else {
      RefusalAccounts(s, call, base);
    }
  }

  lemma StepCounts(s: Table, call: Call)
    requires TableInv(s) && TableInv(Step(s, call).0)
    ensures Sum(Step(s, call).0, Activations) == Sum(s, Activations) + Activating(s, call)
  {
    hide SumOver;
    var r := Step(s, call).0;
    if r.lastFibId == s.lastFibId + 1 {
      SumAdded(s, r, Activations);
    } else if Step(s, call).1.Switched? {
      SumMoved(s, r, s.threads[call.tid].value, call.id, Activations);
    } else {
      SumUpdate(s.fibers, r.fibers, s.lastFibId, 0, Activations);
    }
  }

  /** The sum of the clock readings taken by the successful converts of a run. */
  ghost function ConvertReadings(s: Table, calls: seq<Call>): int
    requires TableInv(s)
    decreases |calls|
  {
    if calls == [] then 0 else
      StepKeepsOwnership(s, calls[0]);
      ConvertReading(s, calls[0]) + ConvertReadings(Step(s, calls[0]).0, calls[1..])
  }

  /** The number of successful converts and switches of a run. */
  ghost function SuccessfulActivations(s: Table, calls: seq<Call>): int
    requires TableInv(s)
    decreases |calls|
  {
    if calls == [] then 0 else
      StepKeepsOwnership(s, calls[0]);
      Activating(s, calls[0]) + SuccessfulActivations(Step(s, calls[0]).0, calls[1..])
  }

  lemma {:induction false} RunAccounts(s: Table, calls: seq<Call>, base: int)
    requires TableInv(s) && Congruent(Sum(s, ExecTime), Sum(s, RunningSince) - base)
    ensures var r := Run(s, calls).0;
      && Congruent(Sum(r, ExecTime), Sum(r, RunningSince) - (base + ConvertReadings(s, calls)))
      && Sum(r, Activations) == Sum(s, Activations) + SuccessfulActivations(s, calls)
    decreases |calls|
  {
    hide Congruent, Sum, TableInv, Step, Activating, ConvertReading;
    if calls != [] {
      StepKeepsOwnership(s, calls[0]);
      StepAccounts(s, calls[0], base);
      StepCounts(s, calls[0]);
      RunAccounts(Step(s, calls[0]).0, calls[1..], base + ConvertReading(s, calls[0]));
    }
  }

  /** For every run of a process and arbitrary clock readings, modulo 2^64: the execution times of
      all fibers add up to the activation times of the running ones minus the readings at convert;
      and the activation counters add up to the successful converts and switches. */
  lemma TimeTelescopes(calls: seq<Call>)
    ensures TableInv(EmptyTable)
    ensures var r := Run(EmptyTable, calls).0;
      && Congruent(Sum(r, ExecTime), Sum(r, RunningSince) - ConvertReadings(EmptyTable, calls))
      && Sum(r, Activations) == SuccessfulActivations(EmptyTable, calls)
  {
    RunAccounts(EmptyTable, calls, 0);
  }
}
