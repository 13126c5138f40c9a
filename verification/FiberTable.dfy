/**
 The fiber runtime of SviluppoHashTable/Module/Fiber.c, one atomic call at a time: a table of
 threads, each pointing to the fiber it runs, and a table of fibers, each pointing back.
 Class `FiberModule.Process` is proved to compute these functions.
 */
module FiberTable {
  import opened Common
  import opened FiberTypes

  datatype Fiber = Fiber(
    saved: Context,
    entryPoint: int,
    creator: Tid,
    selectedThread: Option<Tid>,
    execTime: int,
    lastActivation: int,
    correct: nat,
    failed: nat)

  /** `runner` of a thread is NULL only while it is being converted. */
  datatype Table = Table(threads: map<Tid, Option<Fid>>, fibers: map<Fid, Fiber>, lastFibId: nat)

  const EmptyTable := Table(map[], map[], 0)

  // ---------- the calls ----------

  /** The context a new fiber starts with; only created fibers (`flag == 1`) get their own. */
  function NewContext(cpu: Context, func: int, parameters: int, stack: int, size: int, flag: int): Context {
    if flag == 1 then
      var sp := (stack + size - 8) % WORD;
      cpu.(regs := cpu.regs.(ip := func, sp := sp, bp := sp, di := parameters))
    else cpu
  }

  function DoFibCreate(tid: Tid, cpu: Context, func: int, parameters: int, stack: int, size: int, flag: int): Fiber {
    Fiber(NewContext(cpu, func, parameters, stack, size, flag), func, tid, None, 0, 0, 0, 0)
  }

  function FibConvert(s: Table, tid: Tid, cpu: Context, clock: int): (Table, Reply) {
    if tid in s.threads then (s, Failed) else
      var id := s.lastFibId + 1;
      var f := DoFibCreate(tid, cpu, cpu.regs.ip, 0, 0, -1, 0)
        .(lastActivation := clock, correct := 1, selectedThread := Some(tid));
      (Table(s.threads[tid := Some(id)], s.fibers[id := f], id), Created(id))
  }

  function FibCreate(s: Table, tid: Tid, cpu: Context, func: int, parameters: int, stack: int, size: int)
    : (Table, Reply)
  {
    var id := s.lastFibId + 1;
    var f := DoFibCreate(tid, cpu, func, parameters, stack, size, 1);
    (Table(s.threads, s.fibers[id := f], id), Created(id))
  }

  function ChargeFailure(s: Table, id: Fid): Table
    requires id in s.fibers
  {
    s.(fibers := s.fibers[id := s.fibers[id].(failed := s.fibers[id].failed + 1)])
  }

  /** A fiber switched out, and one switched in. */
  function Leaving(f: Fiber, cpu: Context, clock: int): Fiber {
    f.(saved := cpu, selectedThread := None, execTime := (f.execTime + (clock - f.lastActivation)) % WORD)
  }

  function Entering(f: Fiber, tid: Tid, clock: int): Fiber {
    f.(selectedThread := Some(tid), correct := f.correct + 1, lastActivation := clock)
  }

  function FibSwitchTo(s: Table, tid: Tid, id: Fid, cpu: Context, clock: int): (Table, Reply)
    requires TableInv(s)
  {
    if tid !in s.threads || s.threads[tid].None? then (s, Failed) else
      var o := s.threads[tid].value;
      if o == id then (ChargeFailure(s, o), Failed)
      else if id !in s.fibers then (s, Failed)
      else if s.fibers[id].selectedThread.Some? then (ChargeFailure(s, o), Failed)
      else
        (Table(s.threads[tid := Some(id)],
               s.fibers[o := Leaving(s.fibers[o], cpu, clock)][id := Entering(s.fibers[id], tid, clock)], s.lastFibId),
         Switched(s.fibers[id].saved))
  }

  function Step(s: Table, call: Call): (Table, Reply)
    requires TableInv(s)
  {
    match call
    case Convert(tid, cpu, clock) => FibConvert(s, tid, cpu, clock)
    case Create(tid, cpu, func, parameters, stack, size) => FibCreate(s, tid, cpu, func, parameters, stack, size)
    case SwitchTo(tid, id, cpu, clock) => FibSwitchTo(s, tid, id, cpu, clock)
  }

  // ---------- ownership ----------

  /** Fibers are numbered from 1; runner and selected_thread are inverse to each other. */
  ghost predicate TableInv(s: Table) {
    && (forall k :: k in s.fibers <==> 1 <= k <= s.lastFibId)
    && (forall t :: t in s.threads ==>
      && s.threads[t].Some? && s.threads[t].value in s.fibers
      && s.fibers[s.threads[t].value].selectedThread == Some(t))
    && (forall k :: k in s.fibers && s.fibers[k].selectedThread.Some? ==>
      && s.fibers[k].selectedThread.value in s.threads
      && s.threads[s.fibers[k].selectedThread.value] == Some(k))
  }

  /** Every call keeps runner and selected_thread inverse: no fiber runs on two threads, no thread
      runs two fibers, and a converted thread always runs one. */
  lemma StepKeepsOwnership(s: Table, call: Call)
    requires TableInv(s)
    ensures TableInv(Step(s, call).0)
  {
    match call
    case Convert(tid, cpu, clock) =>
    case Create(tid, cpu, func, parameters, stack, size) =>
    case SwitchTo(tid, id, cpu, clock) => SwitchKeepsOwnership(s, tid, id, cpu, clock);
  }

  lemma SwitchKeepsOwnership(s: Table, tid: Tid, id: Fid, cpu: Context, clock: int)
    requires TableInv(s)
    ensures TableInv(FibSwitchTo(s, tid, id, cpu, clock).0)
  {
    if tid in s.threads && id in s.fibers && s.fibers[id].selectedThread.None? {
      var o, r := s.threads[tid].value, FibSwitchTo(s, tid, id, cpu, clock).0;
      OwnershipMoves(s, tid, id, r.fibers[o], r.fibers[id]);
    }
  }

  lemma OwnershipMoves(s: Table, tid: Tid, id: Fid, leaving: Fiber, entering: Fiber)
    requires TableInv(s) && tid in s.threads && id in s.fibers && s.fibers[id].selectedThread.None?
    requires leaving.selectedThread.None? && entering.selectedThread == Some(tid)
    ensures TableInv(Table(s.threads[tid := Some(id)], s.fibers[s.threads[tid].value := leaving][id := entering],
                           s.lastFibId))
  {
  }

  /** Fibers and threads are never forgotten, and ids never reused. */
  lemma StepGrows(s: Table, call: Call)
    requires TableInv(s)
    ensures var r := Step(s, call).0;
      && s.fibers.Keys <= r.fibers.Keys && s.threads.Keys <= r.threads.Keys
      && s.lastFibId <= r.lastFibId
      && (Step(s, call).1.Created? ==> Step(s, call).1.id !in s.fibers)
  {
  }

  ghost function Run(s: Table, calls: seq<Call>): (r: (Table, seq<Reply>))
    requires TableInv(s)
    ensures TableInv(r.0) && |r.1| == |calls|
    decreases |calls|
  {
    if calls == [] then (s, []) else
      StepKeepsOwnership(s, calls[0]);
      var (s1, reply) := Step(s, calls[0]);
      var (s2, replies) := Run(s1, calls[1..]);
      (s2, [reply] + replies)
  }
}
