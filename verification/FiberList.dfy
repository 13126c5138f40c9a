/**
 The fiber runtime of Sviluppo/Fiber.c, one call at a time under its global lock: the fibers of a
 process in one list, newest first, each naming the thread that runs it (0 for none).
 Class `FiberListModule.ListProcess` is proved to compute these functions.
 */
module FiberList {
  import opened FiberTypes

  datatype ListFiber = ListFiber(
    id: Fid,
    runner: Tid,
    running: bool,
    saved: Context,
    entryPoint: int,
    creator: Tid,
    execTime: int,
    lastActivation: int,
    correct: nat,
    failed: nat)

  // ---------- the list scans ----------

  /** The position of the first fiber run by tid; the length of the list if there is none. */
  function FindRunner(l: seq<ListFiber>, tid: Tid): (i: nat)
    ensures i <= |l|
    ensures i < |l| ==> l[i].runner == tid
  {
    if l == [] || l[0].runner == tid then 0 else 1 + FindRunner(l[1..], tid)
  }

  function FindId(l: seq<ListFiber>, id: Fid): (i: nat)
    ensures i <= |l|
    ensures i < |l| ==> l[i].id == id
  {
    if l == [] || l[0].id == id then 0 else 1 + FindId(l[1..], id)
  }

  lemma {:induction false} FindRunnerFirst(l: seq<ListFiber>, tid: Tid)
    ensures forall j :: 0 <= j < FindRunner(l, tid) ==> l[j].runner != tid
  {
    if l != [] && l[0].runner != tid {
      FindRunnerFirst(l[1..], tid);
    }
  }

  lemma {:induction false} FindIdFirst(l: seq<ListFiber>, id: Fid)
    ensures forall j :: 0 <= j < FindId(l, id) ==> l[j].id != id
  {
    if l != [] && l[0].id != id {
      FindIdFirst(l[1..], id);
    }
  }

  lemma FindRunnerIs(l: seq<ListFiber>, tid: Tid, i: nat)
    requires i <= |l| && (forall j :: 0 <= j < i ==> l[j].runner != tid) && (i < |l| ==> l[i].runner == tid)
    ensures FindRunner(l, tid) == i
  {
    FindRunnerFirst(l, tid);
  }

  lemma FindIdIs(l: seq<ListFiber>, id: Fid, i: nat)
    requires i <= |l| && (forall j :: 0 <= j < i ==> l[j].id != id) && (i < |l| ==> l[i].id == id)
    ensures FindId(l, id) == i
  {
    FindIdFirst(l, id);
  }

  // ---------- the calls ----------

  /** A fiber is flagged as running exactly while a thread runs it. */
  ghost predicate ListInv(l: seq<ListFiber>) {
    forall i :: 0 <= i < |l| ==> (l[i].running <==> l[i].runner != 0)
  }

  /** A new fiber's context: this version always overwrites it and clears the floating-point state. */
  function NewContext(cpu: Context, func: int, parameters: int, stack: int, size: int): Context {
    var sp := (stack + size - 1) % WORD;
    Context(cpu.regs.(ip := func, sp := sp, bp := sp, di := parameters), 0)
  }

  function DoFibCreate(l: seq<ListFiber>, tid: Tid, cpu: Context, func: int, parameters: int, stack: int, size: int)
    : ListFiber
  {
    var id := if l == [] then 1 else l[0].id + 1;
    ListFiber(id, 0, false, NewContext(cpu, func, parameters, stack, size), func, tid, 0, 0, 0, 0)
  }

  function FibConvert(l: seq<ListFiber>, tid: Tid, cpu: Context, clock: int): (seq<ListFiber>, Reply) {
    if FindRunner(l, tid) < |l| then (l, Failed) else
      var f := DoFibCreate(l, tid, cpu, cpu.regs.ip, 0, 1, 0)
        .(running := true, runner := tid, lastActivation := clock, correct := 1);
      ([f] + l, Created(f.id))
  }

  function FibCreate(l: seq<ListFiber>, tid: Tid, cpu: Context, func: int, parameters: int, stack: int, size: int)
    : (seq<ListFiber>, Reply)
  {
    var f := DoFibCreate(l, tid, cpu, func, parameters, stack, size);
    ([f] + l, Created(f.id))
  }

  function Leaving(f: ListFiber, cpu: Context, clock: int): ListFiber {
    f.(saved := cpu, running := false, runner := 0, execTime := (f.execTime + (clock - f.lastActivation)) % WORD)
  }

  function Entering(f: ListFiber, tid: Tid, clock: int): ListFiber {
    f.(running := true, runner := tid, correct := f.correct + 1, lastActivation := clock)
  }

  function FibSwitchTo(l: seq<ListFiber>, tid: Tid, id: Fid, cpu: Context, clock: int): (seq<ListFiber>, Reply) {
    var i := FindRunner(l, tid);
    if i == |l| then (l, Failed) else
      var j := FindId(l, id);
      if j == |l| then (l, Failed)
      else if l[j].running then (l[j := l[j].(failed := l[j].failed + 1)], Failed)
      else
        (l[i := Leaving(l[i], cpu, clock)][j := Entering(l[j], tid, clock)], Switched(l[j].saved))
  }

  lemma StepKeepsFlags(l: seq<ListFiber>, call: Call)
    requires ListInv(l) && call.tid > 0
    ensures ListInv(Step(l, call).0)
  {
  }

  function Step(l: seq<ListFiber>, call: Call): (seq<ListFiber>, Reply) {
    match call
    case Convert(tid, cpu, clock) => FibConvert(l, tid, cpu, clock)
    case Create(tid, cpu, func, parameters, stack, size) => FibCreate(l, tid, cpu, func, parameters, stack, size)
    case SwitchTo(tid, id, cpu, clock) => FibSwitchTo(l, tid, id, cpu, clock)
  }

  function Run(l: seq<ListFiber>, calls: seq<Call>): (r: (seq<ListFiber>, seq<Reply>))
    ensures |r.1| == |calls|
    decreases |calls|
  {
    if calls == [] then (l, []) else
      var (l1, reply) := Step(l, calls[0]);
      var (l2, replies) := Run(l1, calls[1..]);
      (l2, [reply] + replies)
  }
}
