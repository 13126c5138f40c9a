/**
 The objects of Sviluppo/Fiber.c: one list of fibers, scanned from its head and updated in place
 under the global lock.  Each handler computes the function of the same name in `FiberList`.
 */
module FiberListModule {
  import opened FiberTypes
  import L = FiberList

  /** The calling thread's register frame and floating-point unit. */
  class Cpu {
    var regs: Regs
    var fpu: int

    ghost function Abs(): Context
      reads this
    {
      Context(regs, fpu)
    }
  }

  /** A list element with the fiber record it points to. */
  class Element {
    var id: Fid
    var runner: Tid
    var running: bool
    var regs: Regs
    var fpu: int
    var execTime: int
    var lastActivationTime: int
    var correctCounter: nat
    var failedCounter: nat
    var entryPoint: int
    var creator: Tid

    constructor (id: Fid, regs: Regs, entryPoint: int, creator: Tid)
      ensures Abs() == L.ListFiber(id, 0, false, Context(regs, 0), entryPoint, creator, 0, 0, 0, 0)
    {
      this.id := id;
      runner := 0;
      running := false;
      this.regs := regs;
      fpu := 0;
      execTime, lastActivationTime, correctCounter, failedCounter := 0, 0, 0, 0;
      this.entryPoint := entryPoint;
      this.creator := creator;
    }

    /** fib_convert's entries in a new fiber. */
    method StartOn(tid: Tid, clock: int)
      modifies this
      ensures Abs() == old(Abs()).(running := true, runner := tid, lastActivation := clock, correct := 1)
    {
      running := true;
      runner := tid;
      lastActivationTime := clock;
      correctCounter := 1;
    }

    ghost function Abs(): L.ListFiber
      reads this
    {
      L.ListFiber(id, runner, running, Context(regs, fpu), entryPoint, creator,
                  execTime, lastActivationTime, correctCounter, failedCounter)
    }
  }

  /** The exchange of a successful switch: contexts, flags, counters and times. */
  method SwapIn(oldFiber: Element, newFiber: Element, tid: Tid, cpu: Cpu, clock: int)
    requires oldFiber != newFiber
    modifies oldFiber, newFiber, cpu
    ensures cpu.Abs() == old(newFiber.Abs()).saved
    ensures oldFiber.Abs() == L.Leaving(old(oldFiber.Abs()), old(cpu.Abs()), clock)
    ensures newFiber.Abs() == L.Entering(old(newFiber.Abs()), tid, clock)
  {
    oldFiber.regs := cpu.regs;
    oldFiber.fpu := cpu.fpu;
    cpu.regs := newFiber.regs;
    cpu.fpu := newFiber.fpu;
    oldFiber.running := false;
    oldFiber.runner := 0;
    newFiber.running := true;
    newFiber.runner := tid;
    newFiber.correctCounter := newFiber.correctCounter + 1;
    newFiber.lastActivationTime := clock;
    oldFiber.execTime := (oldFiber.execTime + (newFiber.lastActivationTime - oldFiber.lastActivationTime)) % WORD;
  }

  class ListProcess {
    var listaFiber: seq<Element>

    ghost function Abs(): (l: seq<L.ListFiber>)
      reads this, listaFiber
      ensures |l| == |listaFiber| && forall i :: 0 <= i < |l| ==> l[i] == listaFiber[i].Abs()
    {
      seq(|listaFiber|, i requires 0 <= i < |listaFiber| reads this, listaFiber => listaFiber[i].Abs())
    }

    ghost predicate Valid()
      reads this, listaFiber
    {
      && (forall i, j :: 0 <= i < j < |listaFiber| ==> listaFiber[i] != listaFiber[j])
      && L.ListInv(Abs())
    }

    constructor ()
      ensures Valid() && Abs() == []
    {
      listaFiber := [];
    }

    /** The scan for the fiber a thread runs. */
    method FindRunner(tid: Tid) returns (i: nat)
      ensures i == L.FindRunner(Abs(), tid)
    {
      i := 0;
      while i < |listaFiber| && listaFiber[i].runner != tid
        invariant 0 <= i <= |listaFiber|
        invariant forall j :: 0 <= j < i ==> listaFiber[j].runner != tid
      {
        i := i + 1;
      }
      L.FindRunnerIs(Abs(), tid, i);
    }

    method FindId(id: Fid) returns (i: nat)
      ensures i == L.FindId(Abs(), id)
    {
      i := 0;
      while i < |listaFiber| && listaFiber[i].id != id
        invariant 0 <= i <= |listaFiber|
        invariant forall j :: 0 <= j < i ==> listaFiber[j].id != id
      {
        i := i + 1;
      }
      L.FindIdIs(Abs(), id, i);
    }

    /** A new fiber at the head of the list. */
    method DoFibCreate(tid: Tid, cpu: Cpu, func: int, parameters: int, stack: int, size: int) returns (elem: Element)
      requires Valid()
      modifies this
      ensures Valid() && fresh(elem) && listaFiber == [elem] + old(listaFiber)
      ensures elem.Abs() == L.DoFibCreate(old(Abs()), tid, cpu.Abs(), func, parameters, stack, size)
      ensures Abs() == [elem.Abs()] + old(Abs())
    {
      ghost var was := Abs();
      var sp := (stack + size - 1) % WORD;
      var regs := cpu.regs.(ip := func, sp := sp, bp := sp, di := parameters);
      var fiberId := 1;
      if listaFiber != [] {
        fiberId := listaFiber[0].id + 1;
      }
      elem := new Element(fiberId, regs, func, tid);
      listaFiber := [elem] + listaFiber;
      assert Abs() == [elem.Abs()] + was;
    }

    method FibConvert(tid: Tid, cpu: Cpu, clock: int) returns (ret: int)
      requires Valid() && tid > 0
      modifies this
      ensures Valid()
      ensures var (l, reply) := L.FibConvert(old(Abs()), tid, cpu.Abs(), clock);
        Abs() == l && ret == (if reply.Created? then reply.id else 0)
    {
      hide L.FindRunner, L.DoFibCreate;
      ghost var was := Abs();
      var i := FindRunner(tid);
      if i < |listaFiber| {
        return 0;
      }
      var elem := DoFibCreate(tid, cpu, cpu.regs.ip, 0, 1, 0);
      elem.StartOn(tid, clock);
      ret := elem.id;
      assert Abs() == [elem.Abs()] + was;
    }

    method FibCreate(tid: Tid, cpu: Cpu, func: int, parameters: int, stack: int, size: int) returns (elem: Element)
      requires Valid()
      modifies this
      ensures Valid() && fresh(elem)
      ensures var (l, reply) := L.FibCreate(old(Abs()), tid, cpu.Abs(), func, parameters, stack, size);
        Abs() == l && reply == Created(elem.id)
    {
      elem := DoFibCreate(tid, cpu, func, parameters, stack, size);
    }

    method FibSwitchTo(tid: Tid, id: Fid, cpu: Cpu, clock: int) returns (ret: int)
      requires Valid() && tid > 0
      modifies listaFiber, cpu
      ensures Valid()
      ensures var (l, reply) := L.FibSwitchTo(old(Abs()), tid, id, old(cpu.Abs()), clock);
        && Abs() == l
        && ret == (if reply.Switched? then 0 else -1)
        && cpu.Abs() == (if reply.Switched? then reply.cpu else old(cpu.Abs()))
    {
      hide L.FindRunner, L.FindId, L.Leaving, L.Entering;
      ghost var was := Abs();
      var i := FindRunner(tid);
      if i == |listaFiber| {
        return -1;
      }
      var j := FindId(id);
      if j == |listaFiber| || listaFiber[j].running {
        if j < |listaFiber| {
          CountFailure(j);
        }
        return -1;
      }
      Exchange(tid, i, j, cpu, clock);
      ret := 0;
    }

    method CountFailure(j: nat)
      requires Valid() && j < |listaFiber|
      modifies listaFiber[j]
      ensures Valid() && Abs() == old(Abs())[j := old(Abs())[j].(failed := old(Abs())[j].failed + 1)]
    {
      ghost var was := Abs();
      listaFiber[j].failedCounter := listaFiber[j].failedCounter + 1;
      assert Abs() == was[j := was[j].(failed := was[j].failed + 1)];
    }

    /** A successful switch from element i to element j. */
    method Exchange(tid: Tid, i: nat, j: nat, cpu: Cpu, clock: int)
      requires Valid() && i < |listaFiber| && j < |listaFiber| && i != j && tid > 0
      modifies listaFiber[i], listaFiber[j], cpu
      ensures Valid() && cpu.Abs() == old(Abs())[j].saved
      ensures Abs() == old(Abs())
        [i := L.Leaving(old(Abs())[i], old(cpu.Abs()), clock)][j := L.Entering(old(Abs())[j], tid, clock)]
    {
      ghost var was := Abs();
      var oldFiber, newFiber := listaFiber[i], listaFiber[j];
      assert oldFiber.Abs() == was[i] && newFiber.Abs() == was[j];
      SwapIn(oldFiber, newFiber, tid, cpu, clock);
      assert forall k :: 0 <= k < |listaFiber| && k != i && k != j ==> listaFiber[k].Abs() == was[k];
      assert Abs() == was[i := oldFiber.Abs()][j := newFiber.Abs()];
    }
  }
}
