/**
 The objects of SviluppoHashTable/Module/Fiber.c: threads and fibers pointing to each other, kept
 in tables by id, and the handlers that update them in place.  Each handler computes the function
 of the same name in `FiberTable`.
 */
module FiberModule {
  import opened Common
  import opened FiberTypes
  import T = FiberTable

  lemma OverwriteUpdate<K, V>(m: map<K, V>, k: K, a: V, b: V)
    ensures m[k := a][k := b] == m[k := b]
  {
  }

  /** The calling thread's register frame and floating-point unit. */
  class Cpu {
    var regs: Regs
    var fpu: int

    constructor (regs: Regs, fpu: int)
      ensures Abs() == Context(regs, fpu)
    {
      this.regs := regs;
      this.fpu := fpu;
    }

    ghost function Abs(): Context
      reads this
    {
      Context(regs, fpu)
    }
  }

  class Thread {
    const id: Tid
    var runner: Fiber?

    constructor (id: Tid)
      ensures this.id == id && runner == null
    {
      this.id := id;
      runner := null;
    }

    ghost function Abs(): Option<Fid>
      reads this
    {
      if runner == null then None else Some(runner.id)
    }
  }

  class Fiber {
    const id: Fid
    var regs: Regs
    var fpu: int
    var entryPoint: int
    var selectedThread: Thread?
    var execTime: int
    var lastActivationTime: int
    var correctCounter: nat
    var creator: Tid
    var failedCounter: nat

    constructor (id: Fid, regs: Regs, fpu: int, entryPoint: int, creator: Tid)
      ensures this.id == id
      ensures Abs() == T.Fiber(Context(regs, fpu), entryPoint, creator, None, 0, 0, 0, 0)
    {
      this.id := id;
      this.regs := regs;
      this.fpu := fpu;
      this.entryPoint := entryPoint;
      this.creator := creator;
      selectedThread := null;
      execTime, lastActivationTime, correctCounter, failedCounter := 0, 0, 0, 0;
    }

    /** fib_convert's entries in a new fiber. */
    method StartOn(thread: Thread, clock: int)
      modifies this
      ensures Abs() == old(Abs()).(lastActivation := clock, correct := 1, selectedThread := Some(thread.id))
      ensures selectedThread == thread
    {
      lastActivationTime := clock;
      correctCounter := 1;
      selectedThread := thread;
    }

    method Refused()
      modifies this`failedCounter
      ensures Abs() == old(Abs()).(failed := old(Abs()).failed + 1)
    {
      failedCounter := failedCounter + 1;
    }

    ghost function Abs(): T.Fiber
      reads this
    {
      T.Fiber(Context(regs, fpu), entryPoint, creator,
              if selectedThread == null then None else Some(selectedThread.id),
              execTime, lastActivationTime, correctCounter, failedCounter)
    }
  }

  class Process {
    var listathread: map<Tid, Thread>
    var listafiber: map<Fid, Fiber>
    var lastFibId: nat

    ghost function Abs(): T.Table
      reads this, listathread.Values, listafiber.Values
    {
      T.Table(map t | t in listathread :: listathread[t].Abs(),
              map k | k in listafiber :: listafiber[k].Abs(), lastFibId)
    }

    /** Every object is filed under its own id, and pointers stay inside the process. */
    ghost predicate Filed()
      reads this, listathread.Values, listafiber.Values
    {
      && (forall t :: t in listathread ==>
        && listathread[t].id == t
        && (listathread[t].runner != null ==>
          listathread[t].runner.id in listafiber && listafiber[listathread[t].runner.id] == listathread[t].runner))
      && (forall k :: k in listafiber ==>
        && listafiber[k].id == k
        && (listafiber[k].selectedThread != null ==>
          listafiber[k].selectedThread.id in listathread
          && listathread[listafiber[k].selectedThread.id] == listafiber[k].selectedThread))
    }

    ghost predicate Valid()
      reads this, listathread.Values, listafiber.Values
    {
      Filed() && T.TableInv(Abs())
    }

    constructor ()
      ensures Valid() && Abs() == T.EmptyTable
    {
      listathread := map[];
      listafiber := map[];
      lastFibId := 0;
    }

    method DoThreadCreate(id: Tid) returns (strThread: Thread)
      requires Filed() && id !in listathread
      modifies this`listathread
      ensures fresh(strThread) && strThread.id == id && strThread.runner == null
      ensures listathread == old(listathread)[id := strThread] && Filed()
      ensures Abs() == old(Abs()).(threads := old(Abs()).threads[id := None])
    {
      ghost var was := Abs();
      strThread := new Thread(id);
      listathread := listathread[id := strThread];
      assert Abs().threads == was.threads[id := None];
      assert Abs().fibers == was.fibers;
    }

    /** A new fiber with its id; it is filed by the caller. */
    method DoFibCreate(tid: Tid, cpu: Cpu, func: int, parameters: int, stack: int, size: int, flag: int)
      returns (strFiber: Fiber)
      modifies this`lastFibId
      ensures fresh(strFiber) && lastFibId == old(lastFibId) + 1 == strFiber.id
      ensures strFiber.Abs() == T.DoFibCreate(tid, cpu.Abs(), func, parameters, stack, size, flag)
      ensures strFiber.selectedThread == null
      ensures old(Filed()) ==> Filed() && Abs() == old(Abs()).(lastFibId := lastFibId)
    {
      ghost var was := Abs();
      var regs := cpu.regs;
      if flag == 1 {
        var sp := (stack + size - 8) % WORD;
        regs := regs.(ip := func, sp := sp, bp := sp, di := parameters);
      }
      lastFibId := lastFibId + 1;
      strFiber := new Fiber(lastFibId, regs, cpu.fpu, func, tid);
      assert Abs().fibers == was.fibers && Abs().threads == was.threads;
    }

    /** File a new fiber. */
    method AddFiber(fiber: Fiber)
      requires Filed() && fiber.id !in listafiber
      requires fiber.selectedThread != null ==>
        fiber.selectedThread.id in listathread && listathread[fiber.selectedThread.id] == fiber.selectedThread
      modifies this`listafiber
      ensures Filed() && listafiber == old(listafiber)[fiber.id := fiber]
      ensures Abs() == old(Abs()).(fibers := old(Abs()).fibers[fiber.id := fiber.Abs()])
    {
      ghost var was := Abs();
      listafiber := listafiber[fiber.id := fiber];
      assert Abs().fibers == was.fibers[fiber.id := fiber.Abs()];
      assert Abs().threads == was.threads;
    }

    lemma IdsInUse()
      requires Valid()
      ensures forall k :: k in listafiber <==> 1 <= k <= lastFibId
    {
      assert forall k :: k in listafiber <==> k in Abs().fibers;
    }

    method FibConvert(tid: Tid, cpu: Cpu, clock: int) returns (ret: int)
      requires Valid()
      modifies this
      ensures Valid()
      ensures var (s, reply) := T.FibConvert(old(Abs()), tid, cpu.Abs(), clock);
        Abs() == s && ret == (if reply.Created? then reply.id else -1)
    {
      hide T.TableInv;
      if tid in listathread {
        return -1;
      }
      IdsInUse();
      T.StepKeepsOwnership(Abs(), Convert(tid, cpu.Abs(), clock));
      ret := ConvertThread(tid, cpu, clock);
    }

    method ConvertThread(tid: Tid, cpu: Cpu, clock: int) returns (ret: int)
      requires Filed() && tid !in listathread && lastFibId + 1 !in listafiber
      modifies this
      ensures Filed() && ret == lastFibId == old(lastFibId) + 1
      ensures Abs() == T.FibConvert(old(Abs()), tid, cpu.Abs(), clock).0
    {
      ghost var was := Abs();
      var thread := DoThreadCreate(tid);
      var fiber := DoFibCreate(tid, cpu, cpu.regs.ip, 0, 0, -1, 0);
      StartFiber(fiber, thread, clock);
      AddFiber(fiber);
      ret := fiber.id;
      SetRunner(thread, fiber);
      OverwriteUpdate(was.threads, tid, None, Some(ret));
    }

    /** A fiber that is not yet filed gets its thread. */
    method StartFiber(fiber: Fiber, thread: Thread, clock: int)
      requires Filed() && forall k :: k in listafiber ==> listafiber[k] != fiber
      modifies fiber
      ensures Filed() && Abs() == old(Abs())
      ensures fiber.Abs() == old(fiber.Abs()).(lastActivation := clock, correct := 1, selectedThread := Some(thread.id))
      ensures fiber.selectedThread == thread
    {
      ghost var was := Abs();
      fiber.StartOn(thread, clock);
      assert Abs().threads == was.threads;
      assert Abs().fibers == was.fibers by {
        forall k | k in listafiber ensures listafiber[k].Abs() == was.fibers[k] {
          assert listafiber[k] != fiber;
        }
      }
    }

    method SetRunner(thread: Thread, fiber: Fiber)
      requires Filed() && thread.id in listathread && listathread[thread.id] == thread
      requires fiber.id in listafiber && listafiber[fiber.id] == fiber
      modifies thread
      ensures Filed() && Abs() == old(Abs()).(threads := old(Abs()).threads[thread.id := Some(fiber.id)])
    {
      ghost var was := Abs();
      thread.runner := fiber;
      forall t | t in listathread && t != thread.id ensures listathread[t].Abs() == was.threads[t] {
        assert listathread[t] != thread;
      }
      assert Abs().threads == was.threads[thread.id := Some(fiber.id)];
      assert Abs().fibers == was.fibers;
    }

    method FibCreate(tid: Tid, cpu: Cpu, func: int, parameters: int, stack: int, size: int) returns (fiber: Fiber)
      requires Valid()
      modifies this
      ensures Valid() && fresh(fiber)
      ensures var (s, reply) := T.FibCreate(old(Abs()), tid, cpu.Abs(), func, parameters, stack, size);
        Abs() == s && reply == Created(fiber.id)
    {
      hide T.DoFibCreate, T.TableInv;
      ghost var was := Abs();
      IdsInUse();
      T.StepKeepsOwnership(was, Create(tid, cpu.Abs(), func, parameters, stack, size));
      fiber := DoFibCreate(tid, cpu, func, parameters, stack, size, 1);
      AddFiber(fiber);
    }

    /** The body of a successful switch: save the caller's context, load the other fiber's. */
    method Exchange(thread: Thread, oldFiber: Fiber, newFiber: Fiber, cpu: Cpu, clock: int)
      requires oldFiber != newFiber
      modifies thread, oldFiber, newFiber, cpu
      ensures cpu.Abs() == old(newFiber.Abs()).saved
      ensures oldFiber.Abs() == T.Leaving(old(oldFiber.Abs()), old(cpu.Abs()), clock)
      ensures newFiber.Abs() == T.Entering(old(newFiber.Abs()), thread.id, clock)
      ensures oldFiber.selectedThread == null && newFiber.selectedThread == thread && thread.runner == newFiber
    {
      oldFiber.regs := cpu.regs;
      oldFiber.fpu := cpu.fpu;
      oldFiber.selectedThread := null;
      cpu.regs := newFiber.regs;
      cpu.fpu := newFiber.fpu;
      newFiber.selectedThread := thread;
      thread.runner := newFiber;
      newFiber.correctCounter := newFiber.correctCounter + 1;
      newFiber.lastActivationTime := clock;
      oldFiber.execTime := (oldFiber.execTime + (newFiber.lastActivationTime - oldFiber.lastActivationTime)) % WORD;
    }

    method CountFailure(oldFiber: Fiber)
      requires Filed() && oldFiber.id in listafiber && listafiber[oldFiber.id] == oldFiber
      modifies oldFiber
      ensures Filed() && Abs() == T.ChargeFailure(old(Abs()), oldFiber.id)
    {
      hide T.TableInv, Thread.Abs, Fiber.Abs;
      ghost var was := Abs();
      oldFiber.Refused();
      forall k | k in listafiber && k != oldFiber.id ensures listafiber[k].Abs() == was.fibers[k] {
        assert listafiber[k] != oldFiber;
      }
      assert Abs().threads == was.threads;
      assert Abs().fibers == was.fibers[oldFiber.id := oldFiber.Abs()];
    }

    method FibSwitchTo(tid: Tid, id: Fid, cpu: Cpu, clock: int) returns (ret: int)
      requires Valid()
      modifies listathread.Values, listafiber.Values, cpu
      ensures Valid()
      ensures var (s, reply) := T.FibSwitchTo(old(Abs()), tid, id, old(cpu.Abs()), clock);
        && Abs() == s
        && ret == (if reply.Switched? then 0 else -1)
        && cpu.Abs() == (if reply.Switched? then reply.cpu else old(cpu.Abs()))
    {
      hide T.TableInv, T.Leaving, T.Entering;
      ghost var was := Abs();
      T.StepKeepsOwnership(was, SwitchTo(tid, id, cpu.Abs(), clock));
      ret := -1;
      if tid in listathread {
        var thread := listathread[tid];
        assert was.threads[tid] == thread.Abs();
        if thread.runner != null {
          var oldFiber := thread.runner;
          if oldFiber.id == id {
            CountFailure(oldFiber);
          } else if id in listafiber {
            var newFiber := listafiber[id];
            assert was.fibers[id] == newFiber.Abs();
            if newFiber.selectedThread != null {
              CountFailure(oldFiber);
            } else {
              assert was.fibers[oldFiber.id] == oldFiber.Abs();
              Switch(tid, id, thread, oldFiber, newFiber, cpu, clock);
              ret := 0;
            }
          }
        }
      }
    }

    /** The pointers after a switch. */
    method Switch(tid: Tid, id: Fid, thread: Thread, oldFiber: Fiber, newFiber: Fiber, cpu: Cpu, clock: int)
      requires Filed() && tid in listathread && listathread[tid] == thread && thread.runner == oldFiber
      requires id in listafiber && listafiber[id] == newFiber && oldFiber != newFiber
      modifies thread, oldFiber, newFiber, cpu
      ensures Filed() && cpu.Abs() == old(newFiber.Abs()).saved
      ensures Abs().threads == old(Abs()).threads[tid := Some(id)]
      ensures Abs().fibers == old(Abs()).fibers
        [oldFiber.id := T.Leaving(old(oldFiber.Abs()), old(cpu.Abs()), clock)]
        [id := T.Entering(old(newFiber.Abs()), tid, clock)]
    {
      hide T.Leaving, T.Entering, Fiber.Abs, Cpu.Abs;
      ghost var was := Abs();
      ghost var o := oldFiber.id;
      Exchange(thread, oldFiber, newFiber, cpu, clock);
      assert Abs().threads == was.threads[tid := Some(id)] by {
        forall t | t in listathread && t != tid ensures listathread[t].Abs() == was.threads[t] {
          assert listathread[t] != thread;
        }
      }
      assert Abs().fibers == was.fibers[o := oldFiber.Abs()][id := newFiber.Abs()] by {
        forall k | k in listafiber && k != o && k != id ensures listafiber[k].Abs() == was.fibers[k] {
          assert listafiber[k] != oldFiber && listafiber[k] != newFiber;
        }
      }
    }
  }
}
