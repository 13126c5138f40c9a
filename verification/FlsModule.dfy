/**
 The storage calls of SviluppoHashTable2/Fiber.c on fibers with arrays: a call scans the fiber table
 for the fiber whose runner is the calling thread, and updates that fiber's arrays in place.  Every
 method computes `Fls.Step`.
 */
module FlsModule {
  import opened Common
  import F = Fls

  class Fiber {
    const id: F.Fid
    var runner: Option<F.Tid>
    const bitmapFls: array<bool>
    const fls: array<int>

    constructor (id: F.Fid)
      ensures this.id == id && runner == None && fresh(bitmapFls) && fresh(fls)
      ensures Sized() && Abs() == F.Fiber(None, F.EmptyStore())
    {
      this.id := id;
      runner := None;
      bitmapFls := new bool[F.FLS_SIZE](_ => false);
      fls := new int[F.FLS_SIZE](_ => 0);
    }

    ghost function Abs(): F.Fiber
      reads this, bitmapFls, fls
    {
      F.Fiber(runner, F.Store(bitmapFls[..], fls[..]))
    }

    method Assign(runner: Option<F.Tid>)
      modifies this
      ensures this.runner == runner && Abs() == F.Fiber(runner, old(Abs()).store)
    {
      this.runner := runner;
    }

    ghost predicate Sized() {
      bitmapFls.Length == F.FLS_SIZE && fls.Length == F.FLS_SIZE
    }

    method Alloc() returns (index: int)
      requires Sized()
      modifies bitmapFls
      ensures var (st, answer) := F.Serve(old(Abs()).store, F.Alloc);
        Abs() == old(Abs()).(store := st) && answer == F.Number(index)
    {
      index := -1;
      var c := 0;
      while c < F.FLS_SIZE
        invariant 0 <= c <= F.FLS_SIZE && index == -1
        invariant F.FirstFree(bitmapFls[..], c) == F.FirstFree(bitmapFls[..], 0)
      {
        if !bitmapFls[c] {
          index := c;
          break;
        }
        c := c + 1;
      }
      if index == F.FLS_SIZE || index < 0 {
        return -1;
      }
      bitmapFls[index] := true;
      assert bitmapFls[..] == old(bitmapFls[..])[index := true];
    }

    method Free(index: int) returns (ok: bool)
      requires Sized()
      modifies bitmapFls
      ensures var (st, answer) := F.Serve(old(Abs()).store, F.Free(index));
        Abs() == old(Abs()).(store := st) && answer == F.Truth(ok)
    {
      if index >= F.FLS_SIZE || index < 0 {
        return false;
      }
      if !bitmapFls[index] {
        return false;
      }
      bitmapFls[index] := false;
      ok := true;
    }

    method GetValue(pos: int) returns (value: int)
      requires Sized()
      ensures (Abs().store, F.Number(value)) == F.Serve(Abs().store, F.Get(pos))
    {
      if pos >= F.FLS_SIZE || pos < 0 {
        return -1;
      }
      if !bitmapFls[pos] {
        return -1;
      }
      value := fls[pos];
    }

    method SetValue(pos: int, val: int)
      requires Sized()
      modifies fls
      ensures var (st, answer) := F.Serve(old(Abs()).store, F.Set(pos, val));
        Abs() == old(Abs()).(store := st) && answer == F.Nothing
    {
      if pos >= F.FLS_SIZE || pos < 0 {
        return;
      }
      if !bitmapFls[pos] {
        return;
      }
      fls[pos] := 0;
      fls[pos] := val;
      assert fls[..] == old(fls[..])[pos := val];
    }
  }

  lemma HasMember(ids: set<F.Fid>)
    requires ids != {}
    ensures exists k :: k in ids
  {
    assert (forall k :: k !in ids) ==> ids == {};
  }

  class Process {
    var listafiber: map<F.Fid, Fiber>
    var lastFibId: nat

    ghost function Bitmaps(): set<array<bool>>
      reads this
    {
      set k | k in listafiber :: listafiber[k].bitmapFls
    }

    ghost function Slots(): set<array<int>>
      reads this
    {
      set k | k in listafiber :: listafiber[k].fls
    }

    ghost function Abs(): F.System
      reads this, listafiber.Values, Bitmaps(), Slots()
    {
      F.System(map k | k in listafiber :: listafiber[k].Abs(), lastFibId)
    }

    /** Every fiber is filed under its own id and has its own arrays. */
    ghost predicate Filed()
      reads this, listafiber.Values
    {
      && (forall k :: k in listafiber ==> listafiber[k].id == k && listafiber[k].Sized())
      && (forall j, k :: j in listafiber && k in listafiber && j != k ==>
        listafiber[j].bitmapFls != listafiber[k].bitmapFls && listafiber[j].fls != listafiber[k].fls)
    }

    ghost predicate Valid()
      reads this, listafiber.Values, Bitmaps(), Slots()
    {
      Filed() && F.Inv(Abs())
    }

    constructor ()
      ensures Valid() && Abs() == F.NoFibers
    {
      listafiber := map[];
      lastFibId := 0;
    }

    /** The scan over the fibers, whose order is that of the hash table. */
    method FindRunner(tid: F.Tid) returns (fiber: Fiber?)
      requires Valid()
      ensures Valid() && Abs() == old(Abs())
      ensures fiber == null <==> !F.Converted(Abs(), tid)
      ensures fiber != null ==> F.Runs(Abs(), tid, fiber.id) && F.Current(Abs(), tid) == fiber.id
      ensures fiber != null ==> fiber.id in listafiber && listafiber[fiber.id] == fiber
    {
      hide F.Inv;
      var todo := listafiber.Keys;
      while todo != {}
        invariant todo <= listafiber.Keys && Valid() && Abs() == old(Abs())
        invariant forall k :: k in listafiber && k !in todo ==> listafiber[k].runner != Some(tid)
      {
        HasMember(todo);
        var k :| k in todo;
        if listafiber[k].runner == Some(tid) {
          assert F.Runs(Abs(), tid, k);
          F.CurrentIs(Abs(), tid, k);
          return listafiber[k];
        }
        todo := todo - {k};
      }
      fiber := null;
      assert forall k :: !F.Runs(Abs(), tid, k);
    }

    method FibConvert(tid: F.Tid) returns (id: int)
      requires Valid()
      modifies this
      ensures Valid() && (Abs(), F.Number(id)) == F.Step(old(Abs()), F.Convert(tid))
    {
      hide F.Inv, F.EmptyStore, Fiber.Abs, F.Step, F.Converted, F.Runs;
      ghost var was := Abs();
      F.ConvertStep(was, tid);
      var runner := FindRunner(tid);
      if runner != null {
        return -1;
      }
      NextIdIsNew();
      var elem := DoFibCreate();
      SetRunner(elem, Some(tid));
      id := elem.id;
      F.StepKeepsInv(was, F.Convert(tid));
      assert Abs().fibers == was.fibers[id := F.Fiber(Some(tid), F.EmptyStore())];
    }

    lemma NextIdIsNew()
      requires Valid()
      ensures lastFibId + 1 !in listafiber
    {
      assert lastFibId + 1 !in Abs().fibers;
    }

    method DoFibCreate() returns (fiber: Fiber)
      requires Filed() && lastFibId + 1 !in listafiber
      modifies this
      ensures Abs() == F.System(old(Abs()).fibers[lastFibId := F.Fiber(None, F.EmptyStore())], lastFibId)
      ensures fresh(fiber) && fresh(fiber.bitmapFls) && fresh(fiber.fls) && fiber.Abs() == F.Fiber(None, F.EmptyStore())
      ensures fiber.id == old(lastFibId) + 1 == lastFibId && listafiber == old(listafiber)[fiber.id := fiber]
      ensures Filed()
    {
      hide F.EmptyStore;
      ghost var was := Abs();
      lastFibId := lastFibId + 1;
      fiber := new Fiber(lastFibId);
      assert Abs().fibers == was.fibers;
      HashAdd(fiber);
    }

    method HashAdd(fiber: Fiber)
      requires Filed() && fiber.Sized() && fiber.id !in listafiber
      requires fiber.bitmapFls !in Bitmaps() && fiber.fls !in Slots()
      modifies this`listafiber
      ensures Filed() && listafiber == old(listafiber)[fiber.id := fiber]
      ensures Abs() == old(Abs()).(fibers := old(Abs()).fibers[fiber.id := fiber.Abs()])
    {
      hide Fiber.Abs;
      ghost var was := Abs();
      listafiber := listafiber[fiber.id := fiber];
      assert forall k :: k in listafiber && k != fiber.id ==> listafiber[k].Abs() == was.fibers[k];
    }

    method FibCreate(tid: F.Tid) returns (id: int)
      requires Valid()
      modifies this
      ensures Valid() && (Abs(), F.Number(id)) == F.Step(old(Abs()), F.Create(tid))
    {
      hide F.Inv;
      ghost var was := Abs();
      NextIdIsNew();
      var fiber := DoFibCreate();
      id := fiber.id;
      F.StepKeepsInv(was, F.Create(tid));
    }

    method FibSwitchTo(tid: F.Tid, id: F.Fid) returns (ret: int)
      requires Valid() && F.Converted(Abs(), tid) && id in listafiber
      modifies listafiber.Values
      ensures Valid() && listafiber == old(listafiber)
      ensures (Abs(), F.Number(ret)) == F.Step(old(Abs()), F.SwitchTo(tid, id))
    {
      hide F.Inv;
      ghost var was := Abs();
      var before := FindRunner(tid);
      var next := listafiber[id];
      if next.runner.Some? {
        return -1;
      }
      SetRunner(before, None);
      SetRunner(next, Some(tid));
      ret := 0;
      F.StepKeepsInv(was, F.SwitchTo(tid, id));
    }

    method SetRunner(fiber: Fiber, runner: Option<F.Tid>)
      requires Filed() && fiber.id in listafiber && listafiber[fiber.id] == fiber
      modifies fiber
      ensures Filed() && fiber.runner == runner
      ensures Abs() == old(Abs()).(fibers := old(Abs()).fibers[fiber.id := F.Fiber(runner, old(fiber.Abs()).store)])
    {
      hide Fiber.Abs;
      ghost var was := Abs();
      fiber.Assign(runner);
      assert forall k :: k in listafiber && k != fiber.id ==> listafiber[k].Abs() == was.fibers[k];
    }

    method FlsAlloc(tid: F.Tid) returns (index: int)
      requires Valid() && F.Converted(Abs(), tid)
      modifies Bitmaps()
      ensures Valid() && listafiber == old(listafiber)
      ensures (Abs(), F.Number(index)) == F.Step(old(Abs()), F.Local(tid, F.Alloc))
    {
      hide F.Inv, F.Serve, Fiber.Abs;
      ghost var was := Abs();
      var fiber := FindRunner(tid);
      index := fiber.Alloc();
      assert Abs().fibers == was.fibers[fiber.id := fiber.Abs()] by {
        assert forall k :: k in listafiber && k != fiber.id ==> listafiber[k].Abs() == was.fibers[k];
      }
      F.StepKeepsInv(was, F.Local(tid, F.Alloc));
    }

    method FlsFree(tid: F.Tid, index: int) returns (ok: bool)
      requires Valid() && F.Converted(Abs(), tid)
      modifies Bitmaps()
      ensures Valid() && listafiber == old(listafiber)
      ensures (Abs(), F.Truth(ok)) == F.Step(old(Abs()), F.Local(tid, F.Free(index)))
    {
      hide F.Inv, F.Serve, Fiber.Abs;
      ghost var was := Abs();
      var fiber := FindRunner(tid);
      ok := fiber.Free(index);
      assert Abs().fibers == was.fibers[fiber.id := fiber.Abs()] by {
        assert forall k :: k in listafiber && k != fiber.id ==> listafiber[k].Abs() == was.fibers[k];
      }
      F.StepKeepsInv(was, F.Local(tid, F.Free(index)));
    }

    method FlsGetValue(tid: F.Tid, pos: int) returns (value: int)
      requires Valid() && F.Converted(Abs(), tid)
      ensures Valid() && (Abs(), F.Number(value)) == F.Step(old(Abs()), F.Local(tid, F.Get(pos)))
    {
      hide F.Inv;
      ghost var was := Abs();
      var fiber := FindRunner(tid);
      value := fiber.GetValue(pos);
      assert Abs().fibers == was.fibers == F.Step(was, F.Local(tid, F.Get(pos))).0.fibers;
    }

    method FlsSetValue(tid: F.Tid, pos: int, val: int)
      requires Valid() && F.Converted(Abs(), tid)
      modifies Slots()
      ensures Valid() && listafiber == old(listafiber)
      ensures (Abs(), F.Nothing) == F.Step(old(Abs()), F.Local(tid, F.Set(pos, val)))
    {
      hide F.Inv, F.Serve, Fiber.Abs;
      ghost var was := Abs();
      var fiber := FindRunner(tid);
      fiber.SetValue(pos, val);
      assert Abs().fibers == was.fibers[fiber.id := fiber.Abs()] by {
        assert forall k :: k in listafiber && k != fiber.id ==> listafiber[k].Abs() == was.fibers[k];
      }
      F.StepKeepsInv(was, F.Local(tid, F.Set(pos, val)));
    }
  }
}
