/**
 Fiber-local storage as in SviluppoHashTable2/Fiber.c: every fiber has FLS_SIZE slots and a bitmap of
 the allocated ones, and a call works on the fiber the calling thread runs at that moment.  Calls
 are atomic here, the switch included.  Class `FlsModule.Process` is proved to compute `Serve`.
 */
module Fls {
  import opened Common

  type Tid = int
  type Fid = int

  const FLS_SIZE := 4096

  // ---------- the storage of one fiber ----------

  datatype Store = Store(bitmap: seq<bool>, values: seq<int>)

  datatype Request = Alloc | Free(index: int) | Get(pos: int) | Set(pos: int, val: int)

  datatype Answer = Number(n: int) | Truth(ok: bool) | Nothing

  function EmptyStore(): Store {
    Store(seq(FLS_SIZE, _ => false), seq(FLS_SIZE, _ => 0))
  }

  predicate WellSized(st: Store) {
    |st.bitmap| == FLS_SIZE && |st.values| == FLS_SIZE
  }

  /** The slot exists and is allocated. */
  predicate Allocated(st: Store, i: int)
    requires WellSized(st)
  {
    0 <= i < FLS_SIZE && st.bitmap[i]
  }

  /** The first index from `i` on whose bit is clear, or the size. */
  function FirstFree(bitmap: seq<bool>, i: nat): (c: nat)
    requires i <= |bitmap|
    ensures i <= c <= |bitmap|
    decreases |bitmap| - i
  {
    if i == |bitmap| || !bitmap[i] then i else FirstFree(bitmap, i + 1)
  }

  function Serve(st: Store, r: Request): (next: (Store, Answer))
    requires WellSized(st)
    ensures WellSized(next.0)
  {
    match r
    case Alloc =>
      var c := FirstFree(st.bitmap, 0);
      if c >= FLS_SIZE then (st, Number(-1)) else (st.(bitmap := st.bitmap[c := true]), Number(c))
    case Free(index) =>
      if !Allocated(st, index) then (st, Truth(false)) else (st.(bitmap := st.bitmap[index := false]), Truth(true))
    case Get(pos) =>
      (st, Number(if !Allocated(st, pos) then -1 else st.values[pos]))
    case Set(pos, val) =>
      (if !Allocated(st, pos) then st else st.(values := st.values[pos := val]), Nothing)
  }

  /** The requests of one fiber, answered by its own storage alone. */
  function Alone(st: Store, rs: seq<Request>): (r: (Store, seq<Answer>))
    requires WellSized(st)
    ensures WellSized(r.0)
    decreases |rs|
  {
    if rs == [] then (st, []) else
      var (st1, answer) := Serve(st, rs[0]);
      var (st2, answers) := Alone(st1, rs[1..]);
      (st2, [answer] + answers)
  }

  lemma {:induction false} FirstFreeIsLowest(bitmap: seq<bool>, i: nat)
    requires i <= |bitmap|
    ensures FirstFree(bitmap, i) < |bitmap| ==> !bitmap[FirstFree(bitmap, i)]
    ensures forall k :: i <= k < FirstFree(bitmap, i) ==> bitmap[k]
    decreases |bitmap| - i
  {
    if i < |bitmap| && bitmap[i] {
      FirstFreeIsLowest(bitmap, i + 1);
    }
  }

  /** An allocation answers -1 and changes nothing exactly when every slot is taken; otherwise it
      answers the lowest free index, and that slot alone becomes allocated. */
  lemma AllocTakesLowest(st: Store)
    requires WellSized(st)
    ensures var (st1, answer) := Serve(st, Alloc);
      && answer.Number? && WellSized(st1)
      && (answer.n == -1 <==> forall i :: 0 <= i < FLS_SIZE ==> Allocated(st, i))
      && (answer.n == -1 ==> st1 == st)
      && (answer.n != -1 ==>
        && 0 <= answer.n < FLS_SIZE && !Allocated(st, answer.n)
        && (forall i :: 0 <= i < answer.n ==> Allocated(st, i))
        && (forall i :: Allocated(st1, i) <==> Allocated(st, i) || i == answer.n)
        && st1.values == st.values)
  {
    FirstFreeIsLowest(st.bitmap, 0);
    var c := FirstFree(st.bitmap, 0);
    assert c < FLS_SIZE ==> !Allocated(st, c);
  }

  predicate Leaves(rs: seq<Request>, i: int) {
    forall k :: 0 <= k < |rs| ==> rs[k] != Free(i) && !(rs[k].Set? && rs[k].pos == i)
  }

  /** Until a fiber frees or sets an allocated slot, the slot keeps its value, and no allocation is
      answered with it. */
  lemma {:induction false} SlotKept(st: Store, rs: seq<Request>, i: int)
    requires WellSized(st) && Allocated(st, i) && Leaves(rs, i)
    ensures var (st1, answers) := Alone(st, rs);
      && Allocated(st1, i) && st1.values[i] == st.values[i]
      && |answers| == |rs| && forall k :: 0 <= k < |rs| && rs[k] == Alloc ==> answers[k] != Number(i)
    decreases |rs|
  {
    if rs != [] {
      AllocTakesLowest(st);
      assert rs[0] != Free(i) && !(rs[0].Set? && rs[0].pos == i);
      var (st1, answer) := Serve(st, rs[0]);
      assert WellSized(st1) && Allocated(st1, i) && st1.values[i] == st.values[i];
      assert Leaves(rs[1..], i) by {
        forall k | 0 <= k < |rs[1..]| ensures rs[1..][k] != Free(i) && !(rs[1..][k].Set? && rs[1..][k].pos == i) {
          assert rs[1..][k] == rs[k + 1];
        }
      }
      SlotKept(st1, rs[1..], i);
      forall k | 0 <= k < |rs| && rs[k] == Alloc ensures Alone(st, rs).1[k] != Number(i) {
        if k > 0 {
          assert rs[1..][k - 1] == Alloc;
        }
      }
    }
  }

  /** Freeing does not clear: the index is answered again by the next allocation exactly when no lower
      one is free, and then it still reads the old value. */
  lemma StaleAfterFree(st: Store, i: int)
    requires WellSized(st) && Allocated(st, i)
    ensures var st1 := Serve(st, Free(i)).0;
      && (Serve(st1, Alloc).1 == Number(i) <==> forall k :: 0 <= k < i ==> Allocated(st, k))
      && (Serve(st1, Alloc).1 == Number(i) ==> Serve(Serve(st1, Alloc).0, Get(i)).1 == Number(st.values[i]))
  {
    var st1 := Serve(st, Free(i)).0;
    AllocTakesLowest(st1);
    assert !Allocated(st1, i);
    assert forall k :: k != i ==> (Allocated(st1, k) <==> Allocated(st, k));
  }

  // ---------- all fibers and threads ----------

  datatype Fiber = Fiber(runner: Option<Tid>, store: Store)

  datatype System = System(fibers: map<Fid, Fiber>, lastFibId: nat)

  const NoFibers := System(map[], 0)

  datatype Call = Convert(tid: Tid) | Create(tid: Tid) | SwitchTo(tid: Tid, id: Fid) | Local(tid: Tid, request: Request)

  ghost predicate Runs(s: System, tid: Tid, f: Fid) {
    f in s.fibers && s.fibers[f].runner == Some(tid)
  }

  ghost predicate Converted(s: System, tid: Tid) {
    exists f :: Runs(s, tid, f)
  }

  /** The fiber the scan of the fiber table finds for a thread. */
  ghost function Current(s: System, tid: Tid): (f: Fid)
    requires Converted(s, tid)
    ensures Runs(s, tid, f)
  {
    var f :| Runs(s, tid, f);
    f
  }

  /** What the module asks of its callers: to be converted, and to name an existing fiber. */
  ghost predicate Proper(s: System, call: Call) {
    match call
    case Convert(_) => true
    case Create(_) => true
    case SwitchTo(tid, id) => Converted(s, tid) && id in s.fibers
    case Local(tid, _) => Converted(s, tid)
  }

  ghost function Step(s: System, call: Call): (System, Answer)
    requires Inv(s) && Proper(s, call)
  {
    match call
    case Convert(tid) =>
      if Converted(s, tid) then (s, Number(-1)) else
        var id := s.lastFibId + 1;
        (System(s.fibers[id := Fiber(Some(tid), EmptyStore())], id), Number(id))
    case Create(tid) =>
      var id := s.lastFibId + 1;
      (System(s.fibers[id := Fiber(None, EmptyStore())], id), Number(id))
    case SwitchTo(tid, id) =>
      if s.fibers[id].runner.Some? then (s, Number(-1)) else
        var o := Current(s, tid);
        (s.(fibers := s.fibers[o := s.fibers[o].(runner := None)][id := s.fibers[id].(runner := Some(tid))]), Number(0))
    case Local(tid, request) =>
      var f := Current(s, tid);
      var (st, answer) := Serve(s.fibers[f].store, request);
      (s.(fibers := s.fibers[f := s.fibers[f].(store := st)]), answer)
  }

  lemma ConvertStep(s: System, tid: Tid)
    requires Inv(s)
    ensures Step(s, Convert(tid)) ==
      if Converted(s, tid) then (s, Number(-1))
      else (System(s.fibers[s.lastFibId + 1 := Fiber(Some(tid), EmptyStore())], s.lastFibId + 1),
        Number(s.lastFibId + 1))
  {
  }

  ghost predicate Inv(s: System) {
    && (forall f :: f in s.fibers <==> 1 <= f <= s.lastFibId)
    && (forall f :: f in s.fibers ==> WellSized(s.fibers[f].store))
    && (forall t, f, g :: Runs(s, t, f) && Runs(s, t, g) ==> f == g)
  }

  lemma CurrentIs(s: System, t: Tid, f: Fid)
    requires Inv(s) && Runs(s, t, f)
    ensures Converted(s, t) && Current(s, t) == f
  {
  }

  /** Who runs f after a call: as before, or the caller of a successful conversion or switch. */
  lemma StepRunner(s: System, call: Call, t: Tid, f: Fid)
    requires Inv(s) && Proper(s, call) && Runs(Step(s, call).0, t, f)
    ensures (call.SwitchTo? && s.fibers[call.id].runner.None? && t == call.tid && f == call.id)
         || (call.Convert? && !Converted(s, t) && t == call.tid && f == s.lastFibId + 1)
         || (Runs(s, t, f) && (call.SwitchTo? && s.fibers[call.id].runner.None? ==> t != call.tid))
  {
    if call.SwitchTo? && s.fibers[call.id].runner.None? {
      var o := Current(s, call.tid);
      assert f != call.id ==> f != o && Runs(s, t, f);
    }
  }

  lemma StepKeepsInv(s: System, call: Call)
    requires Inv(s) && Proper(s, call)
    ensures Inv(Step(s, call).0)
  {
    var r := Step(s, call).0;
    forall t, f, g | Runs(r, t, f) && Runs(r, t, g) ensures f == g {
      StepRunner(s, call, t, f);
      StepRunner(s, call, t, g);
    }
  }

  ghost predicate ProperRun(s: System, calls: seq<Call>)
    requires Inv(s)
    decreases |calls|
  {
    calls != [] ==>
      Proper(s, calls[0]) && (StepKeepsInv(s, calls[0]); ProperRun(Step(s, calls[0]).0, calls[1..]))
  }

  ghost function Final(s: System, calls: seq<Call>): (r: System)
    requires Inv(s) && ProperRun(s, calls)
    ensures Inv(r)
    decreases |calls|
  {
    if calls == [] then s else
      StepKeepsInv(s, calls[0]);
      Final(Step(s, calls[0]).0, calls[1..])
  }

  /** The call is a request of fiber f. */
  ghost predicate Of(s: System, call: Call, f: Fid) {
    call.Local? && Runs(s, call.tid, f)
  }

  /** The requests threads make while they run f, and the answers these get. */
  ghost function RequestsOf(s: System, calls: seq<Call>, f: Fid): (r: (seq<Request>, seq<Answer>))
    requires Inv(s) && ProperRun(s, calls)
    decreases |calls|
  {
    if calls == [] then ([], []) else
      StepKeepsInv(s, calls[0]);
      var (r, answer) := Step(s, calls[0]);
      var (requests, answers) := RequestsOf(r, calls[1..], f);
      if Of(s, calls[0], f) then ([calls[0].request] + requests, [answer] + answers) else (requests, answers)
  }

  ghost function StoreOf(s: System, f: Fid): (st: Store)
    requires Inv(s)
    ensures WellSized(st)
  {
    if f in s.fibers then s.fibers[f].store else EmptyStore()
  }

  lemma StepIsLocal(s: System, call: Call, f: Fid)
    requires Inv(s) && Proper(s, call)
    ensures Inv(Step(s, call).0)
    ensures if Of(s, call, f)
      then (StoreOf(Step(s, call).0, f), Step(s, call).1) == Serve(StoreOf(s, f), call.request)
      else StoreOf(Step(s, call).0, f) == StoreOf(s, f)
  {
    StepKeepsInv(s, call);
    if Of(s, call, f) {
      assert Runs(s, call.tid, Current(s, call.tid));
    }
  }

  /** Isolation: in every run, whatever other fibers request and however fibers move between threads,
      the requests of a fiber are answered as if its storage were alone in the world. */
  lemma {:induction false} Isolation(s: System, calls: seq<Call>, f: Fid)
    requires Inv(s) && ProperRun(s, calls)
    ensures var (requests, answers) := RequestsOf(s, calls, f);
      Alone(StoreOf(s, f), requests) == (StoreOf(Final(s, calls), f), answers)
    decreases |calls|
  {
    if calls != [] {
      StepIsLocal(s, calls[0], f);
      var r := Step(s, calls[0]).0;
      Isolation(r, calls[1..], f);
      var (requests, answers) := RequestsOf(r, calls[1..], f);
      if Of(s, calls[0], f) {
        assert ([calls[0].request] + requests)[1..] == requests;
      }
    }
  }

  /** A slot that fiber f has set to v reads v for whichever thread runs f later, until f sets or
      frees the slot. */
  lemma GetsLastSet(s: System, t: Tid, f: Fid, i: int, v: int, calls: seq<Call>, u: Tid)
    requires Inv(s) && Runs(s, t, f) && Allocated(s.fibers[f].store, i)
    requires var s1 := Step(s, Local(t, Set(i, v))).0;
      Inv(s1) && ProperRun(s1, calls) && Leaves(RequestsOf(s1, calls, f).0, i) && Runs(Final(s1, calls), u, f)
    ensures var s2 := Final(Step(s, Local(t, Set(i, v))).0, calls);
      Step(s2, Local(u, Get(i))).1 == Number(v)
  {
    var s1 := Step(s, Local(t, Set(i, v))).0;
    StepIsLocal(s, Local(t, Set(i, v)), f);
    Isolation(s1, calls, f);
    SlotKept(StoreOf(s1, f), RequestsOf(s1, calls, f).0, i);
    StepIsLocal(Final(s1, calls), Local(u, Get(i)), f);
  }
}
