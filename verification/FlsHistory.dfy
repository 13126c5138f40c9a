/**
 What the storage calls answer, read off the requests before them alone; and who runs which fiber,
 compared with the thread-table runtime.
 */
module FlsHistory {
  import opened Common
  import opened Fls
  import T = FiberTable
  import R = FiberTypes

  // ---------- one storage ----------

  /** After these requests and answers, index i has been handed out and not freed since. */
  predicate Held(rs: seq<Request>, answers: seq<Answer>, i: int)
    requires |answers| == |rs|
    decreases |rs|
  {
    rs != [] &&
    var n := |rs| - 1;
    if rs[n] == Alloc && answers[n] == Number(i) then 0 <= i
    else rs[n] != Free(i) && Held(rs[..n], answers[..n], i)
  }

  /** The value last stored at index i while it was held; 0 if there is none. */
  function Stored(rs: seq<Request>, answers: seq<Answer>, i: int): int
    requires |answers| == |rs|
    decreases |rs|
  {
    if rs == [] then 0 else
      var n := |rs| - 1;
      if rs[n].Set? && rs[n].pos == i && Held(rs[..n], answers[..n], i) then rs[n].val
      else Stored(rs[..n], answers[..n], i)
  }

  /** The only right answer to a request after these requests and answers. */
  ghost predicate RightAnswer(rs: seq<Request>, answers: seq<Answer>, r: Request, a: Answer)
    requires |answers| == |rs|
  {
    match r
    case Alloc =>
      && a.Number?
      && (if forall i :: 0 <= i < 4096 ==> Held(rs, answers, i) then a.n == -1
          else 0 <= a.n < 4096 && !Held(rs, answers, a.n) && forall i :: 0 <= i < a.n ==> Held(rs, answers, i))
    case Free(i) => a == Truth(Held(rs, answers, i))
    case Get(i) => a == Number(if Held(rs, answers, i) then Stored(rs, answers, i) else -1)
    case Set(_, _) => a == Nothing
  }

  /** The storage is what the requests and answers make of it. */
  ghost predicate Tells(rs: seq<Request>, answers: seq<Answer>, st: Store)
    requires |answers| == |rs| && WellSized(st)
  {
    && (forall i :: Allocated(st, i) <==> Held(rs, answers, i))
    && (forall i :: 0 <= i < FLS_SIZE ==> st.values[i] == Stored(rs, answers, i))
  }

  lemma OneMore(rs: seq<Request>, answers: seq<Answer>, r: Request, a: Answer, i: int)
    requires |answers| == |rs|
    ensures Held(rs + [r], answers + [a], i) ==
      if r == Alloc && a == Number(i) then 0 <= i else r != Free(i) && Held(rs, answers, i)
    ensures Stored(rs + [r], answers + [a], i) ==
      if r.Set? && r.pos == i && Held(rs, answers, i) then r.val else Stored(rs, answers, i)
  {
    assert (rs + [r])[..|rs|] == rs && (answers + [a])[..|rs|] == answers;
  }

  /** One request is answered rightly, and the storage stays what the history makes of it. */
  lemma ServeTells(rs: seq<Request>, answers: seq<Answer>, st: Store, r: Request)
    requires |answers| == |rs| && WellSized(st) && Tells(rs, answers, st)
    ensures RightAnswer(rs, answers, r, Serve(st, r).1)
    ensures Tells(rs + [r], answers + [Serve(st, r).1], Serve(st, r).0)
  {
    AllocTakesLowest(st);
    var (st1, a) := Serve(st, r);
    forall i ensures Allocated(st1, i) <==> Held(rs + [r], answers + [a], i) {
      OneMore(rs, answers, r, a, i);
    }
    forall i | 0 <= i < FLS_SIZE ensures st1.values[i] == Stored(rs + [r], answers + [a], i) {
      OneMore(rs, answers, r, a, i);
    }
  }

  ghost predicate RightAnswers(rs0: seq<Request>, answers0: seq<Answer>, rs: seq<Request>, answers: seq<Answer>)
    requires |answers0| == |rs0| && |answers| == |rs|
  {
    forall k {:trigger rs[k]} {:trigger answers[k]} :: 0 <= k < |rs| ==>
      RightAnswer(rs0 + rs[..k], answers0 + answers[..k], rs[k], answers[k])
  }

  lemma {:induction false} AloneTells(rs0: seq<Request>, answers0: seq<Answer>, st: Store, rs: seq<Request>)
    requires |answers0| == |rs0| && WellSized(st) && Tells(rs0, answers0, st)
    ensures var (st1, answers) := Alone(st, rs);
      && |answers| == |rs| && RightAnswers(rs0, answers0, rs, answers)
      && Tells(rs0 + rs, answers0 + answers, st1)
    decreases |rs|
  {
    hide RightAnswer, RightAnswers, Tells, Serve;
    if rs == [] {
      assert rs0 + rs == rs0 && answers0 + [] == answers0;
      NoAnswers(rs0, answers0);
    } else {
      var (st1, a) := Serve(st, rs[0]);
      ServeTells(rs0, answers0, st, rs[0]);
      AloneTells(rs0 + [rs[0]], answers0 + [a], st1, rs[1..]);
      var answers := Alone(st, rs).1;
      assert answers[1..] == Alone(st1, rs[1..]).1;
      assert rs0 + [rs[0]] + rs[1..] == rs0 + rs && answers0 + [a] + answers[1..] == answers0 + answers;
      Onward(rs0, answers0, rs, answers);
    }
  }

  lemma NoAnswers(rs0: seq<Request>, answers0: seq<Answer>)
    requires |answers0| == |rs0|
    ensures RightAnswers(rs0, answers0, [], [])
  {
  }

  /** A right first answer and right further answers. */
  lemma Onward(rs0: seq<Request>, answers0: seq<Answer>, rs: seq<Request>, answers: seq<Answer>)
    requires |answers0| == |rs0| && |answers| == |rs| > 0 && RightAnswer(rs0, answers0, rs[0], answers[0])
    requires RightAnswers(rs0 + [rs[0]], answers0 + [answers[0]], rs[1..], answers[1..])
    ensures RightAnswers(rs0, answers0, rs, answers)
  {
    hide RightAnswer;
    forall k {:trigger rs[k]} | 0 <= k < |rs|
      ensures RightAnswer(rs0 + rs[..k], answers0 + answers[..k], rs[k], answers[k])
    {
      if k == 0 {
        assert rs0 + rs[..0] == rs0 && answers0 + answers[..0] == answers0;
      } else {
        assert rs0 + [rs[0]] + rs[1..][..k - 1] == rs0 + rs[..k];
        assert answers0 + [answers[0]] + answers[1..][..k - 1] == answers0 + answers[..k];
        assert rs[1..][k - 1] == rs[k] && answers[1..][k - 1] == answers[k];
      }
    }
  }

  lemma EmptyTells()
    ensures WellSized(EmptyStore()) && Tells([], [], EmptyStore())
  {
  }

  /** From a new fiber on, in every run, whatever other fibers do: each request of the fiber is answered as
      its own requests before say.  An allocation gets the lowest index not held, or -1 if all 4096 are; a
      free says whether the index was held; a get of an index held reads what was last stored there, and
      of any other -1. */
  lemma AnswersFollowHistory(s: System, calls: seq<Call>, f: Fid)
    requires Inv(s) && ProperRun(s, calls) && f !in s.fibers
    ensures var (requests, answers) := RequestsOf(s, calls, f);
      |answers| == |requests| && RightAnswers([], [], requests, answers)
  {
    hide RightAnswers, Tells;
    Isolation(s, calls, f);
    EmptyTells();
    AloneTells([], [], EmptyStore(), RequestsOf(s, calls, f).0);
  }

  // ---------- who runs which fiber ----------

  /** A call as the thread-table runtime gets it; it looks at neither context nor clock here. */
  function TableCall(call: Call, cpu: R.Context): R.Call
    requires !call.Local?
  {
    match call
    case Convert(tid) => R.Convert(tid, cpu, 0)
    case Create(tid) => R.Create(tid, cpu, 0, 0, 0, 0)
    case SwitchTo(tid, id) => R.SwitchTo(tid, id, cpu, 0)
  }

  /** The same fibers, each run by the same thread. */
  ghost predicate SameRunners(s: System, t: T.Table) {
    && T.TableInv(t) && t.lastFibId == s.lastFibId
    && forall f :: f in s.fibers ==> f in t.fibers && t.fibers[f].selectedThread == s.fibers[f].runner
  }

  predicate SameAnswer(a: Answer, reply: R.Reply) {
    match reply
    case Created(id) => a == Number(id)
    case Switched(_) => a == Number(0)
    case Failed => a == Number(-1)
  }

  /** Conversion, creation and switching move fibers between threads exactly as in the thread-table
      runtime; requests move none. */
  lemma RunnersAsTable(s: System, t: T.Table, call: Call, cpu: R.Context)
    requires Inv(s) && Proper(s, call) && SameRunners(s, t)
    ensures call.Local? ==> SameRunners(Step(s, call).0, t)
    ensures !call.Local? ==>
      && SameRunners(Step(s, call).0, T.Step(t, TableCall(call, cpu)).0)
      && SameAnswer(Step(s, call).1, T.Step(t, TableCall(call, cpu)).1)
  {
    ConvertedAsTable(s, t, call.tid);
    hide T.TableInv, Converted, Inv;
    match call
    case SwitchTo(tid, id) => SwitchAsTable(s, t, tid, id, cpu);
    case Local(_, _) =>
    case _ =>
      T.StepKeepsOwnership(t, TableCall(call, cpu));
      hide EmptyStore;
  }

  lemma SwitchAsTable(s: System, t: T.Table, tid: Tid, id: Fid, cpu: R.Context)
    requires Inv(s) && Proper(s, SwitchTo(tid, id)) && SameRunners(s, t)
    ensures SameRunners(Step(s, SwitchTo(tid, id)).0, T.FibSwitchTo(t, tid, id, cpu, 0).0)
    ensures SameAnswer(Step(s, SwitchTo(tid, id)).1, T.FibSwitchTo(t, tid, id, cpu, 0).1)
  {
    hide T.TableInv, Converted, Inv;
    ConvertedAsTable(s, t, tid);
    T.SwitchKeepsOwnership(t, tid, id, cpu, 0);
    assert Runs(s, tid, Current(s, tid));
    if s.fibers[id].runner.Some? {
      assert t.fibers[id].selectedThread.Some?;
    }
  }

  lemma ConvertedAsTable(s: System, t: T.Table, tid: Tid)
    requires Inv(s) && SameRunners(s, t)
    ensures Converted(s, tid) <==> tid in t.threads && t.threads[tid].Some?
    ensures Converted(s, tid) ==> t.threads[tid] == Some(Current(s, tid))
  {
    if tid in t.threads {
      assert Runs(s, tid, t.threads[tid].value);
    }
  }
}
