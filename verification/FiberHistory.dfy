/**
 The records kept of each fiber, read off the calls of a run: who made it and where it starts, how
 often it was entered, how often its own calls were refused, and for how long it ran.
 */
module FiberHistory {
  import opened Common
  import opened FiberTypes
  import opened FiberTable
  import opened FiberRuns
  import L = FiberList

  // ---------- what a call is to a fiber ----------

  ghost predicate Makes(s: Table, call: Call, k: Fid)
    requires TableInv(s)
  {
    Step(s, call).1 == Created(k)
  }

  /** Its thread goes on in fiber k: by converting or by switching. */
  ghost predicate Enters(s: Table, call: Call, k: Fid)
    requires TableInv(s)
  {
    (call.Convert? && Makes(s, call, k)) || (call.SwitchTo? && call.id == k && Step(s, call).1.Switched?)
  }

  ghost predicate CalledFrom(s: Table, call: Call, k: Fid) {
    call.tid in s.threads && s.threads[call.tid] == Some(k)
  }

  ghost predicate Exits(s: Table, call: Call, k: Fid)
    requires TableInv(s)
  {
    CalledFrom(s, call, k) && Step(s, call).1.Switched?
  }

  /** A switch to an existing fiber, asked for by fiber k, fails. */
  ghost predicate Refuses(s: Table, call: Call, k: Fid)
    requires TableInv(s)
  {
    CalledFrom(s, call, k) && call.SwitchTo? && call.id in s.fibers && Step(s, call).1.Failed?
  }

  // ---------- the history of a fiber ----------

  /** How often fiber k was entered and refused, the sums of the clock readings with which it was
      entered and left, and the last reading with which it was entered. */
  datatype History = History(entries: nat, refusals: nat, entered: int, left: int, last: int)

  const NoHistory := History(0, 0, 0, 0, 0)

  function Clock(call: Call): int {
    if call.Create? then 0 else call.clock
  }

  ghost function Later(s: Table, call: Call, k: Fid, h: History): History
    requires TableInv(s)
  {
    History(h.entries + if Enters(s, call, k) then 1 else 0,
            h.refusals + if Refuses(s, call, k) then 1 else 0,
            h.entered + if Enters(s, call, k) then Clock(call) else 0,
            h.left + if Exits(s, call, k) then Clock(call) else 0,
            if Enters(s, call, k) then Clock(call) else h.last)
  }

  ghost function HistoryOf(s: Table, calls: seq<Call>, k: Fid, h: History): History
    requires TableInv(s)
    decreases |calls|
  {
    if calls == [] then h else HistoryOf(After(s, calls[0]), calls[1..], k, Later(s, calls[0], k, h))
  }

  /** The record of a fiber agrees with a history; its time is counted while it does not run. */
  ghost predicate Records(f: Fiber, h: History) {
    && f.correct == h.entries && f.failed == h.refusals && f.lastActivation == h.last
    && Congruent(f.execTime, h.left - h.entered + if f.selectedThread.Some? then h.last else 0)
  }

  ghost predicate Recorded(s: Table, k: Fid, h: History) {
    if k in s.fibers then Records(s.fibers[k], h) else h == NoHistory
  }

  lemma ExitRecords(f: Fiber, h: History, cpu: Context, clock: int)
    requires Records(f, h) && f.selectedThread.Some?
    ensures Records(Leaving(f, cpu, clock), h.(left := h.left + clock))
  {
    var x := clock - f.lastActivation;
    assert Congruent(f.execTime - f.execTime, h.left - h.entered + h.last - f.execTime);
    hide Congruent;
    CongruentWrap(f.execTime - f.execTime, h.left - h.entered + h.last - f.execTime, f.execTime + x);
  }

  lemma EntryRecords(f: Fiber, h: History, tid: Tid, clock: int)
    requires Records(f, h) && f.selectedThread.None?
    ensures Records(Entering(f, tid, clock), History(h.entries + 1, h.refusals, h.entered + clock, h.left, clock))
  {
  }

  lemma NewRecords(f: Fiber, clock: int)
    requires f.failed == 0 && f.execTime == 0
    ensures f.selectedThread.None? && f.correct == 0 && f.lastActivation == 0 ==> Records(f, NoHistory)
    ensures f.selectedThread.Some? && f.correct == 1 && f.lastActivation == clock ==>
      Records(f, History(1, 0, clock, 0, clock))
  {
  }

  lemma MakingRecorded(s: Table, call: Call, k: Fid, h: History)
    requires TableInv(s) && Recorded(s, k, h) && !call.SwitchTo?
    ensures Recorded(Step(s, call).0, k, Later(s, call, k, h))
  {
    hide Records;
    var r := Step(s, call).0;
    if k in r.fibers && k !in s.fibers {
      NewRecords(r.fibers[k], Clock(call));
    }
  }

  lemma SwitchRecorded(s: Table, call: Call, k: Fid, h: History)
    requires TableInv(s) && Recorded(s, k, h) && call.SwitchTo? && Step(s, call).1.Switched?
    ensures Recorded(Step(s, call).0, k, Later(s, call, k, h))
  {
    hide Records;
    var o := s.threads[call.tid].value;
    if k == o {
      ExitRecords(s.fibers[k], h, call.cpu, call.clock);
    } else if k == call.id {
      EntryRecords(s.fibers[k], h, call.tid, call.clock);
    }
  }

  lemma RefusalRecorded(s: Table, call: Call, k: Fid, h: History)
    requires TableInv(s) && Recorded(s, k, h) && call.SwitchTo? && !Step(s, call).1.Switched?
    ensures Recorded(Step(s, call).0, k, Later(s, call, k, h))
  {
    hide Congruent;
  }

  lemma StepRecorded(s: Table, call: Call, k: Fid, h: History)
    requires TableInv(s) && Recorded(s, k, h)
    ensures Recorded(After(s, call), k, Later(s, call, k, h))
  {
    hide Step, TableInv, Recorded, Later;
    if !call.SwitchTo? {
      MakingRecorded(s, call, k, h);
    } else if Step(s, call).1.Switched? {
      SwitchRecorded(s, call, k, h);
    } else {
      RefusalRecorded(s, call, k, h);
    }
  }

  /** Every fiber's counters and times are those of the run, whatever the run. */
  lemma {:induction false} RunRecorded(s: Table, calls: seq<Call>, k: Fid, h: History)
    requires TableInv(s) && Recorded(s, k, h)
    ensures Recorded(Run(s, calls).0, k, HistoryOf(s, calls, k, h))
    decreases |calls|
  {
    if calls != [] {
      hide Recorded, Step, TableInv, Later;
      StepRecorded(s, calls[0], k, h);
      RunRecorded(After(s, calls[0]), calls[1..], k, Later(s, calls[0], k, h));
    }
  }

  /** From the empty process: for each fiber, correct_counter is the number of converts and switches that
      entered it, failed_counter that of refused switches asked for by it, last_activation_time the clock at
      its last entry, and exec_time, modulo 2^64, the sum of the times from each entry to the next exit. */
  lemma RecordsAreExact(calls: seq<Call>, k: Fid)
    ensures TableInv(EmptyTable)
    ensures var r := Run(EmptyTable, calls).0;
      k in r.fibers ==> Records(r.fibers[k], HistoryOf(EmptyTable, calls, k, NoHistory))
  {
    RunRecorded(EmptyTable, calls, k, NoHistory);
  }

  /** What a conversion saves: all of the thread's context here, but in the list design only its
      registers, with stack pointers and argument zeroed and the floating-point state cleared. */
  lemma ConversionSaves(s: Table, l: seq<L.ListFiber>, tid: Tid, cpu: Context, clock: int)
    ensures var r := FibConvert(s, tid, cpu, clock);
      r.1.Created? ==> r.1.id in r.0.fibers && r.0.fibers[r.1.id].saved == cpu
    ensures var m := L.FibConvert(l, tid, cpu, clock);
      m.1.Created? ==> m.0 != [] && m.0[0].saved == Context(cpu.regs.(sp := 0, bp := 0, di := 0), 0)
  {
  }

  // ---------- who made it ----------

  /** The call of the run that made fiber k. */
  ghost function Maker(s: Table, calls: seq<Call>, k: Fid): Option<Call>
    requires TableInv(s)
    decreases |calls|
  {
    if calls == [] then None
    else if Makes(s, calls[0], k) then Some(calls[0])
    else Maker(After(s, calls[0]), calls[1..], k)
  }

  predicate MadeBy(f: Fiber, call: Call) {
    && f.creator == call.tid
    && (call.Create? ==> f.entryPoint == call.func)
    && (call.Convert? ==> f.entryPoint == call.cpu.regs.ip)
  }

  predicate SameMaker(f: Fiber, g: Fiber) {
    g.creator == f.creator && g.entryPoint == f.entryPoint
  }

  lemma StepMakes(s: Table, call: Call, k: Fid)
    requires TableInv(s)
    ensures k in s.fibers ==>
      k in After(s, call).fibers && !Makes(s, call, k) && SameMaker(s.fibers[k], After(s, call).fibers[k])
    ensures k !in s.fibers && k in After(s, call).fibers ==> Makes(s, call, k)
    ensures Makes(s, call, k) ==>
      k in After(s, call).fibers && !call.SwitchTo? && MadeBy(After(s, call).fibers[k], call)
  {
    var r := Step(s, call).0;
    if call.SwitchTo? {
      SwitchMakes(s, call, k);
    } else {
      assert k in s.fibers ==> k in r.fibers && r.fibers[k] == s.fibers[k];
    }
    hide TableInv;
  }

  lemma SwitchMakes(s: Table, call: Call, k: Fid)
    requires TableInv(s) && call.SwitchTo?
    ensures k in s.fibers <==> k in Step(s, call).0.fibers
    ensures k in s.fibers ==> SameMaker(s.fibers[k], Step(s, call).0.fibers[k])
    ensures !Makes(s, call, k)
  {
  }

  lemma {:induction false} MakerKept(s: Table, calls: seq<Call>, k: Fid, call: Call)
    requires TableInv(s) && k in s.fibers && MadeBy(s.fibers[k], call)
    ensures k in Run(s, calls).0.fibers && MadeBy(Run(s, calls).0.fibers[k], call)
    decreases |calls|
  {
    if calls != [] {
      hide Step, TableInv;
      StepMakes(s, calls[0], k);
      MakerKept(After(s, calls[0]), calls[1..], k, call);
    }
  }

  /** Every fiber that a run has made names, for ever, the thread that made it and where it was to start. */
  lemma {:induction false} MakerIsNamed(s: Table, calls: seq<Call>, k: Fid)
    requires TableInv(s) && k !in s.fibers && k in Run(s, calls).0.fibers
    ensures Maker(s, calls, k).Some? && !Maker(s, calls, k).value.SwitchTo?
    ensures MadeBy(Run(s, calls).0.fibers[k], Maker(s, calls, k).value)
    decreases |calls|
  {
    hide Step, TableInv;
    if calls != [] {
      StepMakes(s, calls[0], k);
      if Makes(s, calls[0], k) {
        MakerKept(After(s, calls[0]), calls[1..], k, calls[0]);
      } else {
        MakerIsNamed(After(s, calls[0]), calls[1..], k);
      }
    }
  }
}
