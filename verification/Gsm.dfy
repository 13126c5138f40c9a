/**
 One cell of the GSM simulation in 2018-fibers/src: ProcessEvent of model.c with the channel
 allocation of channel.c, on values.  A pending event is known by its address, a number here; the
 queue may hand events back in any order.  Class `GsmCell.Cell` is proved to compute
 `ProcessEvent`.
 */
module Gsm {
  import opened Common

  const COMPLETE_CALLS := 15000
  const CHANNELS_PER_CELL := 1000
  const INIT := 0
  const START_CALL := 20
  const END_CALL := 21

  datatype Msg = Msg(sender: int, receiver: int, kind: int, timestamp: real, channel: int)

  /** The state of a cell: `busy` are the set bits of channel_state, `channels` the ids in the list of
      channels, newest first. */
  datatype State = State(
    channelCounter: nat,
    arrivingCalls: nat,
    completeCalls: nat,
    blockedOnSetup: nat,
    executedEvents: nat,
    lvt: real,
    busy: set<int>,
    channels: seq<int>)

  // ---------- channel.c ----------

  /** The first channel from i on whose bit is clear, or the number of channels. */
  function FirstFree(busy: set<int>, i: nat): (c: nat)
    requires i <= CHANNELS_PER_CELL
    ensures i <= c <= CHANNELS_PER_CELL
    decreases CHANNELS_PER_CELL - i
  {
    if i == CHANNELS_PER_CELL || i !in busy then i else FirstFree(busy, i + 1)
  }

  /** None is the abort of a cell without a free channel. */
  function Allocation(s: State): Option<(State, int)> {
    var index := FirstFree(s.busy, 0);
    if index == CHANNELS_PER_CELL then None
    else Some((s.(busy := s.busy + {index}, channels := [index] + s.channels), index))
  }

  /** The first position from k on at which a channel stands in the list, or the length. */
  function IndexOf(channels: seq<int>, ch: int, k: nat): (i: nat)
    requires k <= |channels|
    ensures k <= i <= |channels|
    ensures i < |channels| ==> channels[i] == ch
    decreases |channels| - k
  {
    if k == |channels| || channels[k] == ch then k else IndexOf(channels, ch, k + 1)
  }

  /** None is the abort of a channel that is not in the list. */
  function Deallocation(s: State, ch: int): Option<State> {
    var i := IndexOf(s.channels, ch, 0);
    if i == |s.channels| then None
    else Some(s.(busy := s.busy - {ch}, channels := s.channels[..i] + s.channels[i + 1..]))
  }

  // ---------- model.c ----------

  /** The random times an event uses: for INIT the time of the first call; for START_CALL the
      duration of the call and the time to the next one. */
  datatype Draws = Draws(first: real, second: real)

  predicate Forward(d: Draws) {
    d.first >= 0.0 && d.second >= 0.0
  }

  /** What ProcessEvent leaves: the state, the events it puts into the queue and whether the last call
      is complete. */
  datatype Processed = Processed(state: State, sent: seq<Msg>, done: bool)

  const InitialState := State(CHANNELS_PER_CELL, 0, 0, 0, 0, 0.0, {}, [])

  /** None is an abort, or the use of the state before INIT. */
  function ProcessEvent(msg: Msg, state: Option<State>, d: Draws): Option<Processed> {
    var me, now := msg.receiver, msg.timestamp;
    if msg.kind == INIT then
      Some(Processed(InitialState, [Msg(me, me, START_CALL, d.first, -1)], false))
    else if state.None? then None
    else
      var s := state.value.(lvt := now, executedEvents := state.value.executedEvents + 1);
      if msg.kind == START_CALL then StartCall(s, me, now, d)
      else if msg.kind == END_CALL then EndCall(s, msg.channel)
      else None
  }

  function StartCall(s: State, me: int, now: real, d: Draws): Option<Processed> {
    var s1 := s.(arrivingCalls := s.arrivingCalls + 1);
    var again := Msg(me, me, START_CALL, now + d.second, -1);
    if s.channelCounter == 0 then
      Some(Processed(s1.(blockedOnSetup := s.blockedOnSetup + 1), [again], false))
    else
      match Allocation(s1.(channelCounter := s.channelCounter - 1))
      case None => None
      case Some((s2, ch)) => Some(Processed(s2, [Msg(me, me, END_CALL, now + d.first, ch), again], false))
  }

  function EndCall(s: State, ch: int): Option<Processed> {
    match Deallocation(s.(channelCounter := s.channelCounter + 1, completeCalls := s.completeCalls + 1), ch)
    case None => None
    case Some(s1) => Some(Processed(s1, [], s1.completeCalls == COMPLETE_CALLS))
  }

  // ---------- the loop ----------

  /** The cell of one fiber, absent before INIT, its pending events by address, and a bound on the
      addresses in use. */
  datatype World = World(cell: Option<State>, pending: map<int, Msg>, next: int)

  function Start(id: int, unset: real): World {
    World(None, map[0 := Msg(id, id, INIT, unset, 0)], 1)
  }

  /** The sent events at fresh addresses. */
  function Send(pending: map<int, Msg>, next: int, sent: seq<Msg>): (r: (map<int, Msg>, int))
    ensures r.1 == next + |sent|
    decreases |sent|
  {
    if sent == [] then (pending, next) else Send(pending[next := sent[0]], next + 1, sent[1..])
  }

  /** One turn of main_loop with the event at h; None if ProcessEvent aborts.  The flag tells that the
      loop ends. */
  function Turn(w: World, h: int, d: Draws): Option<(World, bool)>
    requires h in w.pending
  {
    match ProcessEvent(w.pending[h], w.cell, d)
    case None => None
    case Some(p) =>
      var (pending, next) := Send(w.pending - {h}, w.next, p.sent);
      Some((World(Some(p.state), pending, next), p.done))
  }

  // ---------- agreement ----------

  ghost predicate Distinct(s: seq<int>) {
    forall i, j :: 0 <= i < j < |s| ==> s[i] != s[j]
  }

  ghost predicate InRange(s: seq<int>) {
    forall ch :: ch in s ==> 0 <= ch < CHANNELS_PER_CELL
  }

  /** Bitmap, list and counters tell the same story. */
  ghost predicate CellOk(s: State) {
    && Distinct(s.channels) && InRange(s.channels)
    && (forall ch :: ch in s.busy <==> ch in s.channels)
    && s.channelCounter + |s.channels| == CHANNELS_PER_CELL
    && s.arrivingCalls == s.completeCalls + s.blockedOnSetup + |s.channels|
    && s.executedEvents == s.arrivingCalls + s.completeCalls
  }

  predicate IsStart(p: map<int, Msg>, h: int) {
    h in p && p[h].kind == START_CALL
  }

  predicate IsEnd(p: map<int, Msg>, h: int, ch: int) {
    h in p && p[h].kind == END_CALL && p[h].channel == ch
  }

  /** One START_CALL is pending, and one END_CALL for every channel in the list; nothing else. */
  ghost predicate PendingOk(p: map<int, Msg>, channels: seq<int>) {
    && (exists h :: IsStart(p, h))
    && (forall g, h :: IsStart(p, g) && IsStart(p, h) ==> g == h)
    && (forall ch :: ch in channels ==> exists h :: IsEnd(p, h, ch))
    && (forall g, h, ch :: IsEnd(p, g, ch) && IsEnd(p, h, ch) ==> g == h)
    && (forall h :: h in p ==> IsStart(p, h) || (IsEnd(p, h, p[h].channel) && p[h].channel in channels))
  }

  ghost predicate Addressed(w: World, id: int) {
    forall h :: h in w.pending ==> h < w.next && w.pending[h].sender == w.pending[h].receiver == id
  }

  ghost predicate Agree(w: World, id: int) {
    Addressed(w, id) &&
    match w.cell
    case None => exists h :: h in w.pending && w.pending.Keys == {h} && w.pending[h].kind == INIT
    case Some(s) => CellOk(s) && PendingOk(w.pending, s.channels)
  }

  lemma {:induction false} FirstFreeIsLowest(busy: set<int>, i: nat)
    requires i <= CHANNELS_PER_CELL
    ensures FirstFree(busy, i) < CHANNELS_PER_CELL ==> FirstFree(busy, i) !in busy
    ensures forall k :: i <= k < FirstFree(busy, i) ==> k in busy
    decreases CHANNELS_PER_CELL - i
  {
    if i < CHANNELS_PER_CELL && i in busy {
      FirstFreeIsLowest(busy, i + 1);
    }
  }

  lemma {:induction false} IndexOfFinds(channels: seq<int>, ch: int, k: nat)
    requires k <= |channels|
    ensures IndexOf(channels, ch, k) < |channels| <==> exists i :: k <= i < |channels| && channels[i] == ch
    decreases |channels| - k
  {
    if k < |channels| && channels[k] != ch {
      IndexOfFinds(channels, ch, k + 1);
    }
  }

  /** Fewer than n distinct numbers leave out one below n. */
  lemma SomeLeftOut(channels: seq<int>, n: nat)
    requires Distinct(channels) && |channels| < n
    ensures exists k :: 0 <= k < n && k !in channels
  {
    DistinctCount(channels);
    if forall k :: 0 <= k < n ==> k in channels {
      SubsetCount(Range(n), set ch | ch in channels);
      assert false;
    }
  }

  lemma SubsetCount(a: set<int>, b: set<int>)
    requires a <= b
    ensures |a| <= |b|
  {
    assert b == a + (b - a);
  }

  ghost function Range(n: nat): (r: set<int>)
    ensures |r| == n && forall k :: k in r <==> 0 <= k < n
  {
    if n == 0 then {} else Range(n - 1) + {n - 1}
  }

  lemma {:induction false} DistinctCount(s: seq<int>)
    requires Distinct(s)
    ensures |set x | x in s| == |s|
  {
    if s != [] {
      DistinctCount(s[1..]);
      assert (set x | x in s) == {s[0]} + set x | x in s[1..];
      assert s[0] !in s[1..];
    }
  }

  /** An allocation finds a channel exactly when one is free, takes the lowest free one and keeps
      bitmap and list in step. */
  lemma AllocationTakesLowest(s: State)
    requires Distinct(s.channels) && (forall ch :: ch in s.busy <==> ch in s.channels)
    requires InRange(s.channels)
    ensures Allocation(s).None? <==> |s.channels| == CHANNELS_PER_CELL
    ensures Allocation(s).Some? ==>
      var (r, index) := Allocation(s).value;
      && 0 <= index < CHANNELS_PER_CELL && index !in s.channels
      && (forall k :: 0 <= k < index ==> k in s.channels)
      && r == s.(busy := r.busy, channels := [index] + s.channels)
      && Distinct(r.channels) && forall ch :: ch in r.busy <==> ch in r.channels
  {
    FirstFreeIsLowest(s.busy, 0);
    if |s.channels| < CHANNELS_PER_CELL {
      SomeLeftOut(s.channels, CHANNELS_PER_CELL);
    } else {
      AllTaken(s.channels, CHANNELS_PER_CELL);
    }
  }

  lemma AllTaken(channels: seq<int>, n: nat)
    requires Distinct(channels) && |channels| >= n
    requires forall ch :: ch in channels ==> 0 <= ch < n
    ensures |channels| == n
    ensures forall k :: 0 <= k < n ==> k in channels
  {
    DistinctCount(channels);
    var all, listed := Range(n), set ch | ch in channels;
    SubsetCount(listed, all);
    assert all == listed + (all - listed);
    forall k | 0 <= k < n ensures k in channels {
      assert k in listed;
    }
  }

  lemma RemoveAt(s: seq<int>, i: nat)
    requires Distinct(s) && i < |s|
    ensures Distinct(s[..i] + s[i + 1..])
    ensures forall c :: c in s[..i] + s[i + 1..] <==> c in s && c != s[i]
  {
    var r := s[..i] + s[i + 1..];
    forall c ensures c in r <==> c in s && c != s[i] {
      if c in s && c != s[i] {
        var k :| 0 <= k < |s| && s[k] == c;
        assert r[if k < i then k else k - 1] == c;
      }
    }
  }

  /** A deallocation finds its channel exactly when the channel is in the list, and takes it out of
      the list and of the bitmap. */
  lemma DeallocationRemoves(s: State, ch: int)
    requires Distinct(s.channels) && (forall c :: c in s.busy <==> c in s.channels)
    ensures Deallocation(s, ch).Some? <==> ch in s.channels
    ensures Deallocation(s, ch).Some? ==>
      var r := Deallocation(s, ch).value;
      && r == s.(busy := r.busy, channels := r.channels)
      && |r.channels| + 1 == |s.channels| && Distinct(r.channels)
      && (forall c :: c in r.channels <==> c in s.channels && c != ch)
      && (forall c :: c in r.busy <==> c in r.channels)
  {
    hide IndexOf;
    IndexOfFinds(s.channels, ch, 0);
    var i := IndexOf(s.channels, ch, 0);
    if i < |s.channels| {
      hide Distinct;
      RemoveAt(s.channels, i);
    }
  }

  lemma SendOne(p: map<int, Msg>, next: int, m: Msg)
    ensures Send(p, next, [m]) == (p[next := m], next + 1)
  {
    assert [m][1..] == [];
  }

  lemma SendTwo(p: map<int, Msg>, next: int, m: Msg, n: Msg)
    ensures Send(p, next, [m, n]) == (p[next := m][next + 1 := n], next + 2)
  {
    assert [m, n][1..] == [n];
    SendOne(p[next := m], next + 1, n);
  }

  // ---------- every turn keeps the agreement ----------

  lemma InitAgrees(w: World, h: int, d: Draws, id: int)
    requires Agree(w, id) && h in w.pending && w.pending[h].kind == INIT
    ensures Turn(w, h, d).Some? && !Turn(w, h, d).value.1 && Agree(Turn(w, h, d).value.0, id)
  {
    var r := Turn(w, h, d).value.0;
    SendOne(w.pending - {h}, w.next, Msg(id, id, START_CALL, d.first, -1));
    assert r.pending == map[w.next := Msg(id, id, START_CALL, d.first, -1)];
    assert IsStart(r.pending, w.next);
  }

  /** The first event makes a new cell, all of whose channels are free, and leaves one event pending, the
      first call at the time drawn. */
  lemma InitSchedules(w: World, h: int, d: Draws, id: int)
    requires Agree(w, id) && h in w.pending && w.pending[h].kind == INIT
    ensures Turn(w, h, d).Some?
    ensures var r := Turn(w, h, d).value.0;
      && r.cell == Some(State(1000, 0, 0, 0, 0, 0.0, {}, []))
      && (forall g :: g in r.pending <==> IsStart(r.pending, g))
      && exists g :: g in r.pending && r.pending.Keys == {g} && r.pending[g] == Msg(id, id, 20, d.first, -1)
  {
    var m := Msg(id, id, START_CALL, d.first, -1);
    SendOne(w.pending - {h}, w.next, m);
    var r := Turn(w, h, d).value.0;
    assert r.pending == map[w.next := m];
    assert w.next in r.pending && r.pending.Keys == {w.next};
  }

  lemma BlockedAgrees(w: World, h: int, d: Draws, id: int)
    requires Agree(w, id) && IsStart(w.pending, h) && w.cell.Some? && w.cell.value.channelCounter == 0
    ensures Turn(w, h, d).Some? && !Turn(w, h, d).value.1 && Agree(Turn(w, h, d).value.0, id)
  {
    hide FirstFree, IndexOf, PendingOk;
    var s, rest := w.cell.value, w.pending - {h};
    var r := Turn(w, h, d).value.0;
    var again := Msg(id, id, START_CALL, w.pending[h].timestamp + d.second, -1);
    SendOne(rest, w.next, again);
    assert r.pending == rest[w.next := again];
    SameCalls(w.pending, h, rest, s.channels);
    BackAgain(rest, s.channels, w.next, again);
  }

  lemma AdmittedAgrees(w: World, h: int, d: Draws, id: int)
    requires Agree(w, id) && IsStart(w.pending, h) && w.cell.Some? && w.cell.value.channelCounter > 0
    ensures Turn(w, h, d).Some? && !Turn(w, h, d).value.1 && Agree(Turn(w, h, d).value.0, id)
  {
    hide FirstFree, IndexOf, PendingOk;
    var s, rest := w.cell.value, w.pending - {h};
    AllocationTakesLowest(s);
    var p := ProcessEvent(w.pending[h], w.cell, d).value;
    var r := Turn(w, h, d).value.0;
    var again := Msg(id, id, START_CALL, w.pending[h].timestamp + d.second, -1);
    var ch := p.state.channels[0];
    var ending := Msg(id, id, END_CALL, w.pending[h].timestamp + d.first, ch);
    SendTwo(rest, w.next, ending, again);
    assert r.pending == rest[w.next := ending][w.next + 1 := again];
    SameCalls(w.pending, h, rest, s.channels);
    OneMoreCall(rest, s.channels, w.next, ending);
    BackAgain(rest[w.next := ending], p.state.channels, w.next + 1, again);
  }

  lemma StartCallAgrees(w: World, h: int, d: Draws, id: int)
    requires Agree(w, id) && IsStart(w.pending, h)
    ensures Turn(w, h, d).Some? && !Turn(w, h, d).value.1 && Agree(Turn(w, h, d).value.0, id)
  {
    hide Turn, CellOk, Addressed;
    assert w.cell.Some? by {
      StartedCell(w, h, id);
    }
    if w.cell.value.channelCounter == 0 {
      BlockedAgrees(w, h, d, id);
    } else {
      AdmittedAgrees(w, h, d, id);
    }
  }

  lemma StartedCell(w: World, h: int, id: int)
    requires Agree(w, id) && IsStart(w.pending, h)
    ensures w.cell.Some?
  {
  }

  lemma EndCallAgrees(w: World, h: int, d: Draws, id: int)
    requires Agree(w, id) && h in w.pending && w.pending[h].kind == END_CALL
    ensures Turn(w, h, d).Some? && Agree(Turn(w, h, d).value.0, id)
    ensures Turn(w, h, d).value.1 <==> Turn(w, h, d).value.0.cell.value.completeCalls == COMPLETE_CALLS
  {
    hide FirstFree, IndexOf, Distinct;
    var s, ch := w.cell.value, w.pending[h].channel;
    DeallocationRemoves(s, ch);
    var p := ProcessEvent(w.pending[h], w.cell, d).value;
    var r := Turn(w, h, d).value.0;
    assert r.pending == w.pending - {h};
    assert IsEnd(w.pending, h, ch);
    forall c | c in p.state.channels ensures exists g :: IsEnd(r.pending, g, c) {
      var g :| IsEnd(w.pending, g, c);
      assert IsEnd(r.pending, g, c);
    }
    var g :| IsStart(w.pending, g);
    assert IsStart(r.pending, g);
    Narrowed(w.pending, r.pending);
    forall g | g in r.pending ensures IsStart(r.pending, g)
      || (IsEnd(r.pending, g, r.pending[g].channel) && r.pending[g].channel in p.state.channels) {
      assert IsStart(w.pending, g) || IsEnd(w.pending, g, w.pending[g].channel);
      assert g != h;
    }
  }

  /** The calls in progress, when no START_CALL is pending. */
  ghost predicate CallsOk(p: map<int, Msg>, channels: seq<int>) {
    && (forall ch :: ch in channels ==> exists h :: IsEnd(p, h, ch))
    && (forall g, h, ch :: IsEnd(p, g, ch) && IsEnd(p, h, ch) ==> g == h)
    && (forall h :: h in p ==> IsEnd(p, h, p[h].channel) && p[h].channel in channels)
  }

  lemma Narrowed(p: map<int, Msg>, q: map<int, Msg>)
    requires forall h :: h in q ==> h in p && q[h] == p[h]
    ensures forall h :: IsStart(q, h) ==> IsStart(p, h)
    ensures forall h, ch :: IsEnd(q, h, ch) ==> IsEnd(p, h, ch)
  {
  }

  lemma SameCalls(p: map<int, Msg>, h: int, rest: map<int, Msg>, channels: seq<int>)
    requires PendingOk(p, channels) && IsStart(p, h) && rest == p - {h}
    ensures CallsOk(rest, channels)
  {
    Narrowed(p, rest);
    forall ch | ch in channels ensures exists g :: IsEnd(rest, g, ch) {
      var g :| IsEnd(p, g, ch);
      assert IsEnd(rest, g, ch);
    }
    forall g | g in rest ensures IsEnd(rest, g, rest[g].channel) && rest[g].channel in channels {
      assert IsStart(p, g) || IsEnd(p, g, p[g].channel);
      assert g != h;
    }
  }

  lemma OneMoreCall(p: map<int, Msg>, channels: seq<int>, h: int, m: Msg)
    requires CallsOk(p, channels) && h !in p && m.kind == END_CALL && m.channel !in channels
    ensures CallsOk(p[h := m], [m.channel] + channels)
  {
    var q := p[h := m];
    forall ch | ch in [m.channel] + channels ensures exists g :: IsEnd(q, g, ch) {
      if ch in channels {
        var g :| IsEnd(p, g, ch);
        assert IsEnd(q, g, ch);
      } else {
        assert IsEnd(q, h, ch);
      }
    }
    forall g, k, ch | IsEnd(q, g, ch) && IsEnd(q, k, ch) ensures g == k {
      assert g != h ==> IsEnd(p, g, ch) && p[g].channel in channels;
      assert k != h ==> IsEnd(p, k, ch) && p[k].channel in channels;
    }
    forall g | g in q ensures IsEnd(q, g, q[g].channel) && q[g].channel in [m.channel] + channels {
      assert g != h ==> IsEnd(p, g, p[g].channel) && p[g].channel in channels;
    }
  }

  lemma BackAgain(p: map<int, Msg>, channels: seq<int>, h: int, m: Msg)
    requires CallsOk(p, channels) && h !in p && m.kind == START_CALL
    ensures PendingOk(p[h := m], channels)
  {
    var q := p[h := m];
    assert IsStart(q, h);
    forall g | IsStart(q, g) ensures g == h {
      assert g != h ==> IsEnd(p, g, p[g].channel);
    }
    forall ch | ch in channels ensures exists g :: IsEnd(q, g, ch) {
      var g :| IsEnd(p, g, ch);
      assert IsEnd(q, g, ch);
    }
    forall g, k, ch | IsEnd(q, g, ch) && IsEnd(q, k, ch) ensures g == k {
      assert IsEnd(p, g, ch) && IsEnd(p, k, ch);
    }
    forall g | g in q ensures IsStart(q, g) || (IsEnd(q, g, q[g].channel) && q[g].channel in channels) {
      assert g != h ==> IsEnd(p, g, p[g].channel);
    }
  }

  /** A started call takes the lowest free channel and ends on that channel after its duration; without
      a free channel it is blocked.  The next call starts after the other random time.  No other
      pending event is touched. */
  lemma StartCallSchedules(w: World, h: int, d: Draws, id: int)
    requires Agree(w, id) && IsStart(w.pending, h)
    ensures Turn(w, h, d).Some?
    ensures var r := Turn(w, h, d).value.0; var s, now := w.cell.value, w.pending[h].timestamp;
      && (forall g :: g in w.pending && g != h ==> g in r.pending && r.pending[g] == w.pending[g])
      && (exists g :: IsStart(r.pending, g) && r.pending[g].timestamp == now + d.second)
      && r.cell.Some? && r.cell.value.lvt == now
      && (if |s.channels| == CHANNELS_PER_CELL
          then r.cell.value.blockedOnSetup == s.blockedOnSetup + 1 && r.cell.value.channels == s.channels
          else
            exists ch, g :: ch !in s.channels && (forall k :: 0 <= k < ch ==> k in s.channels)
              && r.cell.value.channels == [ch] + s.channels
              && IsEnd(r.pending, g, ch) && r.pending[g].timestamp == now + d.first)
  {
    hide FirstFree, IndexOf, PendingOk;
    var s, rest := w.cell.value, w.pending - {h};
    AllocationTakesLowest(s);
    var p, r := ProcessEvent(w.pending[h], w.cell, d).value, Turn(w, h, d).value.0;
    var again := Msg(id, id, START_CALL, w.pending[h].timestamp + d.second, -1);
    if s.channelCounter == 0 {
      SendOne(rest, w.next, again);
      assert IsStart(r.pending, w.next) && r.pending[w.next].timestamp == again.timestamp;
    } else {
      var ch := p.state.channels[0];
      var ending := Msg(id, id, END_CALL, w.pending[h].timestamp + d.first, ch);
      SendTwo(rest, w.next, ending, again);
      assert IsStart(r.pending, w.next + 1) && r.pending[w.next + 1].timestamp == again.timestamp;
      assert IsEnd(r.pending, w.next, ch) && r.pending[w.next].timestamp == ending.timestamp;
    }
  }

  /** An ended call gives back its own channel and no other; no other pending event is touched. */
  lemma EndCallFrees(w: World, h: int, d: Draws, id: int)
    requires Agree(w, id) && h in w.pending && w.pending[h].kind == 21
    ensures Turn(w, h, d).Some?
    ensures var r := Turn(w, h, d).value.0; var s, ch := w.cell.value, w.pending[h].channel;
      && r.pending == w.pending - {h}
      && r.cell.Some? && r.cell.value.lvt == w.pending[h].timestamp
      && r.cell.value.completeCalls == s.completeCalls + 1
      && ch in s.channels && |r.cell.value.channels| + 1 == |s.channels|
      && (forall c :: c in r.cell.value.channels <==> c in s.channels && c != ch)
  {
    hide FirstFree, IndexOf;
    DeallocationRemoves(w.cell.value, w.pending[h].channel);
    assert IsEnd(w.pending, h, w.pending[h].channel);
  }

  function Completed(w: World): nat {
    if w.cell.None? then 0 else w.cell.value.completeCalls
  }

  /** Whichever pending event is handled next: no abort is reached, the cell and its pending events
      agree again, an event is pending, and the loop ends exactly when the last call completes. */
  lemma TurnAgrees(w: World, h: int, d: Draws, id: int)
    requires Agree(w, id) && h in w.pending
    ensures Turn(w, h, d).Some? && Agree(Turn(w, h, d).value.0, id)
    ensures var (r, done) := Turn(w, h, d).value;
      && r.cell.Some? && r.pending != map[]
      && (done <==> w.pending[h].kind == END_CALL && r.cell.value.completeCalls == COMPLETE_CALLS)
      && Completed(r) <= Completed(w) + if w.pending[h].kind == END_CALL then 1 else 0
  {
    if w.cell.None? || w.pending[h].kind == INIT {
      InitAgrees(w, h, d, id);
    } else if IsStart(w.pending, h) {
      StartCallAgrees(w, h, d, id);
    } else {
      EndCallAgrees(w, h, d, id);
    }
  }

  // ---------- whole runs ----------

  /** The queue hands back the event at h. */
  datatype Pick = Pick(h: int, d: Draws)

  datatype Progress = Playing(w: World) | Finished(w: World) | Aborted | NoSuchEvent

  function Play(w: World, picks: seq<Pick>): Progress
    decreases |picks|
  {
    if picks == [] then Playing(w)
    else if picks[0].h !in w.pending then NoSuchEvent
    else match Turn(w, picks[0].h, picks[0].d)
      case None => Aborted
      case Some((r, done)) => if done then Finished(r) else Play(r, picks[1..])
  }

  /** Over every run from the first event, in whatever order events are handed back: no abort is
      reached, the cell and its pending events agree, the queue is never empty while the loop goes on,
      and the loop ends exactly when 15000 calls are complete. */
  lemma CellAgreement(id: int, unset: real, picks: seq<Pick>)
    ensures Play(Start(id, unset), picks) != Aborted
    ensures match Play(Start(id, unset), picks)
      case Playing(r) => Agree(r, id) && r.pending != map[] && Completed(r) < 15000
      case Finished(r) => Agree(r, id) && Completed(r) == 15000
      case _ => true
  {
    var w := Start(id, unset);
    assert 0 in w.pending && w.pending.Keys == {0};
    PlayAgrees(w, picks, id);
  }

  lemma {:induction false} PlayAgrees(w: World, picks: seq<Pick>, id: int)
    requires Agree(w, id) && w.pending != map[] && Completed(w) < COMPLETE_CALLS
    ensures Play(w, picks) != Aborted
    ensures match Play(w, picks)
      case Playing(r) => Agree(r, id) && r.pending != map[] && Completed(r) < COMPLETE_CALLS
      case Finished(r) => Agree(r, id) && Completed(r) == COMPLETE_CALLS
      case _ => true
    decreases |picks|
  {
    if picks != [] && picks[0].h in w.pending {
      TurnAgrees(w, picks[0].h, picks[0].d, id);
      var (r, done) := Turn(w, picks[0].h, picks[0].d).value;
      if !done {
        PlayAgrees(r, picks[1..], id);
      }
    }
  }
}
