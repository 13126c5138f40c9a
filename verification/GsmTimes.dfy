/**
 The random times of the simulation: what INIT and START_CALL of 2018-fibers/src/model.c draw from
 the generator of numerical.c, with the mean times of channel.c's recompute_ta.
 */
module GsmTimes {
  import opened Arithmetic
  import opened Common
  import N = Numerical
  import G = Gsm
  import P = GsmProgram
  import Q = CalendarQueue
  import C = GsmCell
  import opened Calendar
  import opened CalendarOps
  import opened CalendarResizing
  import opened CalendarRuns
  import opened GsmRuns

  const HOUR := 3600
  const DAY := 24 * HOUR
  const WEEK := 7 * DAY
  const TA := 0.16
  const TA_DURATION := 60.0

  /** The mean time between calls, by the hour and the day of the week. */
  function RecomputeTa(refTa: real, timeNow: real): real
    requires timeNow >= 0.0
  {
    var now := timeNow.Floor % WEEK;
    if now > 5 * DAY then refTa * 5.0
    else
      var hour := (now % DAY) as real / HOUR as real;
      if hour < 8.5 then refTa * 4.0
      else if hour < 13.0 then refTa * 0.8
      else if hour < 15.0 then refTa * 2.5
      else if hour < 19.0 then refTa * 2.0
      else if hour < 21.0 then refTa * 2.2
      else refTa * 4.5
  }

  /** recompute_ta never hands Expent a mean it exits on. */
  lemma TaIsPositive(refTa: real, timeNow: real)
    requires refTa > 0.0 && timeNow >= 0.0
    ensures RecomputeTa(refTa, timeNow) >= refTa * 0.8 > 0.0
  {
  }

  /** The parts of the week in the order of their mean times: weekday morning, afternoon, evening, lunch
      time, early morning and night, and the weekend; by the second. */
  function PartOfWeek(timeNow: real): (part: nat)
    ensures part <= 6
  {
    var now := timeNow.Floor % 604800;
    if now > 432000 then 6
    else
      var second := now % 86400;
      if second < 30600 then 4
      else if second < 46800 then 0
      else if second < 54000 then 3
      else if second < 68400 then 1
      else if second < 75600 then 2
      else 5
  }

  function Factor(part: nat): real
    requires part <= 6
  {
    [0.8, 2.0, 2.2, 2.5, 4.0, 4.5, 5.0][part]
  }

  /** The mean time between calls depends on the part of the week alone, the same every week; the order
      of the parts is that of their means, from 0.8 on weekday mornings to 5 at weekends. */
  lemma TaByPartOfWeek(refTa: real, t: real, u: real)
    requires refTa > 0.0 && t >= 0.0 && u >= 0.0
    ensures RecomputeTa(refTa, t) < RecomputeTa(refTa, u) <==> PartOfWeek(t) < PartOfWeek(u)
    ensures RecomputeTa(refTa, t) == refTa * Factor(PartOfWeek(t))
    ensures RecomputeTa(refTa, t + 604800.0) == RecomputeTa(refTa, t)
  {
    WeekLater(t);
    FactorAt(refTa, t);
    FactorAt(refTa, u);
    FactorAt(refTa, t + 604800.0);
    FactorsOrdered(PartOfWeek(t), PartOfWeek(u));
    hide RecomputeTa, PartOfWeek, Factor;
    var x, y := Factor(PartOfWeek(t)), Factor(PartOfWeek(u));
    MulSign(refTa, x - y);
    assert refTa * (x - y) == refTa * x - refTa * y;
  }

  lemma WeekLater(t: real)
    requires t >= 0.0
    ensures PartOfWeek(t + 604800.0) == PartOfWeek(t)
  {
    assert (t + 604800.0).Floor == t.Floor + 604800;
  }

  lemma FactorsOrdered(i: nat, j: nat)
    requires i <= 6 && j <= 6
    ensures Factor(i) < Factor(j) <==> i < j
  {
  }

  lemma FactorAt(refTa: real, t: real)
    requires t >= 0.0
    ensures RecomputeTa(refTa, t) == refTa * Factor(PartOfWeek(t))
  {
  }

  // ---------- what an event draws ----------

  ghost predicate LogNegative(log: real -> real) {
    forall x :: 0.0 < x < 1.0 ==> log(x) < 0.0
  }

  /** What random() would answer if it were called for the first or the second draw of an event. */
  datatype Entropy = Entropy(first: nat, second: nat)

  predicate Bounded(e: Entropy) {
    e.first < N.TWO64 && e.second < N.TWO64
  }

  /** The value of an exponential draw that leaves the generator at `seed`. */
  function Exponential(mean: real, seed: nat, log: real -> real): (r: real)
    requires mean > 0.0 && LogNegative(log)
    ensures r > 0.0
  {
    N.ValueBounds(seed);
    N.ExponentialSign(mean, log(1.0 - N.Value(seed)));
    -mean * log(1.0 - N.Value(seed))
  }

  /** The duration of a call that is admitted and the time to the next call, for a call at time `now`,
      and the seed afterwards. */
  function CallDraws(now: real, admitted: bool, seed: nat, e: Entropy, log: real -> real): (r: (G.Draws, nat))
    requires now >= 0.0 && LogNegative(log)
    ensures G.Forward(r.0) && r.0.second > 0.0 && if admitted then r.0.first > 0.0 else r.0.first == 0.0
  {
    TaIsPositive(TA, now);
    var mean := RecomputeTa(TA, now);
    var s1 := N.NextSeed(seed, e.first);
    if !admitted then (G.Draws(0.0, Exponential(mean, s1, log)), s1)
    else
      var s2 := N.NextSeed(s1, e.second);
      (G.Draws(Exponential(TA_DURATION, s1, log), Exponential(mean, s2, log)), s2)
  }

  /** How many draws an event takes from the generator: INIT one, for a time below 20; a START_CALL two if it is
      admitted and one if not; an END_CALL none. */
  lemma DrawsByKind(m: G.Msg, cell: Option<G.State>, seed: nat, e: Entropy, log: real -> real)
    requires Priority(m) >= 0.0 && LogNegative(log)
    ensures var (d, after) := EventDraws(m, cell, seed, e, log);
      if m.kind == G.INIT then
        after == N.Seeds(seed, [e.first]) && d == G.Draws(20.0 * N.Value(after), 0.0) && 0.0 < d.first < 20.0
      else if m.kind != G.START_CALL then
        after == N.Seeds(seed, []) && d == G.Draws(0.0, 0.0)
      else if cell.Some? && cell.value.channelCounter > 0 then
        after == N.Seeds(seed, [e.first, e.second]) && d.first > 0.0 && d.second > 0.0
      else
        after == N.Seeds(seed, [e.first]) && d.first == 0.0 && d.second > 0.0
    ensures var (d, after) := EventDraws(m, cell, seed, e, log);
      m.kind == G.START_CALL && log(1.0 - N.Value(after)) == -1.0 ==> d.second == RecomputeTa(0.16, m.timestamp)
  {
    OneDraw(seed, e);
    TwoDraws(seed, e);
    N.ValueBounds(N.NextSeed(seed, e.first));
    if m.kind == G.START_CALL {
      GapMean(m.timestamp, m.timestamp, cell.Some? && cell.value.channelCounter > 0, seed, e, log);
    }
    hide RecomputeTa, N.NextSeed, N.Value, Exponential;
  }

  /** The duration of an admitted call is drawn with mean 60, at every time of day. */
  lemma DurationMean(now: real, later: real, seed: nat, e: Entropy, log: real -> real)
    requires now >= 0.0 && later >= 0.0 && LogNegative(log)
    ensures CallDraws(now, true, seed, e, log).0.first == CallDraws(later, true, seed, e, log).0.first
    ensures log(1.0 - N.Value(N.Seeds(seed, [e.first]))) == -1.0 ==>
      CallDraws(now, true, seed, e, log).0.first == 60.0
  {
    OneDraw(seed, e);
    MeanIsDrawn(TA_DURATION, N.NextSeed(seed, e.first), log);
    hide RecomputeTa, N.NextSeed, N.Value, Exponential;
  }

  /** The time to the next call is drawn with the mean of the hour, whether or not the call is admitted. */
  lemma GapMean(now: real, later: real, admitted: bool, seed: nat, e: Entropy, log: real -> real)
    requires now >= 0.0 && later >= 0.0 && LogNegative(log)
    ensures CallDraws(now, admitted, seed, e, log).0.second * RecomputeTa(TA, later)
      == CallDraws(later, admitted, seed, e, log).0.second * RecomputeTa(TA, now)
    ensures log(1.0 - N.Value(N.Seeds(seed, if admitted then [e.first, e.second] else [e.first]))) == -1.0 ==>
      CallDraws(now, admitted, seed, e, log).0.second == RecomputeTa(0.16, now)
  {
    OneDraw(seed, e);
    TwoDraws(seed, e);
    TaIsPositive(TA, now);
    TaIsPositive(TA, later);
    var s1 := N.NextSeed(seed, e.first);
    var s := if admitted then N.NextSeed(s1, e.second) else s1;
    MeansScale(RecomputeTa(TA, now), RecomputeTa(TA, later), s, log);
    MeanIsDrawn(RecomputeTa(TA, now), s, log);
    hide RecomputeTa, N.NextSeed, N.Value, Exponential;
  }

  lemma OneDraw(seed: nat, e: Entropy)
    ensures N.Seeds(seed, [e.first]) == N.NextSeed(seed, e.first)
  {
    hide N.NextSeed;
    assert [e.first][1..] == [];
  }

  lemma TwoDraws(seed: nat, e: Entropy)
    ensures N.Seeds(seed, [e.first, e.second]) == N.NextSeed(N.NextSeed(seed, e.first), e.second)
  {
    hide N.NextSeed;
    assert [e.first, e.second][1..] == [e.second] && [e.second][1..] == [];
    assert N.Seeds(N.NextSeed(seed, e.first), [e.second]) == N.NextSeed(N.NextSeed(seed, e.first), e.second);
  }

  lemma MeansScale(a: real, b: real, seed: nat, log: real -> real)
    requires a > 0.0 && b > 0.0 && LogNegative(log)
    ensures Exponential(a, seed, log) * b == Exponential(b, seed, log) * a
  {
    hide N.Value;
    var l := log(1.0 - N.Value(seed));
    assert -a * l * b == -b * l * a;
  }

  lemma MeanIsDrawn(mean: real, seed: nat, log: real -> real)
    requires mean > 0.0 && LogNegative(log)
    ensures log(1.0 - N.Value(seed)) == -1.0 ==> Exponential(mean, seed, log) == mean
  {
    hide N.Value;
  }

  /** What an event draws at its own time, and the seed afterwards. */
  function EventDraws(m: G.Msg, cell: Option<G.State>, seed: nat, e: Entropy, log: real -> real): (r: (G.Draws, nat))
    requires Priority(m) >= 0.0 && LogNegative(log)
    ensures G.Forward(r.0)
  {
    N.ValueBounds(N.NextSeed(seed, e.first));
    if m.kind == G.INIT then (G.Draws(20.0 * N.Value(N.NextSeed(seed, e.first)), 0.0), N.NextSeed(seed, e.first))
    else if m.kind == G.START_CALL then
      CallDraws(m.timestamp, cell.Some? && cell.value.channelCounter > 0, seed, e, log)
    else (G.Draws(0.0, 0.0), seed)
  }

  method Draw(g: N.Generator, mean: real, entropy: nat, log: real -> real) returns (r: real)
    requires g.masterSeed < N.TWO64 && entropy < N.TWO64 && mean > 0.0 && LogNegative(log)
    modifies g
    ensures g.masterSeed == N.NextSeed(old(g.masterSeed), entropy) < N.TWO64
    ensures r == Exponential(mean, g.masterSeed, log)
  {
    hide N.NextSeed, N.Value;
    var x := g.Expent(mean, entropy, log);
    r := x.value;
  }

  /** The time INIT draws from the generator. */
  method InitTimes(g: N.Generator, entropy: nat) returns (d: G.Draws)
    requires g.masterSeed < N.TWO64 && entropy < N.TWO64
    modifies g
    ensures g.masterSeed == N.NextSeed(old(g.masterSeed), entropy) < N.TWO64
    ensures d == G.Draws(20.0 * N.Value(g.masterSeed), 0.0) && 0.0 < d.first < 20.0
  {
    hide N.NextSeed, N.Value;
    var r := g.Random(entropy);
    d := G.Draws(20.0 * r, 0.0);
  }

  /** The times a START_CALL draws from the generator: the duration only if it is admitted. */
  method CallTimes(g: N.Generator, now: real, admitted: bool, e: Entropy, log: real -> real) returns (d: G.Draws)
    requires g.masterSeed < N.TWO64 && Bounded(e) && now >= 0.0 && LogNegative(log)
    modifies g
    ensures g.masterSeed < N.TWO64
    ensures (d, g.masterSeed) == CallDraws(now, admitted, old(g.masterSeed), e, log)
    ensures d.second > 0.0 && if admitted then d.first > 0.0 else d.first == 0.0
  {
    hide N.NextSeed, RecomputeTa, Exponential;
    TaIsPositive(TA, now);
    if admitted {
      var duration := Draw(g, TA_DURATION, e.first, log);
      var gap := Draw(g, RecomputeTa(TA, now), e.second, log);
      d := G.Draws(duration, gap);
    } else {
      var gap := Draw(g, RecomputeTa(TA, now), e.first, log);
      d := G.Draws(0.0, gap);
    }
  }

  /** The times any event draws from the generator. */
  method EventTimes(g: N.Generator, m: G.Msg, admitted: bool, e: Entropy, log: real -> real,
          ghost cell: Option<G.State>)
    returns (d: G.Draws)
    requires g.masterSeed < N.TWO64 && Bounded(e) && Priority(m) >= 0.0 && LogNegative(log)
    requires admitted == (cell.Some? && cell.value.channelCounter > 0)
    modifies g
    ensures g.masterSeed < N.TWO64
    ensures (d, g.masterSeed) == EventDraws(m, cell, old(g.masterSeed), e, log)
  {
    if m.kind == G.INIT {
      d := InitTimes(g, e.first);
    } else if m.kind == G.START_CALL {
      d := CallTimes(g, m.timestamp, admitted, e, log);
    } else {
      d := G.Draws(0.0, 0.0);
    }
  }

  // ---------- the loop ----------

  /** What the event that the next get hands back draws; a get that fails draws nothing. */
  ghost function TurnDraws(w: G.World, c: Cal, id: int, seed: nat, e: Entropy, log: real -> real): (r: (G.Draws, nat))
    requires P.CanTurn(w, c, id) && LogNegative(log)
    ensures G.Forward(r.0)
  {
    if Deq(c).BadWidth? then (G.Draws(0.0, 0.0), seed)
    else
      DeqFiled(w.pending, c);
      EventDraws(w.pending[Deq(c).value.1.value.payload], w.cell, seed, e, log)
  }

  lemma OutcomeCanTurn(w: G.World, c: Cal, d: G.Draws, id: int)
    requires P.CanTurn(w, c, id) && G.Forward(d) && P.TurnOutcome(w, c, d, id).Some?
    ensures var o := P.TurnOutcome(w, c, d, id).value; P.CanTurn(o.0, o.1, id)
  {
    hide G.Agree, G.Turn, Shape, TurnOps, Survives, Final, Deq, LoopOps;
    LoopSplit(w, c, [d], id);
  }

  /** What all the turns of the loop draw, each at the time of its event. */
  ghost function LoopDraws(w: G.World, c: Cal, id: int, seed: nat, es: seq<Entropy>,
          log: real -> real): (ds: seq<G.Draws>)
    requires P.CanTurn(w, c, id) && LogNegative(log)
    ensures |ds| <= |es| && forall d :: d in ds ==> G.Forward(d)
    decreases |es|
  {
    if es == [] then [] else
      var (d, seed1) := TurnDraws(w, c, id, seed, es[0], log);
      match P.TurnOutcome(w, c, d, id)
      case None => [d]
      case Some((r, c1, done)) =>
        OutcomeCanTurn(w, c, d, id);
        if done then [d] else [d] + LoopDraws(r, c1, id, seed1, es[1..], log)
  }

  lemma LoopDrawsStep(w: G.World, c: Cal, id: int, seed: nat, es: seq<Entropy>, log: real -> real)
    requires P.CanTurn(w, c, id) && LogNegative(log) && es != []
    ensures var (d, seed1) := TurnDraws(w, c, id, seed, es[0], log); var ds := LoopDraws(w, c, id, seed, es, log);
      && ds != [] && ds[0] == d
      && (Deq(c).Ok? ==>
        && Deq(c).value.1.Some? && Deq(c).value.1.value.payload in w.pending
        && Priority(w.pending[Deq(c).value.1.value.payload]) >= 0.0
        && (d, seed1) == EventDraws(w.pending[Deq(c).value.1.value.payload], w.cell, seed, es[0], log))
      && match P.TurnOutcome(w, c, d, id)
         case None => ds[1..] == []
         case Some(o) =>
           P.CanTurn(o.0, o.1, id) && ds[1..] == if o.2 then [] else LoopDraws(o.0, o.1, id, seed1, es[1..], log)
  {
    if Deq(c).Ok? {
      TurnEvent(w, c, id);
    }
    hide P.CanTurn, P.TurnOutcome, EventDraws;
    var (d, seed1) := TurnDraws(w, c, id, seed, es[0], log);
    if P.TurnOutcome(w, c, d, id).Some? {
      OutcomeCanTurn(w, c, d, id);
    }
  }

  method Admits(s: P.Simulation) returns (free: bool)
    requires s.Valid()
    ensures free == (s.Cell().Some? && s.Cell().value.channelCounter > 0)
  {
    free := s.state != null && s.state.channelCounter > 0;
  }

  /** The draws of the event just taken from the queue, which leave the simulation alone. */
  method DrawTimes(s: P.Simulation, g: N.Generator, h: int, id: int, e: Entropy, log: real -> real, ghost w: G.World,
          ghost c: Cal)
    returns (d: G.Draws)
    requires s.Valid() && s.World() == w && P.CanTurn(w, c, id)
    requires Deq(c).Ok? && Deq(c).value.1.Some? && h == Deq(c).value.1.value.payload
    requires g.masterSeed < N.TWO64 && Bounded(e) && LogNegative(log)
    modifies g
    ensures s.Valid() && s.World() == w && s.q.Abs() == old(s.q.Abs()) && g.masterSeed < N.TWO64
    ensures (d, g.masterSeed) == TurnDraws(w, c, id, old(g.masterSeed), e, log)
  {
    hide G.Turn, TurnOps, Filed, G.Agree, Survives, Final, Deq, Priority, Layout, Q.CalQueue.Abs, C.Cell.Abs,
      C.Cell.Linked, EventDraws;
    TurnEvent(w, c, id);
    var admitted := Admits(s);
    d := EventTimes(g, s.messages[h], admitted, e, log, w.cell);
  }

  /** One turn of the loop that draws at the time of its event. */
  method TimedTurn(s: P.Simulation, g: N.Generator, id: int, e: Entropy, log: real -> real)
    returns (exit: Option<P.Exit>)
    requires s.Valid() && P.CanTurn(s.World(), s.q.Abs(), id)
    requires g.masterSeed < N.TWO64 && Bounded(e) && LogNegative(log)
    modifies g, s`messages, s`next, s`state, s.q, s.q.calq, s.CellRepr()
    ensures forall o :: o in s.CellRepr() ==> o in old(s.CellRepr()) || fresh(o)
    ensures var (d, seed) := TurnDraws(old(s.World()), old(s.q.Abs()), id, old(g.masterSeed), e, log);
      && g.masterSeed == seed < N.TWO64
      && match P.TurnOutcome(old(s.World()), old(s.q.Abs()), d, id)
         case None => exit == Some(P.WidthUnusable)
         case Some((w, c, done)) =>
           s.Valid() && s.World() == w && s.q.Abs() == c && exit == if done then Some(P.CallsComplete) else None
  {
    hide G.Turn, TurnOps, Filed, G.Agree, Survives, Final, Deq, Priority, Layout, Q.CalQueue.Abs, C.Cell.Abs,
      C.Cell.Linked, EventDraws, P.TurnOutcome;
    ghost var w, c := s.World(), s.q.Abs();
    var ok, payload := s.q.Get();
    if !ok {
      NoOutcome(w, c, id, g.masterSeed, e, log);
      return Some(P.WidthUnusable);
    }
    DeqFiled(w.pending, c);
    var d := DrawTimes(s, g, payload.value, id, e, log, w, c);
    exit := s.Handle(payload, id, d, w, c);
  }

  lemma NoOutcome(w: G.World, c: Cal, id: int, seed: nat, e: Entropy, log: real -> real)
    requires P.CanTurn(w, c, id) && Deq(c).BadWidth? && LogNegative(log)
    ensures var r := TurnDraws(w, c, id, seed, e, log); P.TurnOutcome(w, c, r.0, id).None? && r.1 == seed
  {
  }

  lemma TurnEvent(w: G.World, c: Cal, id: int)
    requires P.CanTurn(w, c, id) && Deq(c).Ok?
    ensures var e := Deq(c).value.1;
      e.Some? && e.value.payload in w.pending && Priority(w.pending[e.value.payload]) >= 0.0
  {
    hide Deq, Priority, Shape, Nodes, Items;
    DeqFiled(w.pending, c);
  }

  /** The times of the whole program, up to the first put of its queue. */
  ghost function ProgramDraws(id: int, unset: real, seed: nat, es: seq<Entropy>, log: real -> real): (ds: seq<G.Draws>)
    requires LogNegative(log)
    ensures |ds| <= |es| && forall d :: d in ds ==> G.Forward(d)
  {
    if Put(Init(), Node(0.0, 0)).BadWidth? then [] else
      StartFiled(id, unset);
      LoopDraws(G.Start(id, unset), Put(Init(), Node(0.0, 0)).value, id, seed, es, log)
  }

  /** Before turn i, with the draws of the rest still to come. */
  ghost predicate TimedInv(id: int, unset: real, ds: seq<G.Draws>, w: G.World, c: Cal, i: nat, seed: nat,
          es: seq<Entropy>, log: real -> real)
    requires LogNegative(log)
  {
    P.LoopInv(id, unset, ds, w, c, i) && i <= |es| && ds[i..] == LoopDraws(w, c, id, seed, es[i..], log)
  }

  lemma TimedStep(id: int, unset: real, ds: seq<G.Draws>, w: G.World, c: Cal, i: nat, seed: nat, es: seq<Entropy>,
          log: real -> real)
    requires LogNegative(log) && TimedInv(id, unset, ds, w, c, i, seed, es, log) && i < |es|
    ensures P.CanTurn(w, c, id)
    ensures var (d, seed1) := TurnDraws(w, c, id, seed, es[i], log); var o := P.TurnOutcome(w, c, d, id);
      && (o.None? ==> !Survives(Init(), ProgramOps(id, unset, ds)))
      && (o.Some? && o.value.2 ==>
        P.LoopDone(id, unset, ds, o.value.0, o.value.1) && G.Completed(o.value.0) == G.COMPLETE_CALLS)
      && (o.Some? && !o.value.2 ==> TimedInv(id, unset, ds, o.value.0, o.value.1, i + 1, seed1, es, log))
  {
    hide P.CanTurn, P.Rest, P.TurnOutcome, TurnDraws, LoopDraws, Survives, ProgramOps, P.LoopDone, G.Completed;
    LoopDrawsStep(w, c, id, seed, es[i..], log);
    P.LoopStep(id, unset, ds, w, c, i);
    assert es[i..][1..] == es[i + 1..] && ds[i..][1..] == ds[i + 1..] && ds[i..][0] == ds[i];
  }

  lemma TimedStart(id: int, unset: real, seed: nat, es: seq<Entropy>, log: real -> real)
    requires LogNegative(log)
    ensures var r := Put(Init(), Node(0.0, 0)); var ds := ProgramDraws(id, unset, seed, es, log);
      if r.BadWidth? then !Survives(Init(), ProgramOps(id, unset, ds))
      else TimedInv(id, unset, ds, G.Start(id, unset), r.value, 0, seed, es, log)
  {
    hide Put, Survives, ProgramOps, LoopDraws, P.LoopInv, Init;
    var ds := ProgramDraws(id, unset, seed, es, log);
    P.ProgramSplit(id, unset, ds);
    assert es[0..] == es && ds[0..] == ds;
  }

  lemma TimedEnd(id: int, unset: real, ds: seq<G.Draws>, w: G.World, c: Cal, seed: nat, es: seq<Entropy>,
          log: real -> real)
    requires LogNegative(log) && TimedInv(id, unset, ds, w, c, |es|, seed, es, log)
    ensures P.LoopDone(id, unset, ds, w, c) && G.Completed(w) < G.COMPLETE_CALLS
  {
    hide P.LoopDone, P.CanTurn, P.Rest, G.Completed;
    assert es[|es|..] == [] && |ds[|es|..]| == 0;
    P.LoopEnds(id, unset, ds, w, c);
  }

  /** How the loop has ended: never with an empty queue, an event of another fiber or an abort; with an
      unusable width exactly when its queue operations do not survive; with all calls complete exactly when it
      says so. */
  ghost predicate Ended(s: P.Simulation, exit: P.Exit, id: int, unset: real, ds: seq<G.Draws>)
    requires forall d :: d in ds ==> G.Forward(d)
    reads s, s.q, s.q.calq, s.state, s.CellRepr()
  {
    && exit in {P.CallsComplete, P.TimesUsed, P.WidthUnusable}
    && (exit == P.WidthUnusable <==> !Survives(Init(), ProgramOps(id, unset, ds)))
    && (exit != P.WidthUnusable ==>
      && s.Valid() && s.q.Abs() == Final(Init(), ProgramOps(id, unset, ds)) && G.Agree(s.World(), id)
      && (exit == P.CallsComplete <==> G.Completed(s.World()) == G.COMPLETE_CALLS))
  }

  lemma EndsWell(s: P.Simulation, exit: P.Exit, id: int, unset: real, ds: seq<G.Draws>)
    requires forall d :: d in ds ==> G.Forward(d)
    requires exit in {P.CallsComplete, P.TimesUsed, P.WidthUnusable}
    requires exit == P.WidthUnusable ==> !Survives(Init(), ProgramOps(id, unset, ds))
    requires exit != P.WidthUnusable ==>
      && s.Valid() && P.LoopDone(id, unset, ds, s.World(), s.q.Abs())
      && (exit == P.CallsComplete <==> G.Completed(s.World()) == G.COMPLETE_CALLS)
    ensures Ended(s, exit, id, unset, ds)
  {
    hide Survives, ProgramOps, Init, G.Completed, Q.CalQueue.Abs, C.Cell.Abs, C.Cell.Linked, G.Agree;
  }

  /** The program of one fiber with times from its generator, each drawn in the turn of the event that
      uses it and for the time of that event. */
  method Simulate(id: int, unset: real, g: N.Generator, es: seq<Entropy>, log: real -> real)
    returns (s: P.Simulation, exit: P.Exit)
    requires g.masterSeed < N.TWO64 && LogNegative(log) && forall e :: e in es ==> Bounded(e)
    modifies g
    ensures Ended(s, exit, id, unset, ProgramDraws(id, unset, old(g.masterSeed), es, log))
  {
    hide Ended, TimedInv, P.CanTurn, P.TurnOutcome, TurnDraws, ProgramDraws, G.Agree, Survives, Final, Put, ProgramOps,
      Init, P.LoopDone,
      G.Completed, Settled, Q.CalQueue.Abs, C.Cell.Abs, C.Cell.Linked;
    ghost var ds := ProgramDraws(id, unset, g.masterSeed, es, log);
    TimedStart(id, unset, g.masterSeed, es, log);
    s := new P.Simulation();
    var ok := s.Send(0.0, G.Msg(id, id, G.INIT, unset, 0));
    if !ok {
      exit := P.WidthUnusable;
      EndsWell(s, exit, id, unset, ds);
      return;
    }
    var i := 0;
    while i < |es|
      invariant 0 <= i <= |es| && s.Valid() && fresh(s.CellRepr())
      invariant g.masterSeed < N.TWO64 && TimedInv(id, unset, ds, s.World(), s.q.Abs(), i, g.masterSeed, es, log)
    {
      TimedStep(id, unset, ds, s.World(), s.q.Abs(), i, g.masterSeed, es, log);
      var end := TimedTurn(s, g, id, es[i], log);
      if end.Some? {
        exit := end.value;
        EndsWell(s, exit, id, unset, ds);
        return;
      }
      i := i + 1;
    }
    TimedEnd(id, unset, ds, s.World(), s.q.Abs(), g.masterSeed, es, log);
    exit := P.TimesUsed;
    EndsWell(s, exit, id, unset, ds);
  }
}
