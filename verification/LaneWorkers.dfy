/** How many workers each lane of background work gets: a demand from the load, damped over time. */
module LaneWorkers {
  import opened Prelude

  datatype Lane = Visible | Stage | MontageTile | Histogram | Prefetch | Profile | Roi | Pixel

  /** What the scheduler and the pressure model say at one decision. */
  datatype Load = Load(
    interactive: bool, visibleBusy: bool, montageBusy: bool, stageBusy: bool, stageReadyOrInFlight: bool,
    resultBacklog: int, evidenceBlocking: bool, memoryHigh: bool, tileResultHigh: bool, cpuHeadroom: real)

  /** The two knobs of the damping. */
  datatype Tuning = Tuning(step: int, intervalMs: real)

  /** What is remembered of one lane: its target, when it last moved, and whether it was ever decided. */
  datatype Damper = Damper(target: int, lastMs: real, decided: bool)

  datatype Decision = Decision(target: int, minWorkers: int, maxWorkers: int)

  // ---------------------------------------------------------------- demand

  function MaxWorkers(workers: int): int { Max(1, workers) }

  predicate Parked(lane: Lane, load: Load) {
    match lane
    case Prefetch => load.interactive || load.visibleBusy || load.montageBusy
    case Histogram => !load.evidenceBlocking && (load.visibleBusy || load.montageBusy || load.stageBusy)
    case Profile => load.interactive || load.visibleBusy || load.montageBusy || load.stageBusy
    case Roi => load.interactive || load.visibleBusy || load.montageBusy || load.stageBusy
    case Pixel => load.interactive || load.visibleBusy || load.montageBusy || load.stageBusy
    case _ => false
  }

  function MontageDemand(desired: int, target: int, step: int, load: Load): int {
    var a := if load.interactive then Min(desired, 2) else desired;
    var b := if !load.stageReadyOrInFlight && load.stageBusy then Min(a, 2) else a;
    if load.resultBacklog > Max(4, b * 2) then Min(b, Max(1, b - 1))
    else if load.tileResultHigh then Min(b, Max(1, target - step))
    else b
  }

  /** What the load asks for before any bound or damping. */
  function Desired(lane: Lane, load: Load, workers: int, target: int, step: int): int {
    var base := if load.memoryHigh then Min(MaxWorkers(workers), 1) else MaxWorkers(workers);
    var shaped :=
      if lane.MontageTile? then MontageDemand(base, target, step, load)
      else if Parked(lane, load) then 0
      else if lane.Histogram? && load.evidenceBlocking then Min(base, 1)
      else base;
    if shaped > 0 && load.cpuHeadroom < 0.15 && !lane.Visible? && !lane.Stage?
    then Min(shaped, Max(1, target - 1)) else shaped
  }

  function MinWorkers(lane: Lane, load: Load): int { if Parked(lane, load) then 0 else 1 }

  function Demand(lane: Lane, load: Load, workers: int, target: int, step: int): int {
    Clamp(Desired(lane, load, workers, target, step), MinWorkers(lane, load), MaxWorkers(workers))
  }

  /** A lane is asked for nothing exactly when it is parked; otherwise for one worker to its maximum. */
  lemma DemandIsBounded(lane: Lane, load: Load, workers: int, target: int, step: int)
    ensures MinWorkers(lane, load) <= Demand(lane, load, workers, target, step) <= MaxWorkers(workers)
    ensures Demand(lane, load, workers, target, step) == 0 <==> Parked(lane, load)
  {
  }

  /** The caps a load puts on a lane that is not parked, a backlog of results apart. */
  predicate Allows(lane: Lane, load: Load, target: int, step: int, n: int) {
    && (load.memoryHigh ==> n <= 1)
    && (lane.MontageTile? && load.interactive ==> n <= 2)
    && (lane.MontageTile? && load.stageBusy && !load.stageReadyOrInFlight ==> n <= 2)
    && (lane.MontageTile? && load.tileResultHigh ==> n <= Max(1, target - step))
    && (lane.Histogram? && load.evidenceBlocking ==> n <= 1)
    && (load.cpuHeadroom < 0.15 && !lane.Visible? && !lane.Stage? ==> n <= Max(1, target - 1))
  }

  /** Without a backlog of results the demand is the most workers that every cap allows. */
  lemma DemandIsTheMostAllowed(lane: Lane, load: Load, workers: int, target: int, step: int, n: int)
    requires !Parked(lane, load) && (lane.MontageTile? ==> load.resultBacklog <= 4)
    requires 1 <= n <= MaxWorkers(workers)
    ensures var d := Demand(lane, load, workers, target, step);
            Allows(lane, load, target, step, d) && (Allows(lane, load, target, step, n) ==> n <= d)
  {
  }

  lemma LowHeadroomCaps(load: Load, workers: int, target: int, step: int)
    ensures var demand := Demand(MontageTile, load.(cpuHeadroom := 1.0), workers, target, step);
            Demand(MontageTile, load, workers, target, step) ==
            if load.cpuHeadroom < 0.15 then Min(demand, Max(1, target - 1)) else demand
  {
  }

  lemma DemandWithHeadroom(load: Load, workers: int, target: int, step: int)
    requires load.cpuHeadroom >= 0.15
    ensures Demand(MontageTile, load, workers, target, step) ==
            MontageDemand(if load.memoryHigh then 1 else MaxWorkers(workers), target, step, load)
  {
  }

  /** A backlog of results counts from beyond four, and beyond twice the workers the lane would have without it or any
      tile-result pressure: it then takes one of those off in place of that pressure. Low headroom caps what is left. */
  lemma BacklogTakesOneOff(load: Load, workers: int, target: int, step: int)
    ensures var free := load.(resultBacklog := 0, cpuHeadroom := 1.0);
            var calm := Demand(MontageTile, free.(tileResultHigh := false), workers, target, step);
            var before := if load.resultBacklog > 4 && load.resultBacklog > 2 * calm then Max(1, calm - 1)
                          else Demand(MontageTile, free, workers, target, step);
            Demand(MontageTile, load, workers, target, step) ==
            if load.cpuHeadroom < 0.15 then Min(before, Max(1, target - 1)) else before
  {
    var free := load.(resultBacklog := 0, cpuHeadroom := 1.0);
    LowHeadroomCaps(load, workers, target, step);
    DemandWithHeadroom(load.(cpuHeadroom := 1.0), workers, target, step);
    DemandWithHeadroom(free, workers, target, step);
    DemandWithHeadroom(free.(tileResultHigh := false), workers, target, step);
  }

  /** Who waits for whom: the lanes the user sees never do, prefetching waits for interaction and visible rendering,
      inspection for the stage besides, and histograms for all rendering unless the first picture waits for them. */
  lemma WhoWaits(lane: Lane, load: Load, workers: int, target: int, step: int)
    ensures var seen, rendering := load.visibleBusy || load.montageBusy,
                                   load.visibleBusy || load.montageBusy || load.stageBusy;
            Demand(lane, load, workers, target, step) == 0 <==>
              (lane.Prefetch? && (load.interactive || seen))
              || ((lane.Profile? || lane.Roi? || lane.Pixel?) && (load.interactive || rendering))
              || (lane.Histogram? && rendering && !load.evidenceBlocking)
  {
  }

  // ---------------------------------------------------------------- damping

  function Damped(d: Damper, t: Tuning, demand: int, nowMs: real): Damper {
    var desired := Max(0, demand);
    if !d.decided then Damper(desired, nowMs, false)
    else if desired == 0 then Damper(0, nowMs, true)
    else
      var current := Max(0, d.target);
      if current == 0 then Damper(Min(desired, t.step), nowMs, true)
      else if nowMs - d.lastMs < t.intervalMs then d
      else if desired < current then Damper(Max(desired, current - t.step), nowMs, true)
      else if desired > current then Damper(Min(desired, current + t.step), nowMs, true)
      else Damper(current, nowMs, true)
  }

  /** Parking and unparking are immediate; any other move is at most one step, and only an interval after the last. */
  lemma DampingIsFair(d: Damper, t: Tuning, demand: int, nowMs: real)
    requires t.step >= 1 && demand >= 0
    ensures var r := Damped(d, t, demand, nowMs);
            && (r.target == 0 <==> demand == 0)
            && (!d.decided ==> r.target == demand)
            && (d.decided && d.target > 0 && demand > 0 && r.target != d.target ==>
                  nowMs - d.lastMs >= t.intervalMs && r.lastMs == nowMs && -t.step <= r.target - d.target <= t.step)
            && (d.decided && d.target > 0 && demand > 0 ==>
                  Min(d.target, demand) <= r.target <= Max(d.target, demand))
  {
  }

  // ---------------------------------------------------------------- reaching a constant demand

  /** Where `k` full steps from `from` towards `to` lead. */
  function Approach(from: int, to: int, reach: int): int {
    if from <= to then Min(to, from + reach) else Max(to, from - reach)
  }

  /** `k` decisions with one demand, each an interval after the other. */
  function Spaced(d: Damper, t: Tuning, demand: int, times: seq<real>): Damper
    decreases |times|
  {
    if times == [] then d else Spaced(Damped(d, t, demand, times[0]).(decided := true), t, demand, times[1..])
  }

  predicate WellSpaced(t: Tuning, lastMs: real, times: seq<real>)
    decreases |times|
  {
    times == [] || (times[0] - lastMs >= t.intervalMs && WellSpaced(t, times[0], times[1..]))
  }

  /** Under constant demand a decided lane moves straight towards it, one step an interval. */
  lemma {:induction false} ConstantDemand(d: Damper, t: Tuning, demand: int, times: seq<real>)
    requires d.decided && t.step >= 1 && demand >= 1 && d.target >= 0 && WellSpaced(t, d.lastMs, times)
    ensures Spaced(d, t, demand, times).target == Approach(d.target, demand, |times| * t.step)
    ensures |times| > 0 ==> Spaced(d, t, demand, times).target >= 1
    decreases |times|
  {
    if times != [] {
      var next := Damped(d, t, demand, times[0]).(decided := true);
      assert next.lastMs == times[0];
      assert next.target == Approach(d.target, demand, t.step);
      ConstantDemand(next, t, demand, times[1..]);
      assert (|times| - 1) * t.step >= 0;
      assert |times| * t.step == t.step + (|times| - 1) * t.step;
    }
  }

  function Distance(a: int, b: int): nat { if a <= b then b - a else a - b }

  lemma EnoughSteps(n: nat, s: int, k: nat)
    requires s >= 1
    ensures k * s >= n <==> k >= (n + s - 1) / s
  {
    var q, r := (n + s - 1) / s, (n + s - 1) % s;
    assert q * s + r == n + s - 1;
    if k >= q { InSteps(q, k, s); } else { InSteps(k, q - 1, s); assert (q - 1) * s == q * s - s; }
  }

  /** The demand is met exactly from decision ceil(distance / step) on. */
  lemma ConstantDemandIsMet(d: Damper, t: Tuning, demand: int, times: seq<real>)
    requires d.decided && t.step >= 1 && demand >= 1 && d.target >= 0 && WellSpaced(t, d.lastMs, times)
    ensures Spaced(d, t, demand, times).target == demand <==>
              |times| >= (Distance(d.target, demand) + t.step - 1) / t.step
  {
    ConstantDemand(d, t, demand, times);
    EnoughSteps(Distance(d.target, demand), t.step, |times|);
  }

  // ---------------------------------------------------------------- pace under any demands

  /** How far so many moves lead at most, and how long they take at least. */
  function Reach(t: Tuning, moves: nat): int { moves * t.step }

  function Span(t: Tuning, moves: nat): real { moves as real * t.intervalMs }

  lemma OneMoreMove(t: Tuning, moves: nat)
    ensures Reach(t, moves + 1) == Reach(t, moves) + t.step && Span(t, moves + 1) == Span(t, moves) + t.intervalMs
    ensures Reach(t, 0) == 0 && Span(t, 0) == 0.0
  {
    assert (moves + 1) * t.step == moves * t.step + t.step;
    assert (moves + 1) as real * t.intervalMs == moves as real * t.intervalMs + t.intervalMs;
  }

  datatype Request = Request(demand: int, nowMs: real)

  function DampRun(d: Damper, t: Tuning, requests: seq<Request>): Damper
    decreases |requests|
  {
    if requests == [] then d else DampRun(Damped(d, t, requests[0].demand, requests[0].nowMs), t, requests[1..])
  }

  /** However demand moves, as long as the lane is not parked its target moves by at most one step for
      every interval its clock advances. */
  lemma {:induction false} PaceIsBounded(d: Damper, t: Tuning, requests: seq<Request>) returns (moves: nat)
    requires d.decided && d.target > 0 && t.step >= 1 && t.intervalMs >= 0.0
    requires forall k :: 0 <= k < |requests| ==> requests[k].demand >= 1
    ensures var r := DampRun(d, t, requests);
            && r.target > 0
            && Distance(d.target, r.target) <= Reach(t, moves)
            && r.lastMs - d.lastMs >= Span(t, moves)
    decreases |requests|
  {
    if requests == [] {
      moves := 0;
      OneMoreMove(t, 0);
    } else {
      var next := Damped(d, t, requests[0].demand, requests[0].nowMs);
      DampingIsFair(d, t, requests[0].demand, requests[0].nowMs);
      var rest := PaceIsBounded(next, t, requests[1..]);
      if next.target != d.target {
        moves := rest + 1;
        OneMoreMove(t, rest);
      } else {
        moves := rest;
        assert next.lastMs >= d.lastMs;
      }
    }
  }

  // ---------------------------------------------------------------- the governor's lanes

  /** Interaction bypasses the damping of montage tiles. */
  predicate Bypassed(lane: Lane, load: Load) { lane.MontageTile? && load.interactive }

  /** One lane decision: what is reported, and what is remembered. */
  function Decide(lane: Lane, load: Load, workers: int, d: Damper, t: Tuning, nowMs: real): (Decision, Damper) {
    var demand := Demand(lane, load, workers, d.target, t.step);
    var next := if Bypassed(lane, load) then d else Damped(d, t, demand, nowMs);
    var target := if Bypassed(lane, load) then demand else next.target;
    (Decision(target, MinWorkers(lane, load), MaxWorkers(workers)), next.(decided := true))
  }

  predicate InBounds(r: Decision) { r.minWorkers <= r.target <= r.maxWorkers }

  /** Damping towards a demand between one and `most` stays there. */
  predicate DampsWithin(d: Damper, t: Tuning, demand: int, most: int, nowMs: real) {
    if d.target <= 0 then t.step >= 1
    else if nowMs - d.lastMs < t.intervalMs then d.target <= most
    else if demand < d.target then d.target - t.step <= most
    else demand > d.target ==> d.target + t.step >= 1
  }

  /** Exactly when a decision lies within the bounds it reports, whatever the step and the stored target. */
  lemma DecisionInBoundsExactlyIf(lane: Lane, load: Load, workers: int, d: Damper, t: Tuning, nowMs: real)
    ensures var demand := Demand(lane, load, workers, d.target, t.step);
            InBounds(Decide(lane, load, workers, d, t, nowMs).0) <==>
              Bypassed(lane, load) || !d.decided || Parked(lane, load)
              || DampsWithin(d, t, demand, MaxWorkers(workers), nowMs)
  {
    DemandIsBounded(lane, load, workers, d.target, t.step);
  }

  /** With a step of at least one every decision lies within the bounds it reports, and what it stores within
      the lane's maximum. */
  lemma DecisionIsInBounds(lane: Lane, load: Load, workers: int, d: Damper, t: Tuning, nowMs: real)
    requires t.step >= 1 && d.target <= MaxWorkers(workers)
    ensures var (r, next) := Decide(lane, load, workers, d, t, nowMs);
            InBounds(r) && next.target <= MaxWorkers(workers) && next.decided
    ensures !Bypassed(lane, load) ==>
              (Decide(lane, load, workers, d, t, nowMs).0.target == 0 <==> Parked(lane, load))
  {
    DemandIsBounded(lane, load, workers, d.target, t.step);
  }

  datatype Lanes = Lanes(workers: map<Lane, int>, dampers: map<Lane, Damper>, decisions: seq<Decision>)

  datatype Event = Ask(lane: Lane, load: Load, nowMs: real) | NewPolicy(workers: map<Lane, int>)

  /** A map with an entry for every lane. */
  ghost predicate Complete<T>(m: map<Lane, T>) { forall lane: Lane :: lane in m }

  ghost predicate Whole(s: Lanes) { Complete(s.workers) && Complete(s.dampers) }

  ghost predicate Good(s: Lanes) {
    && Whole(s)
    && (forall lane: Lane :: lane in s.dampers && lane in s.workers
          && s.dampers[lane].target <= MaxWorkers(s.workers[lane]))
    && (forall k :: 0 <= k < |s.decisions| ==> InBounds(s.decisions[k]))
  }

  /** A new policy caps every stored target, and lifts it to at least one. */
  function Capped(d: Damper, workers: int): Damper { d.(target := Clamp(d.target, 1, workers)) }

  ghost function React(s: Lanes, t: Tuning, e: Event): (r: Lanes)
    requires Whole(s)
    ensures Whole(r)
  {
    match e
    case Ask(lane, load, nowMs) =>
      var r := Decide(lane, load, s.workers[lane], s.dampers[lane], t, nowMs);
      s.(dampers := s.dampers[lane := r.1], decisions := s.decisions + [r.0])
    case NewPolicy(workers) =>
      if Complete(workers) then
        s.(workers := workers, dampers := map lane | lane in s.dampers :: Capped(s.dampers[lane], workers[lane]))
      else s
  }

  lemma ReactKeeps(s: Lanes, t: Tuning, e: Event)
    requires Good(s) && t.step >= 1
    ensures Good(React(s, t, e))
  {
    if e.Ask? {
      DecisionIsInBounds(e.lane, e.load, s.workers[e.lane], s.dampers[e.lane], t, e.nowMs);
    }
  }

  ghost function RunLanes(s: Lanes, t: Tuning, events: seq<Event>): (r: Lanes)
    requires Whole(s)
    ensures Whole(r)
    decreases |events|
  {
    if events == [] then s else RunLanes(React(s, t, events[0]), t, events[1..])
  }

  /** Whatever the loads, times and policies, every decision ever reported lies within its own bounds. */
  lemma {:induction false} EveryDecisionIsInBounds(s: Lanes, t: Tuning, events: seq<Event>)
    requires Good(s) && t.step >= 1
    ensures Good(RunLanes(s, t, events))
    decreases |events|
  {
    if events != [] {
      ReactKeeps(s, t, events[0]);
      EveryDecisionIsInBounds(React(s, t, events[0]), t, events[1..]);
    }
  }

  const BUSY: Load := Load(true, false, false, false, false, 0, false, false, false, 1.0)
  const IDLE: Load := Load(false, false, false, false, false, 0, false, false, false, 1.0)

  /** Two decisions of one lane: parked, then free. */
  function ParkThenFree(): seq<Event> { [Ask(Prefetch, BUSY, 0.0), Ask(Prefetch, IDLE, 0.0)] }

  /** With a step below one, unparking reports fewer workers than its own minimum. */
  lemma SmallStepLeavesBounds(s: Lanes, t: Tuning)
    requires Whole(s) && t.step < 1
    ensures !Good(RunLanes(s, t, ParkThenFree()))
  {
    var events := ParkThenFree();
    var parked := React(s, t, events[0]);
    assert parked.dampers[Prefetch].target == 0 && parked.dampers[Prefetch].decided;
    var free := React(parked, t, events[1]);
    DemandIsBounded(Prefetch, IDLE, s.workers[Prefetch], 0, t.step);
    assert !InBounds(free.decisions[|free.decisions| - 1]);
    assert events[1..][1..] == [] && events[1..][0] == events[1];
    assert RunLanes(parked, t, events[1..]) == RunLanes(free, t, events[1..][1..]);
  }

  /** Every run stays within its bounds exactly if the step is at least one. */
  lemma BoundsHoldExactlyIf(s: Lanes, t: Tuning)
    requires Good(s)
    ensures (forall events :: Good(RunLanes(s, t, events))) <==> t.step >= 1
  {
    if t.step >= 1 {
      forall events ensures Good(RunLanes(s, t, events)) { EveryDecisionIsInBounds(s, t, events); }
    } else {
      SmallStepLeavesBounds(s, t);
    }
  }

  // ---------------------------------------------------------------- pace over whole runs

  /** The events that may move a lane's stored target at once: a new policy, parking it, and its first decision
      or the one that unparks it. */
  ghost predicate Jumps(s: Lanes, e: Event, lane: Lane)
    requires Whole(s)
  {
    match e
    case NewPolicy(_) => true
    case Ask(asked, load, _) =>
      asked == lane && (Parked(lane, load) || !s.dampers[lane].decided || s.dampers[lane].target <= 0)
  }

  /** How far a lane's stored target travels over a run, jumps apart. */
  ghost function Travelled(s: Lanes, t: Tuning, events: seq<Event>, lane: Lane): nat
    requires Whole(s)
    decreases |events|
  {
    if events == [] then 0
    else
      var next := React(s, t, events[0]);
      (if Jumps(s, events[0], lane) then 0 else Distance(s.dampers[lane].target, next.dampers[lane].target))
      + Travelled(next, t, events[1..], lane)
  }

  /** No lane is asked at a time before it last moved. */
  ghost predicate Monotone(s: Lanes, t: Tuning, events: seq<Event>)
    requires Whole(s)
    decreases |events|
  {
    events == []
    || ((events[0].Ask? ==> events[0].nowMs >= s.dampers[events[0].lane].lastMs)
        && Monotone(React(s, t, events[0]), t, events[1..]))
  }

  lemma EventPace(s: Lanes, t: Tuning, e: Event, lane: Lane)
    requires Whole(s) && t.step >= 1 && (e.Ask? ==> e.nowMs >= s.dampers[e.lane].lastMs)
    ensures var d, r := s.dampers[lane], React(s, t, e).dampers[lane];
            && r.lastMs >= d.lastMs
            && (!Jumps(s, e, lane) && r.target != d.target ==>
                  Distance(d.target, r.target) <= t.step && r.lastMs - d.lastMs >= t.intervalMs)
  {
    if e.Ask? && e.lane == lane {
      var d := s.dampers[lane];
      var demand := Demand(lane, e.load, s.workers[lane], d.target, t.step);
      DemandIsBounded(lane, e.load, s.workers[lane], d.target, t.step);
      DampingIsFair(d, t, demand, e.nowMs);
    }
  }

  /** Over every run, whatever the loads and policies, a lane's stored target travels at most one step for every
      interval its clock advances, jumps apart. */
  lemma {:induction false} RunPaceIsBounded(s: Lanes, t: Tuning, events: seq<Event>, lane: Lane) returns (moves: nat)
    requires Whole(s) && t.step >= 1 && t.intervalMs >= 0.0 && Monotone(s, t, events)
    ensures Travelled(s, t, events, lane) <= Reach(t, moves)
    ensures RunLanes(s, t, events).dampers[lane].lastMs - s.dampers[lane].lastMs >= Span(t, moves)
    decreases |events|
  {
    if events == [] {
      moves := 0;
      OneMoreMove(t, 0);
    } else {
      var next := React(s, t, events[0]);
      EventPace(s, t, events[0], lane);
      var rest := RunPaceIsBounded(next, t, events[1..], lane);
      if !Jumps(s, events[0], lane) && next.dampers[lane].target != s.dampers[lane].target {
        moves := rest + 1;
        OneMoreMove(t, rest);
      } else {
        moves := rest;
      }
    }
  }

  // ---------------------------------------------------------------- sustained low headroom

  /** A lane whose only limit is low processor headroom. */
  predicate Starved(lane: Lane, load: Load) {
    && load.cpuHeadroom < 0.15 && !load.memoryHigh && !Parked(lane, load) && !load.evidenceBlocking
    && !lane.Visible? && !lane.Stage? && !lane.MontageTile?
  }

  function Starving(lane: Lane, load: Load, workers: int, d: Damper, t: Tuning, times: seq<real>): Damper
    decreases |times|
  {
    if times == [] then d
    else Starving(lane, load, workers, Decide(lane, load, workers, d, t, times[0]).1, t, times[1..])
  }

  /** Demand reads the target it steers: under low headroom a lane sheds exactly one worker an interval,
      however large its step, until one is left. */
  lemma {:induction false} LowHeadroomShedsOneByOne(lane: Lane, load: Load, workers: int, d: Damper, t: Tuning,
                                                    times: seq<real>)
    requires Starved(lane, load) && t.step >= 1 && d.decided && 1 <= d.target <= MaxWorkers(workers)
    requires WellSpaced(t, d.lastMs, times)
    ensures Starving(lane, load, workers, d, t, times).target == Max(1, d.target - |times|)
    decreases |times|
  {
    if times != [] {
      var next := Decide(lane, load, workers, d, t, times[0]).1;
      assert Demand(lane, load, workers, d.target, t.step) == Max(1, d.target - 1);
      assert next.target == Max(1, d.target - 1) && next.lastMs == times[0];
      LowHeadroomShedsOneByOne(lane, load, workers, next, t, times[1..]);
    }
  }
}
