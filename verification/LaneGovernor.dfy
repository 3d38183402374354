/** The governor's lane fields, updated in place. */
module LaneGovernor {
  import opened Prelude
  import opened LaneWorkers

  const ALL_LANES: seq<Lane> := [Visible, Stage, MontageTile, Histogram, Prefetch, Profile, Roi, Pixel]

  class LaneGovernor {
    var workers: map<Lane, int>
    var targets: map<Lane, int>
    var lastUpdate: map<Lane, real>
    var decisions: map<Lane, Decision>
    const tuning: Tuning

    ghost predicate Valid()
      reads this
    {
      Complete(workers) && Complete(targets)
    }

    /** No lane is remembered above its maximum. */
    ghost predicate WithinMaximum()
      reads this
    {
      forall lane: Lane :: lane in targets && lane in workers && targets[lane] <= MaxWorkers(workers[lane])
    }

    /** What is remembered of a lane. */
    function Remembered(lane: Lane): Damper
      reads this
      requires lane in targets
    {
      Damper(targets[lane], if lane in lastUpdate then lastUpdate[lane] else 0.0, lane in decisions)
    }

    constructor (workers: map<Lane, int>, tuning: Tuning)
      requires Complete(workers)
      ensures Valid() && WithinMaximum() && this.workers == workers && this.tuning == tuning && decisions == map[]
      ensures forall lane: Lane :: lane in targets && targets[lane] == workers[lane]
    {
      this.workers, this.tuning, targets, lastUpdate, decisions := workers, tuning, workers, map[], map[];
    }

    method DampedLaneTarget(lane: Lane, demand: int, nowMs: real) returns (target: int)
      requires Complete(targets)
      modifies `targets, `lastUpdate
      ensures Complete(targets) && targets == old(targets)[lane := targets[lane]]
      ensures target == Damped(old(Remembered(lane)), tuning, demand, nowMs).target
      ensures Remembered(lane) == Damped(old(Remembered(lane)), tuning, demand, nowMs)
      ensures forall other: Lane :: other != lane ==> Remembered(other) == old(Remembered(other))
    {
      var desired := Max(0, demand);
      if lane !in decisions {
        targets, lastUpdate := targets[lane := desired], lastUpdate[lane := nowMs];
        return desired;
      }
      if desired == 0 {
        targets, lastUpdate := targets[lane := 0], lastUpdate[lane := nowMs];
        return 0;
      }
      var current := Max(0, targets[lane]);
      var last := if lane in lastUpdate then lastUpdate[lane] else 0.0;
      if current == 0 {
        target := Min(desired, tuning.step);
        targets, lastUpdate := targets[lane := target], lastUpdate[lane := nowMs];
        return;
      }
      if nowMs - last < tuning.intervalMs {
        assert targets == targets[lane := targets[lane]];
        return current;
      }
      if desired < current {
        target := Max(desired, current - tuning.step);
      } else if desired > current {
        target := Min(desired, current + tuning.step);
      } else {
        target := current;
      }
      targets, lastUpdate := targets[lane := target], lastUpdate[lane := nowMs];
    }

    method DecideLaneWorkers(lane: Lane, load: Load, nowMs: real) returns (decision: Decision)
      requires Valid()
      modifies this
      ensures Valid() && workers == old(workers)
      ensures (decision, Remembered(lane)) == Decide(lane, load, workers[lane], old(Remembered(lane)), tuning, nowMs)
      ensures old(WithinMaximum()) && tuning.step >= 1 ==> WithinMaximum() && InBounds(decision)
      ensures decisions == old(decisions)[lane := decision]
      ensures forall other: Lane :: other != lane ==> Remembered(other) == old(Remembered(other))
    {
      ghost var before := targets;
      if WithinMaximum() && tuning.step >= 1 {
        DecisionIsInBounds(lane, load, workers[lane], Remembered(lane), tuning, nowMs);
      }
      var demand := Demand(lane, load, workers[lane], targets[lane], tuning.step);
      var target := demand;
      if !Bypassed(lane, load) { target := DampedLaneTarget(lane, demand, nowMs); }
      decision := Decision(target, MinWorkers(lane, load), MaxWorkers(workers[lane]));
      decisions := decisions[lane := decision];
      assert forall other: Lane :: other != lane ==> targets[other] == before[other];
    }

    method UpdatePolicy(newWorkers: map<Lane, int>)
      requires Valid() && Complete(newWorkers)
      modifies `workers, `targets
      ensures Valid() && WithinMaximum() && workers == newWorkers
      ensures forall lane: Lane :: Remembered(lane) == Capped(old(Remembered(lane)), newWorkers[lane])
    {
      workers := newWorkers;
      EveryLaneIsListed();
      CapTargets(ALL_LANES);
      forall lane: Lane ensures lane in targets && targets[lane] == Clamp(old(targets)[lane], 1, newWorkers[lane]) {
        assert lane in ALL_LANES && lane in newWorkers;
      }
    }

    /** The loop over the lanes. */
    method CapTargets(lanes: seq<Lane>)
      requires Complete(targets) && Complete(workers)
      modifies `targets
      ensures Complete(targets)
      ensures forall lane: Lane :: lane in targets && lane in workers && lane in old(targets)
                && targets[lane] ==
                   if lane in lanes then Clamp(old(targets)[lane], 1, workers[lane]) else old(targets)[lane]
    {
      ghost var before := targets;
      for k := 0 to |lanes|
        invariant Complete(targets)
        invariant forall lane: Lane :: lane in targets && lane in workers && lane in before
                    && targets[lane] ==
                       if lane in lanes[..k] then Clamp(before[lane], 1, workers[lane]) else before[lane]
      {
        var lane := lanes[k];
        assert lanes[..k + 1] == lanes[..k] + [lane];
        assert lane in targets && lane in workers;
        targets := targets[lane := Clamp(targets[lane], 1, workers[lane])];
      }
      assert lanes[..|lanes|] == lanes;
    }
  }

  lemma EveryLaneIsListed()
    ensures forall lane: Lane :: lane in ALL_LANES
  {
    forall lane: Lane ensures lane in ALL_LANES {
      match lane
      case Visible => assert ALL_LANES[0] == lane;
      case Stage => assert ALL_LANES[1] == lane;
      case MontageTile => assert ALL_LANES[2] == lane;
      case Histogram => assert ALL_LANES[3] == lane;
      case Prefetch => assert ALL_LANES[4] == lane;
      case Profile => assert ALL_LANES[5] == lane;
      case Roi => assert ALL_LANES[6] == lane;
      case Pixel => assert ALL_LANES[7] == lane;
    }
  }
}
