/** The spike filter in front of the averages, and the pressure level computed from them. */
module SpikeFilter {
  import opened Prelude
  import opened LatencyFeedback

  const WARNING_MS: real := 16.0

  predicate Upload(name: string) {
    name == "montage_cold_commit" || name == "montage_present_total" || name == "tile_layer_commit"
  }

  /** Channels whose cost says how much they were asked to do, not how busy the thread is. */
  predicate TelemetryOnly(name: string) {
    || name == "montage_cold_commit" || name == "montage_layout_commit" || name == "montage_level_evidence"
    || name == "montage_level_refinement" || name == "montage_present_total" || name == "montage_priority_retarget"
    || name == "montage_retarget" || name == "tile_layer_commit"
  }

  function ControlBudget(name: string, c: Channel, t: Tuning): real {
    RMax(WorkBudget(c, t, false), if Upload(name) then WARNING_MS + t.targetIdleMs else t.targetIdleMs)
  }

  predicate IsSpike(name: string, c: Channel, t: Tuning, elapsed: real) {
    c.elapsed.Some? && c.elapsed.value > 0.0
    && RMax(0.0, elapsed) > RMax(ControlBudget(name, c, t) * 2.0, c.elapsed.value * 3.0)
  }

  /** What the averages are fed, and the new count of spikes in a row. */
  function Filter(name: string, c: Channel, streak: nat, t: Tuning, elapsedMs: real): (real, nat) {
    var elapsed := RMax(0.0, elapsedMs);
    if c.elapsed.None? || c.elapsed.value <= 0.0 then (elapsed, 0)
    else if IsSpike(name, c, t, elapsed) then
      (if streak + 1 < 2 then RMax(c.elapsed.value, ControlBudget(name, c, t)) else elapsed, streak + 1)
    else (elapsed, 0)
  }

  datatype Level = Normal | Elevated | High

  /** One channel's level against the idle target. */
  function LevelOf(c: Channel, t: Tuning): Level {
    if c.elapsed.None? then Normal
    else
      var target := RMax(0.25, t.targetIdleMs);
      if c.elapsed.value / target >= 2.0 then High else if c.elapsed.value / target >= 1.25 then Elevated else Normal
  }

  predicate Counts(channels: map<string, Channel>, t: Tuning, name: string, level: Level) {
    name in channels && !TelemetryOnly(name) && LevelOf(channels[name], t) == level
  }

  /** The worst level of the channels that count. */
  ghost function Pressure(channels: map<string, Channel>, t: Tuning): Level {
    if exists name :: Counts(channels, t, name, High) then High
    else if exists name :: Counts(channels, t, name, Elevated) then Elevated
    else Normal
  }

  function Get(channels: map<string, Channel>, name: string): Channel {
    if name in channels then channels[name] else FRESH
  }

  /** One observation: filtered, then averaged into its channel. */
  function Recorded(channels: map<string, Channel>, streak: nat, t: Tuning, name: string, elapsedMs: real,
                    items: int, bytes: int)
    : (map<string, Channel>, nat)
  {
    var c := Get(channels, name);
    var (fed, next) := Filter(name, c, streak, t, elapsedMs);
    (channels[name := Observe(c, fed, items, bytes)], next)
  }

  /** Eight channels say nothing of pressure; the three presentation uploads are among them. */
  lemma ChannelsThatDoNotCount(name: string)
    ensures var uploads := {"montage_cold_commit", "montage_present_total", "tile_layer_commit"};
            var commits := {"montage_layout_commit", "montage_level_evidence", "montage_level_refinement",
                            "montage_priority_retarget", "montage_retarget"};
            (Upload(name) <==> name in uploads) && (TelemetryOnly(name) <==> name in uploads + commits)
  {
  }

  // ---------------------------------------------------------------- what is a spike, and what is fed for it

  /** A spike is more than three times the average, and more than twice everything the channel may take at once: its
      work budget, the idle target, and for a presentation upload the warning threshold on top of that. */
  lemma SpikeMeans(name: string, c: Channel, t: Tuning, elapsedMs: real)
    requires t.targetIdleMs >= 0.0
    ensures IsSpike(name, c, t, elapsedMs) <==>
              && c.elapsed.Some? && c.elapsed.value > 0.0 && elapsedMs > 3.0 * c.elapsed.value
              && elapsedMs > 2.0 * WorkBudget(c, t, false) && elapsedMs > 2.0 * t.targetIdleMs
              && (Upload(name) ==> elapsedMs > 2.0 * (16.0 + t.targetIdleMs))
  {
  }

  /** Whatever is no spike is fed as it is, and ends a row of spikes. For the first spike of a row the average is fed,
      or what the channel may take at once where that is more; every later one is fed as it is. */
  lemma FilterFeeds(name: string, c: Channel, streak: nat, t: Tuning, elapsedMs: real)
    requires t.targetIdleMs >= 0.0 && elapsedMs >= 0.0
    ensures var (fed, next) := Filter(name, c, streak, t, elapsedMs);
            if !IsSpike(name, c, t, elapsedMs) then fed == elapsedMs && next == 0
            else
              && next == streak + 1
              && if streak >= 1 then fed == elapsedMs
                 else
                   && c.elapsed.value <= fed && WorkBudget(c, t, false) <= fed && t.targetIdleMs <= fed < elapsedMs
                   && (Upload(name) ==> 16.0 + t.targetIdleMs <= fed)
                   && (fed == c.elapsed.value || fed == WorkBudget(c, t, false)
                       || fed == if Upload(name) then 16.0 + t.targetIdleMs else t.targetIdleMs)
  {
    SpikeMeans(name, c, t, elapsedMs);
  }

  // ---------------------------------------------------------------- one spike

  /** An isolated spike of any size leaves the average at most where it was, or at the control budget;
      a second one in a row is accepted as it is. */
  lemma IsolatedSpikeIsAbsorbed(name: string, c: Channel, streak: nat, t: Tuning, elapsedMs: real,
                                 items: int, bytes: int)
    requires t.targetIdleMs >= 0.0 && IsSpike(name, c, t, elapsedMs)
    ensures var (fed, next) := Filter(name, c, streak, t, elapsedMs);
            && next == streak + 1
            && (streak == 0 ==>
                  Observe(c, fed, items, bytes).elapsed.value <= RMax(c.elapsed.value, ControlBudget(name, c, t)))
            && (streak >= 1 ==> fed == RMax(0.0, elapsedMs) && fed > 3.0 * c.elapsed.value)
  {
  }

  /** On a channel that counts for pressure, an isolated spike does not even move the channel's level. */
  lemma SpikeKeepsLevel(name: string, c: Channel, p: Profile, elapsedMs: real, items: int, bytes: int)
    requires !Upload(name) && IsSpike(name, c, TuningOf(p), elapsedMs)
    ensures var t := TuningOf(p);
            LevelOf(Observe(c, Filter(name, c, 0, t, elapsedMs).0, items, bytes), t) == LevelOf(c, t)
  {
    var t := TuningOf(p);
    var target := t.targetIdleMs;
    var previous := c.elapsed.value;
    ScaledFacts(target, previous, previous);
    var fed := Filter(name, c, 0, t, elapsedMs).0;
    if previous >= target {
      assert fed == previous;
    } else {
      assert fed <= MAX_BUDGET_MS;
    }
  }

  /** In every profile, whatever its size and channel, an isolated spike leaves the computed pressure exactly as it
      was. */
  lemma IsolatedSpikeLeavesPressure(channels: map<string, Channel>, p: Profile, name: string, elapsedMs: real,
                                    items: int, bytes: int)
    requires name in channels && IsSpike(name, channels[name], TuningOf(p), elapsedMs)
    ensures var t := TuningOf(p);
            Pressure(Recorded(channels, 0, t, name, elapsedMs, items, bytes).0, t) == Pressure(channels, t)
  {
    var t := TuningOf(p);
    var after := Recorded(channels, 0, t, name, elapsedMs, items, bytes).0;
    if !TelemetryOnly(name) { SpikeKeepsLevel(name, channels[name], p, elapsedMs, items, bytes); }
    forall other, level: Level ensures Counts(after, t, other, level) <==> Counts(channels, t, other, level) {}
  }

  // ---------------------------------------------------------------- runs of observations

  datatype Observation = Observation(name: string, elapsedMs: real, items: int, bytes: int)

  /** The averages, and how many spikes in a row each channel has seen. */
  datatype Averages = Averages(channels: map<string, Channel>, streaks: map<string, nat>)

  function Streak(a: Averages, name: string): nat { if name in a.streaks then a.streaks[name] else 0 }

  function Take(a: Averages, t: Tuning, o: Observation): Averages {
    var (channels, streak) := Recorded(a.channels, Streak(a, o.name), t, o.name, o.elapsedMs, o.items, o.bytes);
    Averages(channels, a.streaks[o.name := streak])
  }

  function TakeAll(a: Averages, t: Tuning, run: seq<Observation>): Averages
    decreases |run|
  {
    if run == [] then a else TakeAll(Take(a, t, run[0]), t, run[1..])
  }

  /** The observations are taken one by one, in their order. */
  lemma {:induction false} TakeAllInTurn(a: Averages, t: Tuning, run: seq<Observation>, last: Observation)
    ensures TakeAll(a, t, run + [last]) == Take(TakeAll(a, t, run), t, last)
    decreases |run|
  {
    if run != [] {
      assert (run + [last])[1..] == run[1..] + [last];
      TakeAllInTurn(Take(a, t, run[0]), t, run[1..], last);
    }
  }

  /** Each observation is under twice the idle target, or an isolated spike. */
  predicate Calm(a: Averages, t: Tuning, run: seq<Observation>)
    decreases |run|
  {
    run == []
    || ((run[0].elapsedMs < 2.0 * t.targetIdleMs
         || (Streak(a, run[0].name) == 0 && IsSpike(run[0].name, Get(a.channels, run[0].name), t, run[0].elapsedMs)))
        && Calm(Take(a, t, run[0]), t, run[1..]))
  }

  lemma CalmStep(a: Averages, p: Profile, o: Observation)
    requires Pressure(a.channels, TuningOf(p)) != High
    requires o.elapsedMs < 2.0 * TuningOf(p).targetIdleMs
             || (Streak(a, o.name) == 0 && IsSpike(o.name, Get(a.channels, o.name), TuningOf(p), o.elapsedMs))
    ensures Pressure(Take(a, TuningOf(p), o).channels, TuningOf(p)) != High
  {
    var t := TuningOf(p);
    var c := Get(a.channels, o.name);
    var after := Take(a, t, o).channels;
    if IsSpike(o.name, c, t, o.elapsedMs) && Streak(a, o.name) == 0 {
      IsolatedSpikeLeavesPressure(a.channels, p, o.name, o.elapsedMs, o.items, o.bytes);
    } else {
      assert !TelemetryOnly(o.name) && o.name in a.channels ==> !Counts(a.channels, t, o.name, High);
      forall other ensures !Counts(after, t, other, High) {
        assert !Counts(a.channels, t, other, High);
      }
    }
  }

  /** However many isolated spikes a run holds, of whatever size, work that otherwise stays under twice the
      idle target never brings the pressure to high. */
  lemma {:induction false} CalmRunsStayBelowHigh(a: Averages, p: Profile, run: seq<Observation>)
    requires Pressure(a.channels, TuningOf(p)) != High && Calm(a, TuningOf(p), run)
    ensures Pressure(TakeAll(a, TuningOf(p), run).channels, TuningOf(p)) != High
    decreases |run|
  {
    if run != [] {
      CalmStep(a, p, run[0]);
      CalmRunsStayBelowHigh(Take(a, TuningOf(p), run[0]), p, run[1..]);
    }
  }
}
