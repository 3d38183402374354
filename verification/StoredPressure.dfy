/** The stored pressure level: recomputed when something is recorded or telemetry arrives, and out of
    date when an average or the profile changes in between. */
module StoredPressure {
  import opened Prelude
  import opened RealFacts
  import opened LatencyFeedback
  import opened SpikeFilter

  datatype Governor = Governor(averages: Averages, profile: Profile, stored: Level)

  /** `Feed` is a raw timing: it moves an average past the spike filter and recomputes nothing. Nor does `Reset`,
      with which a new render-pass round drops the averages of its channel. */
  datatype Event =
    | Record(o: Observation)
    | Feed(o: Observation)
    | Reset(name: string)
    | Refresh
    | ChangeProfile(profile: Profile)

  function New(p: Profile): Governor { Governor(Averages(map[], map[]), p, Normal) }

  /** The level the averages have now. */
  ghost function Computed(g: Governor): Level { Pressure(g.averages.channels, TuningOf(g.profile)) }

  function Fed(a: Averages, o: Observation): Averages {
    Averages(a.channels[o.name := Observe(Get(a.channels, o.name), o.elapsedMs, o.items, o.bytes)], a.streaks)
  }

  function Dropped(a: Averages, name: string): Averages { Averages(a.channels - {name}, a.streaks) }

  ghost function Recomputed(g: Governor): Governor { g.(stored := Computed(g)) }

  ghost function React(g: Governor, e: Event): Governor {
    match e
    case Record(o) => Recomputed(g.(averages := Take(g.averages, TuningOf(g.profile), o)))
    case Feed(o) => g.(averages := Fed(g.averages, o))
    case Reset(name) => g.(averages := Dropped(g.averages, name))
    case Refresh => Recomputed(g)
    case ChangeProfile(p) => g.(profile := p)
  }

  ghost function RunAll(g: Governor, run: seq<Event>): Governor
    decreases |run|
  {
    if run == [] then g else React(RunAll(g, run[..|run| - 1]), run[|run| - 1])
  }

  ghost predicate UpToDate(g: Governor) { g.stored == Computed(g) }

  predicate Recomputes(e: Event) { e.Record? || e.Refresh? }

  /** Where the run stood when the level was last computed. */
  ghost function LastComputed(g: Governor, run: seq<Event>): Governor
    decreases |run|
  {
    if run == [] then g
    else if Recomputes(run[|run| - 1]) then RunAll(g, run)
    else LastComputed(g, run[..|run| - 1])
  }

  lemma {:induction false} StoredIsLastComputed(g: Governor, run: seq<Event>)
    requires UpToDate(g)
    ensures RunAll(g, run).stored == LastComputed(g, run).stored == Computed(LastComputed(g, run))
    decreases |run|
  {
    if run != [] { StoredIsLastComputed(g, run[..|run| - 1]); }
  }

  // ---------------------------------------------------------------- exactly when it is out of date

  /** This channel counts, and its average is at least the limit. */
  predicate AtLeast(g: Governor, name: string, limit: real) {
    && name in g.averages.channels && !TelemetryOnly(name) && g.averages.channels[name].elapsed.Some?
    && g.averages.channels[name].elapsed.value >= limit
  }

  function Threshold(factor: real, target: real): real { factor * target }

  predicate Above(g: Governor, name: string, factor: real) {
    AtLeast(g, name, Threshold(factor, TuningOf(g.profile).targetIdleMs))
  }

  ghost predicate Reaches(g: Governor, factor: real) { exists name :: Above(g, name, factor) }

  lemma LevelByReach(g: Governor, name: string)
    ensures var channels, t := g.averages.channels, TuningOf(g.profile);
            && (Counts(channels, t, name, High) <==> Above(g, name, 2.0))
            && (Counts(channels, t, name, Elevated) <==> Above(g, name, 1.25) && !Above(g, name, 2.0))
  {
  }

  /** High from twice the idle target on, elevated from five quarters of it. */
  lemma ComputedByReach(g: Governor)
    ensures Computed(g) == High <==> Reaches(g, 2.0)
    ensures Computed(g) != Normal <==> Reaches(g, 1.25)
  {
    var channels, t := g.averages.channels, TuningOf(g.profile);
    forall name ensures Above(g, name, 2.0) ==> Above(g, name, 1.25) {}
    if name :| Counts(channels, t, name, High) { LevelByReach(g, name); }
    if name :| Counts(channels, t, name, Elevated) { LevelByReach(g, name); }
    if name :| Above(g, name, 2.0) { LevelByReach(g, name); }
    if name :| Above(g, name, 1.25) { LevelByReach(g, name); }
  }

  /** The two governors are on the same side of both thresholds; above the higher one the lower does not matter. */
  ghost predicate SameBand(g: Governor, h: Governor) {
    (Reaches(g, 2.0) <==> Reaches(h, 2.0)) && (Reaches(h, 2.0) || (Reaches(g, 1.25) <==> Reaches(h, 1.25)))
  }

  /** After any run the stored level is the computed one exactly if averages and target are still on the
      same side of the thresholds as when it was last computed. */
  lemma UpToDateExactlyIf(g: Governor, run: seq<Event>)
    requires UpToDate(g)
    ensures UpToDate(RunAll(g, run)) <==> SameBand(LastComputed(g, run), RunAll(g, run))
  {
    StoredIsLastComputed(g, run);
    ComputedByReach(LastComputed(g, run));
    ComputedByReach(RunAll(g, run));
  }

  /** Neither a raw timing nor a reset since the level was last computed. */
  predicate OnlyProfileChangesSince(run: seq<Event>)
    decreases |run|
  {
    run == [] || Recomputes(run[|run| - 1])
    || (run[|run| - 1].ChangeProfile? && OnlyProfileChangesSince(run[..|run| - 1]))
  }

  lemma SameTargetSameReach(g: Governor, h: Governor, factor: real)
    requires g.averages == h.averages && TuningOf(g.profile).targetIdleMs == TuningOf(h.profile).targetIdleMs
    ensures Reaches(g, factor) <==> Reaches(h, factor)
  {
    forall name ensures Above(g, name, factor) == Above(h, name, factor) {}
  }

  /** Profile changes alone leave every average; the level is then up to date whenever the idle target is
      the one it was computed with. */
  lemma {:induction false} ProfileChangesAlone(g: Governor, run: seq<Event>)
    requires UpToDate(g) && OnlyProfileChangesSince(run)
    ensures var last, now := LastComputed(g, run), RunAll(g, run);
            && last.averages == now.averages
            && (TuningOf(last.profile).targetIdleMs == TuningOf(now.profile).targetIdleMs ==> UpToDate(now))
    decreases |run|
  {
    if run != [] && !Recomputes(run[|run| - 1]) { ProfileChangesAlone(g, run[..|run| - 1]); }
    UpToDateExactlyIf(g, run);
    var last, now := LastComputed(g, run), RunAll(g, run);
    if TuningOf(last.profile).targetIdleMs == TuningOf(now.profile).targetIdleMs {
      SameTargetSameReach(last, now, 2.0);
      SameTargetSameReach(last, now, 1.25);
    }
  }

  // ---------------------------------------------------------------- which event puts it out of date

  /** The level one channel has; channels that do not count have none above normal. */
  function LevelIn(g: Governor, name: string): Level {
    if name in g.averages.channels && !TelemetryOnly(name) then LevelOf(g.averages.channels[name], TuningOf(g.profile))
    else Normal
  }

  function Order(level: Level): nat { match level case Normal => 0 case Elevated => 1 case High => 2 }

  lemma ComputedIsHighest(g: Governor)
    ensures forall name :: Order(LevelIn(g, name)) <= Order(Computed(g))
    ensures Computed(g) != Normal ==> exists name :: LevelIn(g, name) == Computed(g)
  {
    var channels, t := g.averages.channels, TuningOf(g.profile);
    forall name ensures Order(LevelIn(g, name)) <= Order(Computed(g)) {
      if LevelIn(g, name) != Normal { assert Counts(channels, t, name, LevelIn(g, name)); }
    }
    if Computed(g) != Normal {
      var name :| Counts(channels, t, name, Computed(g));
      assert LevelIn(g, name) == Computed(g);
    }
  }

  /** The channel is the only one at the level computed, and that is not the normal one. */
  ghost predicate Alone(g: Governor, name: string) {
    Computed(g) != Normal && forall other :: LevelIn(g, other) == Computed(g) ==> other == name
  }

  /** Only this channel may differ. */
  ghost predicate SameButFor(g: Governor, h: Governor, name: string) {
    g.profile == h.profile && forall other :: other != name ==> LevelIn(h, other) == LevelIn(g, other)
  }

  /** Moving one channel moves the computed level if and only if the channel rises above that level, or falls
      below it having been the only one there. */
  lemma OneChannelMovesExactlyIf(g: Governor, h: Governor, name: string)
    requires SameButFor(g, h, name)
    ensures Computed(h) != Computed(g) <==>
              Order(LevelIn(h, name)) > Order(Computed(g))
              || (Alone(g, name) && Order(LevelIn(h, name)) < Order(Computed(g)))
  {
    ComputedIsHighest(g);
    ComputedIsHighest(h);
    if Computed(g) != Normal && !Alone(g, name) {
      var other :| LevelIn(g, other) == Computed(g) && other != name;
      assert LevelIn(h, other) == Computed(g);
    }
  }

  /** A raw timing, or a dropped average, puts an up-to-date level out of date in exactly these cases. */
  lemma OutdatedByChannelExactlyIf(g: Governor, e: Event, name: string)
    requires UpToDate(g) && ((e.Feed? && e.o.name == name) || (e.Reset? && e.name == name))
    ensures !UpToDate(React(g, e)) <==>
              Order(LevelIn(React(g, e), name)) > Order(Computed(g))
              || (Alone(g, name) && Order(LevelIn(React(g, e), name)) < Order(Computed(g)))
    ensures e.Reset? ==> LevelIn(React(g, e), name) == Normal
  {
    OneChannelMovesExactlyIf(g, React(g, e), name);
  }

  ghost predicate Loud(g: Governor, limit: real) { exists name :: AtLeast(g, name, limit) }

  /** The loudest average that counts lies between the limits. */
  ghost predicate LoudestBetween(g: Governor, low: real, high: real) { Loud(g, low) && !Loud(g, high) }

  lemma ReachesByLimit(g: Governor, factor: real, limit: real)
    requires limit == Threshold(factor, TuningOf(g.profile).targetIdleMs)
    ensures Reaches(g, factor) <==> Loud(g, limit)
  {
    forall name ensures Above(g, name, factor) == AtLeast(g, name, limit) {}
  }

  lemma LouderIsLoud(g: Governor, low: real, high: real)
    requires low <= high && Loud(g, high)
    ensures Loud(g, low)
  {
    var name :| AtLeast(g, name, high);
    assert AtLeast(g, name, low);
  }

  lemma SameAveragesSameLoudness(g: Governor, h: Governor, limit: real)
    requires g.averages == h.averages
    ensures Loud(g, limit) <==> Loud(h, limit)
  {
    forall name ensures AtLeast(g, name, limit) == AtLeast(h, name, limit) {}
  }

  /** It lies between what a threshold is at the one target and at the other. */
  ghost predicate Crossed(g: Governor, factor: real, a: real, b: real) {
    LoudestBetween(g, Threshold(factor, RMin(a, b)), Threshold(factor, RMax(a, b)))
  }

  lemma LoudnessDiffers(g: Governor, was: real, becomes: real)
    ensures Loud(g, was) != Loud(g, becomes) <==> LoudestBetween(g, RMin(was, becomes), RMax(was, becomes))
  {
    if was <= becomes {
      if Loud(g, becomes) { LouderIsLoud(g, was, becomes); }
    } else {
      if Loud(g, was) { LouderIsLoud(g, becomes, was); }
    }
  }

  lemma ScaledOrder(factor: real, a: real, b: real)
    requires factor > 0.0
    ensures var x, y := Threshold(factor, a), Threshold(factor, b);
            RMin(x, y) == Threshold(factor, RMin(a, b)) && RMax(x, y) == Threshold(factor, RMax(a, b))
  {
    if a <= b { Scale(factor, a, b); } else { Scale(factor, b, a); }
  }

  /** What one threshold says of the averages before and after it moves. */
  lemma ThresholdMoves(g: Governor, h: Governor, factor: real, a: real, b: real)
    requires g.averages == h.averages && factor > 0.0
    requires a == TuningOf(g.profile).targetIdleMs && b == TuningOf(h.profile).targetIdleMs
    ensures Reaches(g, factor) != Reaches(h, factor) <==> Crossed(g, factor, a, b)
  {
    var was, becomes := Threshold(factor, a), Threshold(factor, b);
    ReachesByLimit(g, factor, was);
    ReachesByLimit(h, factor, becomes);
    SameAveragesSameLoudness(g, h, becomes);
    ScaledOrder(factor, a, b);
    LoudnessDiffers(g, was, becomes);
  }

  lemma LevelsDiffer(g: Governor, h: Governor)
    ensures Computed(g) != Computed(h) <==> Reaches(g, 2.0) != Reaches(h, 2.0) || Reaches(g, 1.25) != Reaches(h, 1.25)
  {
    ComputedByReach(g);
    ComputedByReach(h);
  }

  /** A profile change puts an up-to-date level out of date if and only if the loudest average lies between what
      one of the thresholds was and what it becomes. */
  lemma OutdatedByProfileExactlyIf(g: Governor, p: Profile)
    requires UpToDate(g)
    ensures var a, b := TuningOf(g.profile).targetIdleMs, TuningOf(p).targetIdleMs;
            !UpToDate(React(g, ChangeProfile(p))) <==> Crossed(g, 2.0, a, b) || Crossed(g, 1.25, a, b)
  {
    var h := React(g, ChangeProfile(p));
    var a, b := TuningOf(g.profile).targetIdleMs, TuningOf(p).targetIdleMs;
    LevelsDiffer(g, h);
    ThresholdMoves(g, h, 2.0, a, b);
    ThresholdMoves(g, h, 1.25, a, b);
  }

  // ---------------------------------------------------------------- what recording a spike stores

  predicate Isolated(g: Governor, o: Observation) {
    && o.name in g.averages.channels && Streak(g.averages, o.name) == 0
    && IsSpike(o.name, g.averages.channels[o.name], TuningOf(g.profile), o.elapsedMs)
  }

  /** After any run, recording an isolated spike moves the stored level exactly if it was out of date. */
  lemma SpikeMovesStoredExactlyIf(g: Governor, run: seq<Event>, o: Observation)
    requires UpToDate(g) && Isolated(RunAll(g, run), o)
    ensures var now := RunAll(g, run);
            React(now, Record(o)).stored != now.stored <==> !SameBand(LastComputed(g, run), now)
  {
    var now := RunAll(g, run);
    UpToDateExactlyIf(g, run);
    IsolatedSpikeLeavesPressure(now.averages.channels, now.profile, o.name, o.elapsedMs, o.items, o.bytes);
  }

  /** A run in which it was: fifteen milliseconds are elevated under the aggressive profile; the change to the
      conservative one stores nothing, and the isolated spike after it stores high. */
  lemma SpikeAfterProfileChange(name: string, g1: Governor, g2: Governor, spike: Observation)
    requires !TelemetryOnly(name) && spike == Observation(name, 100.0, 1, 0)
    requires g1 == React(New(Aggressive), Record(Observation(name, 15.0, 1, 0)))
    requires g2 == React(g1, ChangeProfile(Conservative))
    ensures UpToDate(New(Aggressive)) && g1.stored == Elevated
    ensures g2.stored == Elevated && !UpToDate(g2)
    ensures Isolated(g2, spike) && React(g2, Record(spike)).stored == High
  {
    var channels, c := g1.averages.channels, g1.averages.channels[name];
    assert channels == map[name := c] && c.elapsed == Some(15.0);
    assert Above(g1, name, 1.25) && Above(g2, name, 2.0);
    ComputedByReach(New(Aggressive));
    ComputedByReach(g1);
    ComputedByReach(g2);
    ScaledFacts(7.0, 15.0, 15.0);
    IsolatedSpikeLeavesPressure(channels, Conservative, name, 100.0, 1, 0);
  }

  // ---------------------------------------------------------------- the governor's fields

  /** The governor's fields: the level it reports is recomputed only when something is recorded. */
  class PressureGovernor {
    var profile: Profile
    var channels: map<string, Channel>
    var streaks: map<string, nat>
    var pressure: Level

    ghost function Value(): Governor
      reads this
    {
      Governor(Averages(channels, streaks), profile, pressure)
    }

    constructor (profile: Profile)
      ensures Value() == New(profile)
    {
      this.profile, channels, streaks, pressure := profile, map[], map[], Normal;
    }

    /** The scan over the channels, which stops at the first high one. */
    method ComputePressure() returns (worst: Level)
      ensures worst == Pressure(channels, TuningOf(profile))
    {
      var t := TuningOf(profile);
      worst := Normal;
      var rest := channels.Keys;
      while rest != {}
        invariant rest <= channels.Keys && worst != High
        invariant forall name :: name in channels && name !in rest ==> !Counts(channels, t, name, High)
        invariant worst == Elevated <==> exists name :: name !in rest && Counts(channels, t, name, Elevated)
        decreases |rest|
      {
        var name :| name in rest;
        ghost var before := rest;
        rest := rest - {name};
        var level := LevelOf(channels[name], t);
        if !TelemetryOnly(name) {
          if level == High {
            assert Counts(channels, t, name, High);
            return High;
          }
          if level == Elevated {
            assert Counts(channels, t, name, Elevated);
            worst := Elevated;
          }
        }
        forall other | other !in rest && Counts(channels, t, other, Elevated) ensures worst == Elevated {
          if other != name { assert other !in before; }
        }
      }
    }

    method RecordUiObservation(o: Observation)
      modifies this
      ensures Value() == React(old(Value()), Record(o))
    {
      var t := TuningOf(profile);
      var c := Get(channels, o.name);
      var streak := if o.name in streaks then streaks[o.name] else 0;
      var (fed, next) := Filter(o.name, c, streak, t, o.elapsedMs);
      streaks := streaks[o.name := next];
      channels := channels[o.name := Observe(c, fed, o.items, o.bytes)];
      pressure := ComputePressure();
    }

    /** A raw timing skips the filter and the recomputation. */
    method ObserveLatency(o: Observation)
      modifies `channels
      ensures Value() == React(old(Value()), Feed(o))
    {
      channels := channels[o.name := Observe(Get(channels, o.name), o.elapsedMs, o.items, o.bytes)];
    }

    /** A new render-pass round drops the averages of its channel. */
    method ResetChannel(name: string)
      modifies `channels
      ensures Value() == React(old(Value()), Reset(name))
    {
      channels := channels - {name};
    }

    /** New telemetry: the level is computed again. */
    method UpdateTelemetry()
      modifies `pressure
      ensures Value() == React(old(Value()), Refresh)
    {
      pressure := ComputePressure();
    }

    /** A new profile changes the targets, not the stored level. */
    method UpdateProfile(newProfile: Profile)
      modifies `profile
      ensures Value() == React(old(Value()), ChangeProfile(newProfile))
    {
      profile := newProfile;
    }
  }
}
