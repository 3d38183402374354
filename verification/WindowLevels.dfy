/** The window/level policy: which display levels and histogram range follow a new candidate source. */
module WindowLevels {
  import opened Prelude

  datatype Levels = Levels(low: real, high: real)

  datatype LevelMode = Auto | Relative | Absolute | UserLocked

  /** How trustworthy a source of levels is, least first. */
  datatype Rank = NoRank | Fallback | PreviousCommitted | VisibleSubset | MontageComplete | SampledFull | ExplicitUser

  function Order(r: Rank): nat {
    match r
    case NoRank => 0
    case Fallback => 1
    case PreviousCommitted => 2
    case VisibleSubset => 3
    case MontageComplete => 4
    case SampledFull => 5
    case ExplicitUser => 6
  }

  function Higher(a: Rank, b: Rank): Rank { if Order(b) > Order(a) then b else a }

  type Key = Option<int>

  datatype Source = Source(
    levels: Option<Levels>, histogram: Option<Levels>, rank: Rank, count: int, expected: int,
    key: Key, mode: LevelMode, quality: int)

  datatype State = State(
    key: Key, display: Levels, histogram: Levels, rank: Rank, count: int, expected: int,
    locked: bool, mode: LevelMode, quality: int)

  // ---------------------------------------------------------------- intervals

  /** An empty or inverted interval is widened about its low end. */
  function Normalize(b: Levels): Levels {
    if b.high > b.low then b
    else
      var radius := RMax((if b.low < 0.0 then -b.low else b.low) * 0.01, 0.5);
      Levels(b.low - radius, b.low + radius)
  }

  function Union(a: Levels, b: Levels): Levels {
    var a', b' := Normalize(a), Normalize(b);
    Levels(RMin(a'.low, b'.low), RMax(a'.high, b'.high))
  }

  predicate Increasing(b: Levels) { b.low < b.high }

  function Span(b: Levels): real { var n := Normalize(b); RMax(0.0, n.high - n.low) }

  /** Position of a value inside an interval: 0 at its low end, 1 at its high end. */
  function Fraction(v: real, b: Levels): real
    requires Increasing(b)
  {
    (v - b.low) / (b.high - b.low)
  }

  /** The levels at the same fractional position of another interval. */
  function RelativeLevels(levels: Levels, from: Levels, to: Levels): Levels {
    var l, f, t := Normalize(levels), Normalize(from), Normalize(to);
    var span := t.high - t.low;
    Levels(t.low + Fraction(l.low, f) * span, t.low + Fraction(l.high, f) * span)
  }

  // ---------------------------------------------------------------- the decision

  function NonNegative(n: int): int { Max(0, n) }

  function FromSource(source: Option<Source>, mode: LevelMode): Option<State> {
    if source.None? || source.value.levels.None? then None
    else
      var s := source.value;
      var levels := Normalize(s.levels.value);
      var m := if s.rank.ExplicitUser? then s.mode else mode;
      Some(State(s.key, levels, if s.histogram.Some? then Normalize(s.histogram.value) else levels, s.rank,
                 NonNegative(s.count), NonNegative(s.expected), s.rank.ExplicitUser? && !m.Relative?, m,
                 NonNegative(s.quality)))
  }

  predicate Complete(s: State) {
    Order(s.rank) >= Order(MontageComplete) || (s.expected > 0 && s.count >= s.expected)
  }

  /** Complete evidence of target quality. */
  predicate Mature(s: State) { Complete(s) && s.quality >= 2 }

  predicate RetainsPredecessor(previous: State, candidate: State) {
    previous.key != candidate.key && Order(previous.rank) >= Order(PreviousCommitted) && !Mature(candidate)
  }

  /** The candidate's metadata over the predecessor's visuals. */
  function Retained(previous: State, candidate: State, mode: LevelMode): State {
    State(candidate.key, previous.display, previous.histogram, PreviousCommitted, candidate.count,
          candidate.expected, false, mode, candidate.quality)
  }

  function FallbackState(mode: LevelMode): State {
    State(None, Levels(0.0, 1.0), Levels(0.0, 1.0), Fallback, 0, 0, false, mode, 0)
  }

  /** Metadata only ever accumulates. */
  function Accumulate(previous: State, candidate: State): State {
    previous.(rank := Higher(previous.rank, candidate.rank), count := Max(previous.count, candidate.count),
              expected := Max(previous.expected, candidate.expected),
              quality := Max(previous.quality, candidate.quality))
  }

  function HistogramWith(previous: State, candidate: State): Levels {
    if Complete(candidate) then candidate.histogram else Union(previous.histogram, candidate.histogram)
  }

  function UserDecision(previous: Option<State>, candidate: Option<State>, levels: Levels, mode: LevelMode): State {
    var locked := mode.Absolute?;
    var histogram :=
      if candidate.Some? then
        if Complete(candidate.value) || previous.None? then Normalize(candidate.value.histogram)
        else Union(previous.value.histogram, candidate.value.histogram)
      else if previous.Some? then previous.value.histogram else levels;
    var basis := if candidate.Some? then candidate else previous;
    var rank := if locked then ExplicitUser else if basis.Some? then basis.value.rank else PreviousCommitted;
    State(if basis.Some? then basis.value.key else None, levels, histogram, rank,
          if basis.Some? then basis.value.count else 0, if basis.Some? then basis.value.expected else 0,
          locked, if locked then UserLocked else Relative,
          NonNegative(if basis.Some? then basis.value.quality else 0))
  }

  function ExplicitAutoDecision(previous: Option<State>, candidate: Option<State>, mode: LevelMode): State {
    if candidate.Some? then
      if previous.Some? && RetainsPredecessor(previous.value, candidate.value)
      then Retained(previous.value, candidate.value, mode)
      else candidate.value.(locked := false, mode := mode)
    else if previous.Some? then
      previous.value.(locked := false, rank := Higher(previous.value.rank, PreviousCommitted), mode := mode)
    else FallbackState(mode)
  }

  /** A new semantic key whose evidence may take over at once. */
  function SuccessorDecision(previous: State, candidate: State, mode: LevelMode): State {
    match mode
    case Absolute =>
      candidate.(display := previous.display, locked := previous.locked,
                 mode := if previous.locked then previous.mode else mode)
    case Relative =>
      candidate.(display := Normalize(RelativeLevels(previous.display, previous.histogram, candidate.histogram)),
                 locked := false, mode := mode)
    case _ => candidate
  }

  /** The window is worth keeping: equally mature evidence must not shrink the range below it. */
  predicate KeepsAgainstShrink(previous: State, candidate: State) {
    && !(Mature(candidate) && candidate.quality > previous.quality)
    && Complete(candidate) && Span(candidate.histogram) < Span(previous.display)
  }

  /** More evidence for the same semantic key, window following its fractional position. */
  function RelativeUpdate(previous: State, candidate: State): State {
    var histogram, t := HistogramWith(previous, candidate), Accumulate(previous, candidate);
    if KeepsAgainstShrink(previous, candidate) then t.(locked := false, mode := Relative)
    else if histogram == previous.histogram && t.rank == previous.rank && t.count == previous.count then
      previous.(expected := t.expected, locked := false, mode := Relative, quality := t.quality)
    else
      t.(display := Normalize(RelativeLevels(previous.display, previous.histogram, histogram)),
         histogram := histogram, locked := false, mode := Relative)
  }

  /** The decision without user levels and without an explicit request for automatic levels. */
  function AutomaticDecision(previous: State, candidate: State, mode: LevelMode): State {
    var same := previous.key == candidate.key;
    if !same && RetainsPredecessor(previous, candidate) then Retained(previous, candidate, mode)
    else if same && previous.rank.PreviousCommitted? && !Mature(candidate) then Retained(previous, candidate, mode)
    else if previous.locked && same then
      Accumulate(previous, candidate).(histogram := Union(previous.histogram, candidate.histogram))
    else if !same then SuccessorDecision(previous, candidate, mode)
    else if mode.Absolute? then
      Accumulate(previous, candidate).(histogram := HistogramWith(previous, candidate), mode := mode)
    else if mode.Relative? then RelativeUpdate(previous, candidate)
    else
      Accumulate(previous, candidate).(histogram := HistogramWith(previous, candidate), locked := false, mode := mode)
  }

  function Decide(previous: Option<State>, source: Option<Source>, explicitAuto: bool, userLevels: Option<Levels>,
                  mode: LevelMode): State {
    var candidate := FromSource(source, mode);
    if userLevels.Some? && !explicitAuto then UserDecision(previous, candidate, Normalize(userLevels.value), mode)
    else if explicitAuto then ExplicitAutoDecision(previous, candidate, mode)
    else if candidate.None? then if previous.Some? then previous.value else FallbackState(mode)
    else if previous.None? then candidate.value
    else AutomaticDecision(previous.value, candidate.value, mode)
  }

  /** One automatic decision on a state already reached. */
  function Next(s: State, source: Option<Source>, mode: LevelMode): State { Decide(Some(s), source, false, None, mode) }

  // ---------------------------------------------------------------- fractional position

  predicate SamePosition(levels: Levels, b: Levels, levels': Levels, b': Levels) {
    && Increasing(b) && Increasing(b')
    && Fraction(levels.low, b) == Fraction(levels'.low, b') && Fraction(levels.high, b) == Fraction(levels'.high, b')
  }

  /** Mapped levels keep their fractional position and their order. */
  lemma RelativeKeepsPosition(levels: Levels, from: Levels, to: Levels)
    requires Increasing(levels) && Increasing(from) && Increasing(to)
    ensures Increasing(RelativeLevels(levels, from, to))
    ensures SamePosition(levels, from, RelativeLevels(levels, from, to), to)
  {
    var p, q := Fraction(levels.low, from), Fraction(levels.high, from);
    var mapped := Levels(to.low + p * (to.high - to.low), to.low + q * (to.high - to.low));
    assert RelativeLevels(levels, from, to) == mapped;
  }

  /** A position inside an interval determines the levels. */
  lemma PositionDetermines(levels: Levels, levels': Levels, b: Levels)
    requires SamePosition(levels, b, levels', b)
    ensures levels == levels'
  {
  }

  /** Mapping in two steps is mapping in one, and mapping back returns the levels. */
  lemma RelativeComposesAndInverts(levels: Levels, a: Levels, b: Levels, c: Levels)
    requires Increasing(levels) && Increasing(a) && Increasing(b) && Increasing(c)
    ensures RelativeLevels(RelativeLevels(levels, a, b), b, c) == RelativeLevels(levels, a, c)
    ensures RelativeLevels(RelativeLevels(levels, a, b), b, a) == levels
  {
    var m := RelativeLevels(levels, a, b);
    RelativeKeepsPosition(levels, a, b);
    RelativeKeepsPosition(m, b, c);
    RelativeKeepsPosition(levels, a, c);
    PositionDetermines(RelativeLevels(m, b, c), RelativeLevels(levels, a, c), c);
    RelativeKeepsPosition(m, b, a);
    PositionDetermines(RelativeLevels(m, b, a), levels, a);
  }

  // ---------------------------------------------------------------- runs of automatic relative decisions

  predicate WellFormed(s: State) { Increasing(s.display) && Increasing(s.histogram) }

  lemma RelativeStep(s: State, source: Option<Source>)
    requires WellFormed(s) && !s.locked
    ensures var t := Next(s, source, Relative);
            WellFormed(t) && !t.locked && SamePosition(s.display, s.histogram, t.display, t.histogram)
  {
    var candidate := FromSource(source, Relative);
    if candidate.Some? {
      var c := candidate.value;
      RelativeKeepsPosition(s.display, s.histogram, c.histogram);
      RelativeKeepsPosition(s.display, s.histogram, HistogramWith(s, c));
    }
  }

  function Run(s: State, sources: seq<Option<Source>>): State
    decreases |sources|
  {
    if sources == [] then s else Run(Next(s, sources[0], Relative), sources[1..])
  }

  /** However the evidence arrives, the window stays at its fractional position of the histogram range. */
  lemma {:induction false} RelativeRunKeepsPosition(s: State, sources: seq<Option<Source>>)
    requires WellFormed(s) && !s.locked
    ensures var t := Run(s, sources);
            WellFormed(t) && !t.locked && SamePosition(s.display, s.histogram, t.display, t.histogram)
    decreases |sources|
  {
    if sources != [] {
      RelativeStep(s, sources[0]);
      RelativeRunKeepsPosition(Next(s, sources[0], Relative), sources[1..]);
    }
  }

  /** Two runs from one state that end on one histogram range end on the same levels. */
  lemma PathsAgree(s: State, left: seq<Option<Source>>, right: seq<Option<Source>>)
    requires WellFormed(s) && !s.locked && Run(s, left).histogram == Run(s, right).histogram
    ensures Run(s, left).display == Run(s, right).display
  {
    RelativeRunKeepsPosition(s, left);
    RelativeRunKeepsPosition(s, right);
    PositionDetermines(Run(s, left).display, Run(s, right).display, Run(s, left).histogram);
  }

  // ---------------------------------------------------------------- holding an immature successor

  /** One automatic decision: a candidate, if any, and the mode it is decided in. */
  datatype Input = Input(source: Option<Source>, mode: LevelMode)

  function RunInputs(s: State, inputs: seq<Input>): State
    decreases |inputs|
  {
    if inputs == [] then s else RunInputs(Next(s, inputs[0].source, inputs[0].mode), inputs[1..])
  }

  predicate Immature(i: Input) {
    FromSource(i.source, i.mode).Some? ==> !Mature(FromSource(i.source, i.mode).value)
  }

  lemma {:induction false} HeldStaysHeld(s: State, inputs: seq<Input>)
    requires s.rank == PreviousCommitted && !s.locked && forall k :: 0 <= k < |inputs| ==> Immature(inputs[k])
    ensures var t := RunInputs(s, inputs);
            t.display == s.display && t.histogram == s.histogram && t.rank == PreviousCommitted && !t.locked
    decreases |inputs|
  {
    if inputs != [] { HeldStaysHeld(Next(s, inputs[0].source, inputs[0].mode), inputs[1..]); }
  }

  /** Once an immature candidate of a new key meets a committed predecessor, no sequence of immature
      candidates, of any keys and in any modes, moves the display levels or the histogram range. */
  lemma ImmatureSuccessorsMoveNothing(s: State, inputs: seq<Input>)
    requires Order(s.rank) >= Order(PreviousCommitted) && inputs != []
    requires forall k :: 0 <= k < |inputs| ==> Immature(inputs[k])
    requires FromSource(inputs[0].source, inputs[0].mode).Some?
    requires FromSource(inputs[0].source, inputs[0].mode).value.key != s.key
    ensures var t := RunInputs(s, inputs);
            t.display == s.display && t.histogram == s.histogram && t.rank == PreviousCommitted && !t.locked
  {
    HeldStaysHeld(Next(s, inputs[0].source, inputs[0].mode), inputs[1..]);
  }

  /** When a mature candidate ends the hold in relative mode, the histogram range becomes its own in one
      step exactly when the key changes, its quality is strictly higher, or nothing would shrink. */
  lemma MatureReleasesTheHold(held: State, source: Option<Source>)
    requires held.rank == PreviousCommitted && !held.locked && WellFormed(held)
    requires FromSource(source, Relative).Some? && Mature(FromSource(source, Relative).value)
    ensures var c := FromSource(source, Relative).value;
            Next(held, source, Relative).histogram == c.histogram
            <==> c.key != held.key || c.quality > held.quality
                 || c.histogram.high - c.histogram.low >= held.display.high - held.display.low
                 || c.histogram == held.histogram
  {}

  /** The complete target-quality population that does not end its hold: its predecessor of the same
      key was already of target quality while incomplete, and its range is narrower than the window. */
  lemma HoldCanOutliveCompleteEvidence()
    ensures var s := State(Some(0), Levels(0.0, 10.0), Levels(0.0, 10.0), SampledFull, 4, 4, false, Relative, 2);
            var partial := Source(Some(Levels(2.0, 3.0)), None, VisibleSubset, 1, 4, Some(1), Relative, 2);
            var complete := Source(Some(Levels(2.0, 4.0)), None, SampledFull, 4, 4, Some(1), Relative, 2);
            var t := RunInputs(s, [Input(Some(partial), Relative), Input(Some(complete), Relative)]);
            t.display == s.display && t.histogram == s.histogram && Mature(FromSource(Some(complete), Relative).value)
  {
    var s := State(Some(0), Levels(0.0, 10.0), Levels(0.0, 10.0), SampledFull, 4, 4, false, Relative, 2);
    var partial := Source(Some(Levels(2.0, 3.0)), None, VisibleSubset, 1, 4, Some(1), Relative, 2);
    var complete := Source(Some(Levels(2.0, 4.0)), None, SampledFull, 4, 4, Some(1), Relative, 2);
    var inputs := [Input(Some(partial), Relative), Input(Some(complete), Relative)];
    var c, d := FromSource(Some(partial), Relative).value, FromSource(Some(complete), Relative).value;
    var held := Retained(s, c, Relative);
    assert Next(s, Some(partial), Relative) == held;
    assert KeepsAgainstShrink(held, d);
    var next := Next(held, Some(complete), Relative);
    assert next.display == s.display && next.histogram == s.histogram;
    assert inputs[1..] == [Input(Some(complete), Relative)] && inputs[1..][1..] == [];
    assert RunInputs(s, inputs) == RunInputs(held, inputs[1..]) == RunInputs(next, []) == next;
  }

  // ---------------------------------------------------------------- absolute mode and user locks

  /** In absolute mode no automatic decision ever moves the display levels. */
  lemma {:induction false} AbsoluteNeverMoves(s: State, inputs: seq<Input>)
    requires forall k :: 0 <= k < |inputs| ==> inputs[k].mode == Absolute
    ensures RunInputs(s, inputs).display == s.display
    decreases |inputs|
  {
    if inputs != [] { AbsoluteNeverMoves(Next(s, inputs[0].source, Absolute), inputs[1..]); }
  }

  /** What a decision knows of a state when it settles the lock: no levels and no ranges. */
  datatype Holder = Holder(key: Key, rank: Rank, locked: bool)

  function HolderOf(s: State): Holder { Holder(s.key, s.rank, s.locked) }

  /** Immature evidence that meets a committed predecessor: of its own key at that very rank, of another at any
      rank from there on. */
  predicate Withheld(h: Holder, c: State) {
    !Mature(c)
    && if c.key == h.key then h.rank.PreviousCommitted? else Order(h.rank) >= Order(PreviousCommitted)
  }

  /** No candidate, one of the same key that is not withheld, or one of another key taken over in absolute mode. */
  predicate KeepsLock(h: Holder, i: Input) {
    var candidate := FromSource(i.source, i.mode);
    candidate.Some? ==>
      !Withheld(h, candidate.value) && (candidate.value.key == h.key || i.mode.Absolute?)
  }

  /** A candidate of another key that arrives as a user lock of its own and takes the state over. */
  predicate BringsLock(h: Holder, i: Input) {
    var candidate := FromSource(i.source, i.mode);
    candidate.Some?
    && var c := candidate.value;
       c.key != h.key && !Withheld(h, c) && !i.mode.Absolute? && !i.mode.Relative? && c.locked
  }

  function Follow(h: Holder, i: Input): Holder {
    var candidate := FromSource(i.source, i.mode);
    if candidate.None? then h
    else
      var c := candidate.value;
      Holder(c.key,
             if Withheld(h, c) then PreviousCommitted else if c.key == h.key then Higher(h.rank, c.rank) else c.rank,
             (h.locked && KeepsLock(h, i)) || BringsLock(h, i))
  }

  function FollowAll(h: Holder, inputs: seq<Input>): Holder
    decreases |inputs|
  {
    if inputs == [] then h else FollowAll(Follow(h, inputs[0]), inputs[1..])
  }

  /** One automatic decision settles key, rank and lock from key, rank and lock; a kept lock keeps the display
      levels. */
  lemma LockAfterOneDecision(s: State, i: Input)
    ensures HolderOf(Next(s, i.source, i.mode)) == Follow(HolderOf(s), i)
    ensures s.locked && KeepsLock(HolderOf(s), i) ==> Next(s, i.source, i.mode).display == s.display
  {
  }

  lemma {:induction false} LockAfterRun(s: State, inputs: seq<Input>)
    ensures HolderOf(RunInputs(s, inputs)) == FollowAll(HolderOf(s), inputs)
    decreases |inputs|
  {
    if inputs != [] {
      LockAfterOneDecision(s, inputs[0]);
      LockAfterRun(Next(s, inputs[0].source, inputs[0].mode), inputs[1..]);
    }
  }

  lemma {:induction false} RunLast(s: State, inputs: seq<Input>, last: Input)
    ensures RunInputs(s, inputs + [last]) == Next(RunInputs(s, inputs), last.source, last.mode)
    decreases |inputs|
  {
    if inputs != [] {
      assert (inputs + [last])[1..] == inputs[1..] + [last];
      RunLast(Next(s, inputs[0].source, inputs[0].mode), inputs[1..], last);
    }
  }

  /** A lock is there before input `k`, from the start or just brought, and every input from `k` on keeps it. */
  predicate LockedSince(h: Holder, inputs: seq<Input>, k: nat)
    requires k <= |inputs|
  {
    && (if k == 0 then h.locked else BringsLock(FollowAll(h, inputs[..k - 1]), inputs[k - 1]))
    && forall j :: k <= j < |inputs| ==> KeepsLock(FollowAll(h, inputs[..j]), inputs[j])
  }

  lemma LockedSinceLast(h: Holder, inputs: seq<Input>, last: Input, k: nat)
    requires k <= |inputs|
    ensures LockedSince(h, inputs + [last], k)
            <==> LockedSince(h, inputs, k) && KeepsLock(FollowAll(h, inputs), last)
  {
    var all := inputs + [last];
    assert all[..|inputs|] == inputs;
    assert forall j :: 0 <= j <= |inputs| ==> all[..j] == inputs[..j];
    assert forall j :: 0 <= j < |inputs| ==> all[j] == inputs[j];
  }

  lemma JustLocked(h: Holder, inputs: seq<Input>, last: Input)
    ensures LockedSince(h, inputs + [last], |inputs| + 1) <==> BringsLock(FollowAll(h, inputs), last)
  {
    assert (inputs + [last])[..|inputs|] == inputs;
  }

  /** After any run of automatic decisions, about any keys and in any modes, the state is locked if and only if
      some lock, the first state's or one a candidate brought, met only inputs that keep it; the display levels
      are then the ones it came with. Keys, ranks and maturity decide this, no levels do. */
  lemma {:induction false} LockedAfterRunExactlyIf(s: State, inputs: seq<Input>)
    ensures RunInputs(s, inputs).locked
            <==> exists k: nat :: k <= |inputs| && LockedSince(HolderOf(s), inputs, k)
    ensures forall k: nat :: k <= |inputs| && LockedSince(HolderOf(s), inputs, k) ==>
              RunInputs(s, inputs).display == RunInputs(s, inputs[..k]).display
    decreases |inputs|
  {
    var h, n := HolderOf(s), |inputs|;
    if n == 0 {
      assert LockedSince(h, inputs, 0) <==> h.locked;
    } else {
      var init, last := inputs[..n - 1], inputs[n - 1];
      assert inputs == init + [last];
      var t := RunInputs(s, init);
      RunLast(s, init, last);
      LockAfterRun(s, init);
      LockAfterOneDecision(t, last);
      LockedAfterRunExactlyIf(s, init);
      JustLocked(h, init, last);
      forall k: nat | k <= n - 1
        ensures LockedSince(h, inputs, k) <==> LockedSince(h, init, k) && KeepsLock(FollowAll(h, init), last)
      {
        LockedSinceLast(h, init, last, k);
      }
      forall k: nat | k <= n && LockedSince(h, inputs, k)
        ensures RunInputs(s, inputs).display == RunInputs(s, inputs[..k]).display
      {
        if k == n { assert inputs[..k] == inputs; } else { assert inputs[..k] == init[..k]; }
      }
    }
  }

  /** Every candidate among the inputs is about `key`. */
  predicate AllAbout(key: Key, inputs: seq<Input>) {
    forall k :: 0 <= k < |inputs| ==>
      FromSource(inputs[k].source, inputs[k].mode).Some? ==>
            FromSource(inputs[k].source, inputs[k].mode).value.key == key
  }

  /** No immature candidate arrives while the highest rank so far is that of a committed predecessor. */
  predicate Unshaken(rank: Rank, inputs: seq<Input>)
    decreases |inputs|
  {
    if inputs == [] then true
    else
      var candidate := FromSource(inputs[0].source, inputs[0].mode);
      if candidate.None? then Unshaken(rank, inputs[1..])
      else
        !(rank.PreviousCommitted? && !Mature(candidate.value))
        && Unshaken(Higher(rank, candidate.value.rank), inputs[1..])
  }

  /** Evidence about its own key never gives an unlocked state a lock. */
  lemma {:induction false} UnlockedStaysUnlocked(s: State, inputs: seq<Input>)
    requires !s.locked && AllAbout(s.key, inputs)
    ensures !RunInputs(s, inputs).locked && RunInputs(s, inputs).key == s.key
    decreases |inputs|
  {
    if inputs != [] { UnlockedStaysUnlocked(Next(s, inputs[0].source, inputs[0].mode), inputs[1..]); }
  }

  /** A lock survives evidence about its own key, in every mode, if and only if no immature candidate
      arrives while the highest rank so far is that of a committed predecessor; while it survives the
      display levels do not move. */
  lemma {:induction false} LockSurvivesExactlyIf(s: State, inputs: seq<Input>)
    requires s.locked && AllAbout(s.key, inputs)
    ensures var t := RunInputs(s, inputs);
            (t.locked <==> Unshaken(s.rank, inputs)) && (t.locked ==> t.display == s.display && t.key == s.key)
    decreases |inputs|
  {
    if inputs != [] {
      var next := Next(s, inputs[0].source, inputs[0].mode);
      LockAfterOneDecision(s, inputs[0]);
      if next.locked {
        LockSurvivesExactlyIf(next, inputs[1..]);
      } else {
        UnlockedStaysUnlocked(next, inputs[1..]);
      }
    }
  }

  lemma {:induction false} HighRanksAreUnshaken(rank: Rank, inputs: seq<Input>)
    requires Order(rank) > Order(PreviousCommitted)
    ensures Unshaken(rank, inputs)
    decreases |inputs|
  {
    if inputs != [] {
      var candidate := FromSource(inputs[0].source, inputs[0].mode);
      HighRanksAreUnshaken(if candidate.Some? then Higher(rank, candidate.value.rank) else rank, inputs[1..]);
    }
  }

  /** A lock above the rank of a committed predecessor survives all evidence about its own key. */
  lemma LockSurvives(s: State, inputs: seq<Input>)
    requires s.locked && Order(s.rank) > Order(PreviousCommitted) && AllAbout(s.key, inputs)
    ensures var t := RunInputs(s, inputs); t.display == s.display && t.locked && t.key == s.key
  {
    HighRanksAreUnshaken(s.rank, inputs);
    LockSurvivesExactlyIf(s, inputs);
  }

  /** A user lock can be lost all the same: carried in absolute mode to a new key by mature evidence of a
      committed predecessor, it takes that rank, and immature evidence of the same key then drops it. */
  lemma LockCanBeLost(s: State, mature: Source, immature: Source)
    requires s.locked && s.rank.ExplicitUser?
    requires mature.levels.Some? && mature.rank.PreviousCommitted? && mature.key != s.key && mature.quality >= 2
    requires 0 < mature.expected <= mature.count
    requires immature.levels.Some? && immature.key == mature.key && immature.quality < 2
    ensures var carried := Next(s, Some(mature), Absolute);
            && carried.locked && carried.key == mature.key && carried.display == s.display
            && !Next(carried, Some(immature), Absolute).locked
  {
    var carried := Next(s, Some(mature), Absolute);
    LockAfterOneDecision(s, Input(Some(mature), Absolute));
    LockAfterOneDecision(carried, Input(Some(immature), Absolute));
  }

  // ---------------------------------------------------------------- what one automatic decision leaves

  /** Levels are widened only where they are not increasing, then to one about their low end: by a hundredth of it
      either way, and by at least a half. */
  lemma NormalizeWidens(b: Levels)
    ensures var n := Normalize(b);
            && Increasing(n) && (Increasing(b) ==> n == b)
            && (!Increasing(b) ==>
                  && n.low + n.high == 2.0 * b.low && n.high - n.low >= 1.0
                  && (n.high - n.low) * 50.0 >= b.low && (n.high - n.low) * 50.0 >= -b.low
                  && (n.high - n.low == 1.0 || (n.high - n.low) * 50.0 == b.low || (n.high - n.low) * 50.0 == -b.low))
  {
  }

  predicate Covers(outer: Levels, inner: Levels) { outer.low <= inner.low && inner.high <= outer.high }

  /** The least range that covers both. */
  predicate IsHull(h: Levels, a: Levels, b: Levels) {
    && Covers(h, a) && Covers(h, b) && (h.low == a.low || h.low == b.low) && (h.high == a.high || h.high == b.high)
  }

  /** A source is taken at its word: its levels, its range or else its levels for one, its counts from zero up. Levels
      the user set bring their own mode, and a lock outside relative mode. */
  lemma SourceIsTakenOver(source: Source, mode: LevelMode)
    requires source.levels.Some?
    ensures FromSource(Some(source), mode).Some?
    ensures var c, user := FromSource(Some(source), mode).value, source.rank.ExplicitUser?;
            && c.display == Normalize(source.levels.value)
            && c.histogram == Normalize(if source.histogram.Some? then source.histogram.value else source.levels.value)
            && c.key == source.key && c.rank == source.rank && c.mode == (if user then source.mode else mode)
            && c.locked == (user && !source.mode.Relative?)
            && c.count == Max(0, source.count) && c.expected == Max(0, source.expected)
            && c.quality == Max(0, source.quality)
  {
    NormalizeWidens(source.levels.value);
  }

  /** Evidence that is withheld leaves the picture alone and is remembered all the same, as that of a committed
      predecessor. */
  lemma WithheldLeavesThePicture(s: State, source: Option<Source>, mode: LevelMode)
    requires FromSource(source, mode).Some? && Withheld(HolderOf(s), FromSource(source, mode).value)
    ensures var c, t := FromSource(source, mode).value, Next(s, source, mode);
            && t.display == s.display && t.histogram == s.histogram && t.rank.PreviousCommitted? && !t.locked
            && t.key == c.key && t.count == c.count && t.expected == c.expected && t.quality == c.quality
            && t.mode == mode
  {
  }

  /** Evidence of another key that is not withheld takes the state over: in absolute mode the levels shown and a lock
      stay, in relative mode the levels keep their place in the range, and otherwise nothing of the old state does. */
  lemma NewKeyTakesOver(s: State, source: Option<Source>, mode: LevelMode)
    requires FromSource(source, mode).Some? && FromSource(source, mode).value.key != s.key
    requires !Withheld(HolderOf(s), FromSource(source, mode).value)
    ensures var c, t := FromSource(source, mode).value, Next(s, source, mode);
            && t.key == c.key && t.rank == c.rank && t.count == c.count && t.expected == c.expected
            && t.quality == c.quality && t.histogram == c.histogram
            && match mode
               case Absolute =>
                 t.display == s.display && t.locked == s.locked && t.mode == if s.locked then s.mode else mode
               case Relative =>
                 && !t.locked && t.mode == mode
                 && (WellFormed(s) ==> SamePosition(s.display, s.histogram, t.display, t.histogram))
               case _ => t == c
  {
    var c := FromSource(source, mode).value;
    if WellFormed(s) { RelativeKeepsPosition(s.display, s.histogram, c.histogram); }
  }

  /** More evidence of the same key that is not withheld adds to what is known and forgets nothing. The range becomes
      that of complete evidence, and the hull of both otherwise and under a lock; only in relative mode does a window
      wider than complete evidence of no higher quality keep its range. A lock keeps the levels shown and its mode;
      without one the levels move in relative mode only, and with the range. */
  lemma OwnEvidenceAdds(s: State, source: Option<Source>, mode: LevelMode)
    requires WellFormed(s) && FromSource(source, mode).Some? && FromSource(source, mode).value.key == s.key
    requires !Withheld(HolderOf(s), FromSource(source, mode).value)
    ensures var c, t := FromSource(source, mode).value, Next(s, source, mode);
            && t.key == s.key && Order(t.rank) == Max(Order(s.rank), Order(c.rank)) && t.count == Max(s.count, c.count)
            && t.expected == Max(s.expected, c.expected) && t.quality == Max(s.quality, c.quality)
            && t.locked == s.locked && t.mode == (if s.locked then s.mode else mode)
            && if s.locked then t.display == s.display && IsHull(t.histogram, s.histogram, c.histogram)
               else if mode.Relative? && Complete(c) && !(Mature(c) && c.quality > s.quality)
                       && c.histogram.high - c.histogram.low < s.display.high - s.display.low
               then t.display == s.display && t.histogram == s.histogram
               else
                 && (if Complete(c) then t.histogram == c.histogram else IsHull(t.histogram, s.histogram, c.histogram))
                 && (mode.Relative? ==> SamePosition(s.display, s.histogram, t.display, t.histogram))
                 && (!mode.Relative? ==> t.display == s.display)
  {
    var c := FromSource(source, mode).value;
    if mode.Relative? && !s.locked { RelativeStep(s, source); }
  }

  // ---------------------------------------------------------------- what the user asks for

  /** Levels the user sets are shown, whatever the evidence says; they lock in absolute mode and no other. The rest is
      told of the evidence, or without any of the state before, and its range hides none of it. */
  lemma UserLevelsAreShown(previous: Option<State>, source: Option<Source>, levels: Levels, mode: LevelMode)
    ensures var t, candidate := Decide(previous, source, false, Some(levels), mode), FromSource(source, mode);
            && t.display == Normalize(levels)
            && (t.locked <==> mode.Absolute?) && t.mode == (if t.locked then UserLocked else Relative)
            && (t.locked ==> t.rank.ExplicitUser?)
            && var told := if candidate.Some? then candidate else previous;
               if told.None? then t.key.None? && t.histogram == t.display && (!t.locked ==> t.rank.PreviousCommitted?)
               else
                 && t.key == told.value.key && t.count == told.value.count && t.expected == told.value.expected
                 && t.quality == Max(0, told.value.quality)
                 && (!t.locked ==> t.rank == told.value.rank)
                 && Covers(t.histogram, told.value.histogram)
                 && (candidate.Some? && previous.Some? && !Complete(candidate.value) ==>
                       Covers(t.histogram, previous.value.histogram))
                 && (candidate.Some? && Complete(candidate.value) ==> t.histogram == told.value.histogram)
  {
  }

  /** An explicit request for automatic levels releases every lock and overrides levels set at the same time. It shows
      the evidence as it is, unless that is immature and would replace a committed view of another key. */
  lemma ExplicitAutoReleases(previous: Option<State>, source: Option<Source>, user: Option<Levels>, mode: LevelMode)
    ensures var t, candidate := Decide(previous, source, true, user, mode), FromSource(source, mode);
            && !t.locked && t.mode == mode
            && match (candidate, previous)
               case (None, None) => t == State(None, Levels(0.0, 1.0), Levels(0.0, 1.0), Fallback, 0, 0, false, mode, 0)
               case (None, Some(p)) =>
                 t.display == p.display && t.histogram == p.histogram && t.key == p.key
                 && Order(t.rank) == Max(Order(p.rank), Order(PreviousCommitted))
               case (Some(c), _) =>
                 && t.key == c.key && t.count == c.count && t.expected == c.expected && t.quality == c.quality
                 && if previous.Some? && previous.value.key != c.key && !Mature(c)
                       && Order(previous.value.rank) >= Order(PreviousCommitted)
                    then t.display == previous.value.display && t.histogram == previous.value.histogram
                         && t.rank.PreviousCommitted?
                    else t.display == c.display && t.histogram == c.histogram && t.rank == c.rank
  {
  }

  /** One decision in absolute mode: evidence that arrives, levels the user sets, or a request for automatic ones. */
  datatype Event = Evidence(source: Option<Source>) | SetLevels(levels: Levels, source: Option<Source>)
                 | AskAuto(source: Option<Source>)

  function Absolutely(s: State, e: Event): State {
    match e
    case Evidence(source) => Decide(Some(s), source, false, None, Absolute)
    case SetLevels(levels, source) => Decide(Some(s), source, false, Some(levels), Absolute)
    case AskAuto(source) => Decide(Some(s), source, true, None, Absolute)
  }

  function RunAbsolutely(s: State, events: seq<Event>): State
    decreases |events|
  {
    if events == [] then s else RunAbsolutely(Absolutely(s, events[0]), events[1..])
  }

  /** The levels set last, or else those shown before. */
  function LastSet(shown: Levels, events: seq<Event>): Levels
    decreases |events|
  {
    if events == [] then shown
    else LastSet(if events[0].SetLevels? then Normalize(events[0].levels) else shown, events[1..])
  }

  /** In absolute mode, until automatic levels are asked for, what is shown is what the user set last, whatever evidence
      of whatever keys arrives in between. */
  lemma {:induction false} ShownIsLastSet(s: State, events: seq<Event>)
    requires forall k :: 0 <= k < |events| ==> !events[k].AskAuto?
    ensures RunAbsolutely(s, events).display == LastSet(s.display, events)
    decreases |events|
  {
    if events != [] { ShownIsLastSet(Absolutely(s, events[0]), events[1..]); }
  }
}
