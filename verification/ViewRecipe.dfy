/** Saving a view as a mapping of optional fields, and rebuilding a view from any such mapping. */
module ViewRecipe {
  import opened Prelude
  import opened ViewState
  import opened ViewMigration

  /** A saved view: every field may be missing, and nothing ties their lengths together. */
  datatype Mapping = Mapping(
    shape: Option<seq<int>>, imageAxes: Option<seq<int>>, lineAxis: Option<int>, sliceIndices: Option<seq<int>>,
    channel: Option<string>, scale: Option<string>, flipped: Option<seq<bool>>, shifted: Option<seq<bool>>,
    montageAxis: Option<int>, montageColumns: Option<int>, montageIndices: Option<seq<int>>,
    montageText: Option<string>,
    ranges: Option<seq<Option<seq<int>>>>, texts: Option<seq<Option<string>>>)

  function ChannelName(c: Channel): string {
    match c
    case Complex => "complex"
    case Real => "real"
    case Imag => "imag"
    case AbsValue => "abs"
    case Angle => "angle"
  }

  function ChannelOf(name: string): Option<Channel> {
    if name == "complex" then Some(Complex) else if name == "real" then Some(Real)
    else if name == "imag" then Some(Imag) else if name == "abs" then Some(AbsValue)
    else if name == "angle" then Some(Angle) else None
  }

  function ScaleName(s: Scale): string {
    match s
    case Linear => "linear"
    case Log => "log"
    case SymLog => "symlog"
  }

  function ScaleOf(name: string): Option<Scale> {
    if name == "linear" then Some(Linear) else if name == "log" then Some(Log)
    else if name == "symlog" then Some(SymLog) else None
  }

  /** `view_state_to_mapping`. */
  function Save(v: View): Mapping {
    Mapping(Some(v.shape), v.imageAxes, v.lineAxis, Some(v.sliceIndices), Some(ChannelName(v.channel)),
            Some(ScaleName(v.scale)), Some(v.flipped), Some(v.shifted), v.montageAxis, v.montageColumns,
            v.montageIndices, v.montageText, Some(v.ranges), Some(v.texts))
  }

  /** `_per_axis`: exactly `n` entries, cut or padded. */
  function PerAxis<T>(values: Option<seq<T>>, n: nat, fill: T): (r: seq<T>)
    ensures |r| == n
    ensures forall k :: 0 <= k < n ==> r[k] == if values.Some? && k < |values.value| then values.value[k] else fill
  {
    var given := if values.Some? then values.value else [];
    if |given| >= n then given[..n] else given + seq(n - |given|, _ => fill)
  }

  /** A missing or empty shape stands for the shape the view is restored at. */
  function RecordedShape(m: Mapping, base: seq<int>): seq<int> {
    if m.shape.Some? && m.shape.value != [] then m.shape.value else base
  }

  /** The view as it was saved, at its own rank. */
  function Reconstituted(m: Mapping, base: seq<int>): Result<View, Error> {
    var shape := RecordedShape(m, base);
    var channel := ChannelOf(if m.channel.Some? then m.channel.value else "real");
    var scale := ScaleOf(if m.scale.Some? then m.scale.value else "linear");
    if channel.None? || scale.None? then Err(Invalid)
    else
      Make(View(|shape|, shape, m.imageAxes, m.lineAxis, PerAxis(m.sliceIndices, |shape|, 0),
                channel.value, scale.value, PerAxis(m.flipped, |shape|, false), PerAxis(m.shifted, |shape|, false),
                m.montageAxis, m.montageColumns, m.montageIndices, m.montageText,
                PerAxis(m.ranges, |shape|, None), PerAxis(m.texts, |shape|, None)))
  }

  /** `view_state_from_mapping`. */
  function Restore(m: Mapping, base: seq<int>): Result<View, Error> {
    var saved := Reconstituted(m, base);
    if saved.Err? then saved else ForShape(saved.value, base)
  }

  lemma NamesRoundTrip(c: Channel, s: Scale)
    ensures ChannelOf(ChannelName(c)) == Some(c) && ScaleOf(ScaleName(s)) == Some(s)
    ensures forall name :: ChannelOf(name) == Some(c) ==> name == ChannelName(c)
    ensures forall name :: ScaleOf(name) == Some(s) ==> name == ScaleName(s)
  {
    match c { case Complex => case Real => case Imag => case AbsValue => case Angle => }
    match s { case Linear => case Log => case SymLog => }
  }

  /** Whatever a mapping holds, restoring it either fails or gives a well-formed, canonically spelled
      view of the requested shape. */
  lemma AnyMappingIsSafe(m: Mapping, base: seq<int>)
    ensures Restore(m, base).Ok? ==>
              var v := Restore(m, base).value;
              Valid(v) && Canonical(v) && v.shape == base
  {
    var saved := Reconstituted(m, base);
    if saved.Ok? {
      var shape := RecordedShape(m, base);
      var channel := ChannelOf(if m.channel.Some? then m.channel.value else "real");
      var scale := ScaleOf(if m.scale.Some? then m.scale.value else "linear");
      MadeIsCanonical(View(|shape|, shape, m.imageAxes, m.lineAxis, PerAxis(m.sliceIndices, |shape|, 0),
                           channel.value, scale.value, PerAxis(m.flipped, |shape|, false),
                           PerAxis(m.shifted, |shape|, false), m.montageAxis, m.montageColumns, m.montageIndices,
                           m.montageText, PerAxis(m.ranges, |shape|, None), PerAxis(m.texts, |shape|, None)));
      MigrationIsValid(saved.value, base);
    }
  }

  /** What a mapping leaves out stands for real values and a linear scale, and for the shape it is restored at. */
  lemma MissingIsDefault(m: Mapping, base: seq<int>)
    ensures Reconstituted(m.(channel := None), base) == Reconstituted(m.(channel := Some("real")), base)
    ensures Reconstituted(m.(scale := None), base) == Reconstituted(m.(scale := Some("linear")), base)
  {
  }

  lemma MissingShapeIsTheBase(m: Mapping, base: seq<int>)
    ensures Reconstituted(m.(shape := None), base) == Reconstituted(m.(shape := Some(base)), base)
    ensures Reconstituted(m.(shape := Some([])), base) == Reconstituted(m.(shape := Some(base)), base)
  {
  }

  /** A channel or scale that has no such name is refused. */
  lemma UnknownNamesAreRefused(m: Mapping, base: seq<int>)
    ensures m.channel.Some? && (forall c :: ChannelName(c) != m.channel.value) ==> Restore(m, base).Err?
    ensures m.scale.Some? && (forall s :: ScaleName(s) != m.scale.value) ==> Restore(m, base).Err?
  {
    if m.channel.Some? && ChannelOf(m.channel.value).Some? {
      NamesRoundTrip(ChannelOf(m.channel.value).value, Linear);
      assert ChannelName(ChannelOf(m.channel.value).value) == m.channel.value;
    }
    if m.scale.Some? && ScaleOf(m.scale.value).Some? {
      NamesRoundTrip(Real, ScaleOf(m.scale.value).value);
      assert ScaleName(ScaleOf(m.scale.value).value) == m.scale.value;
    }
  }

  /** Saving loses nothing: what is restored at any shape is the saved view migrated to it. */
  lemma RestoreIsMigration(v: View, base: seq<int>)
    requires Valid(v) && Canonical(v)
    ensures Reconstituted(Save(v), base) == Ok(v)
    ensures Restore(Save(v), base) == ForShape(v, base)
  {
    NamesRoundTrip(v.channel, v.scale);
    var n := v.ndim;
    var m := Save(v);
    assert PerAxis(m.sliceIndices, n, 0) == v.sliceIndices;
    assert PerAxis(m.flipped, n, false) == v.flipped && PerAxis(m.shifted, n, false) == v.shifted;
    assert PerAxis(m.ranges, n, None) == v.ranges && PerAxis(m.texts, n, None) == v.texts;
    MakeIsIdentity(v);
  }

  /** A view that was migrated to a shape survives saving and reloading at that shape exactly when the
      migration emptied no montage selection and invented no image axes over a lone later axis. */
  lemma SaveAndReload(v: View, shape: seq<int>)
    requires Valid(v) && ShapeOk(shape)
    ensures ForShape(v, shape).Ok?
    ensures var m := ForShape(v, shape).value;
            Restore(Save(m), shape) == Ok(m) <==> !MontageEmptied(v, shape) && !LoneLaterAxis(v, shape)
  {
    MigrationIsValid(v, shape);
    RestoreIsMigration(ForShape(v, shape).value, shape);
    MigrationSettles(v, shape);
  }
}
