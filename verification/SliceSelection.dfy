/** Parsing, disambiguating, shifting and re-printing a dimension's slice selection.

    Two range grammars compete for the same three-part text: Python's `start:stop:step`
    (exclusive stop) and MATLAB's `start:step:stop` (inclusive stop).  The main results say when
    the text printed for a shifted selection is read back as that selection. */
module SliceSelection {
  import opened Prelude
  import opened PythonRange
  import opened Text

  datatype Kind = ScalarKind | ListKind | RangeKind
  datatype Style = ScalarStyle | ListStyle | PythonStyle | MatlabStyle

  datatype Selection = Selection(
    kind: Kind, indices: seq<int>, text: string, style: Style, step: Option<int>, explicitStep: bool)

  datatype Error = BadAxisSize | EmptySelection | UnsupportedCharacters | InvalidRange | InvalidIndex | OutOfBounds

  // ---------------------------------------------------------------- characters

  predicate AllowedChar(c: char) {
    IsDigit(c) || IsSpace(c) || c == ':' || c == ';' || c == ',' || c == '+' || c == '-'
  }

  predicate Allowed(s: string) { forall k :: 0 <= k < |s| ==> AllowedChar(s[k]) }

  predicate IsListSeparator(c: char) { IsSpace(c) || c == ',' || c == ';' }

  /** `a - b` with plain decimal ends is a hyphenated range; it is repaired to `a:b`. */
  function Repair(text: string): Option<string> {
    var parts := Split(text, '-');
    if |parts| == 2 && IsNumeral(Strip(parts[0])) && IsNumeral(Strip(parts[1]))
    then Some(Digits(Decimal(Strip(parts[0]))) + ":" + Digits(Decimal(Strip(parts[1]))))
    else None
  }

  predicate IsNumeral(s: string) { s != [] && AllDigits(s) }

  predicate LooksLikeIndexList(text: string) {
    ',' in text || ';' in text || |Tokens(text, IsSpace)| > 1
  }

  // ---------------------------------------------------------------- range readings

  /** A blank part is an omitted endpoint; the outer `None` is a malformed integer. */
  function OptionalInt(part: string): Option<Option<int>> {
    if Strip(part) == [] then Some(None)
    else match ParseInt(part) case None => None case Some(i) => Some(Some(i))
  }

  function OptionalInts(parts: seq<string>): (r: Option<seq<Option<int>>>)
    ensures r.Some? ==> |r.value| == |parts|
  {
    if parts == [] then Some([])
    else
      match OptionalInt(parts[0])
      case None => None
      case Some(first) =>
        match OptionalInts(parts[1..])
        case None => None
        case Some(rest) => Some([first] + rest)
  }

  function Part(parts: seq<Option<int>>, k: nat): Option<int> {
    if k < |parts| then parts[k] else None
  }

  function PythonReading(text: string, n: nat): Option<Selection> {
    var raw := Split(text, ':');
    if |raw| > 3 then None
    else
      match OptionalInts(raw)
      case None => None
      case Some(parts) =>
        if Part(parts, 2) == Some(0) then None
        else
          var step := if Part(parts, 2).None? then 1 else Part(parts, 2).value;
          Some(Selection(RangeKind, SliceIndices(Part(parts, 0), Part(parts, 1), step, n),
                         Strip(text), PythonStyle, Some(step), |raw| == 3))
  }

  /** Negative endpoints count from the end; the result is clamped onto the axis. */
  function MatlabEndpoint(value: int, n: nat): int {
    Clamp(if value < 0 then value + n else value, 0, n - 1)
  }

  /** `start:step:stop` with both ends included. */
  function MatlabIndices(start: Option<int>, step: int, stop: Option<int>, n: nat): seq<int>
    requires step != 0
  {
    var first := MatlabEndpoint(if start.Some? then start.value else if step > 0 then 0 else n - 1, n);
    var last := MatlabEndpoint(if stop.Some? then stop.value else if step > 0 then n - 1 else 0, n);
    if step > 0 then Range(first, last + 1, step) else Range(first, last - 1, step)
  }

  function MatlabReading(text: string, n: nat): Option<Selection> {
    var raw := Split(text, ':');
    if |raw| != 3 || Strip(raw[1]) == [] then None
    else
      match OptionalInts(raw)
      case None => None
      case Some(parts) =>
        if parts[1].None? || parts[1] == Some(0) then None
        else
          var indices := MatlabIndices(parts[0], parts[1].value, parts[2], n);
          if indices == [] then None
          else Some(Selection(RangeKind, indices, Strip(text), MatlabStyle, parts[1], true))
  }

  /** Python wins unless it selects nothing, or at most one index where MATLAB selects several. */
  function Disambiguate(python: Option<Selection>, matlab: Option<Selection>): Result<Selection, Error> {
    if python.None? && matlab.None? then Err(InvalidRange)
    else if python.None? then Ok(matlab.value)
    else if matlab.Some? && (|python.value.indices| == 0
                             || (|python.value.indices| <= 1 && |matlab.value.indices| > 1)) then Ok(matlab.value)
    else if python.value.indices == [] then Err(EmptySelection)
    else Ok(python.value)
  }

  /** The Python reading as the program computes it: missing parts are padded one by one. */
  method TryPythonRange(text: string, n: nat) returns (r: Option<Selection>)
    ensures r == PythonReading(text, n)
  {
    var raw := Split(text, ':');
    if |raw| > 3 { return None; }
    var ints := OptionalInts(raw);
    if ints.None? { return None; }
    var parts := ints.value;
    while |parts| < 3
      invariant |ints.value| <= |parts| <= 3
      invariant forall k: nat :: Part(parts, k) == Part(ints.value, k)
    {
      parts := parts + [None];
    }
    assert parts[0] == Part(parts, 0) && parts[1] == Part(parts, 1) && parts[2] == Part(parts, 2);
    var start, stop, step := parts[0], parts[1], parts[2];
    if step == Some(0) { return None; }
    var stride := if step.None? then 1 else step.value;
    r := Some(Selection(RangeKind, SliceIndices(start, stop, stride, n), Strip(text), PythonStyle,
                        Some(stride), |raw| == 3));
  }

  /** The loop both directions of the MATLAB reading run: keep the end, stop past it. */
  method WalkInclusive(first: int, end: int, step: int) returns (indices: seq<int>)
    requires step != 0
    ensures indices == Range(first, if step > 0 then end + 1 else end - 1, step)
  {
    var current := first;
    indices := [];
    if step > 0 {
      while current <= end
        invariant indices + Range(current, end + 1, step) == Range(first, end + 1, step)
        decreases end - current
      {
        indices := indices + [current];
        current := current + step;
      }
    } else {
      while current >= end
        invariant indices + Range(current, end - 1, step) == Range(first, end - 1, step)
        decreases current - end
      {
        indices := indices + [current];
        current := current + step;
      }
    }
    assert indices + [] == indices;
  }

  /** The MATLAB reading as the program computes it: the index list grows one step at a time. */
  method TryMatlabRange(text: string, n: nat) returns (r: Option<Selection>)
    ensures r == MatlabReading(text, n)
  {
    var raw := Split(text, ':');
    if |raw| != 3 || Strip(raw[1]) == [] { return None; }
    var ints := OptionalInts(raw);
    if ints.None? { return None; }
    var parts := ints.value;
    if parts[1].None? || parts[1] == Some(0) { return None; }
    var step := parts[1].value;
    var start := if parts[0].Some? then parts[0].value else if step > 0 then 0 else n - 1;
    var stop := if parts[2].Some? then parts[2].value else if step > 0 then n - 1 else 0;
    var first, end := MatlabEndpoint(start, n), MatlabEndpoint(stop, n);
    var indices := WalkInclusive(first, end, step);
    assert indices == MatlabIndices(parts[0], step, parts[2], n);
    if indices == [] { return None; }
    r := Some(Selection(RangeKind, indices, Strip(text), MatlabStyle, Some(step), true));
  }

  // ---------------------------------------------------------------- parsing

  function ScalarIndex(text: string, n: nat): Result<int, Error> {
    match ParseInt(text)
    case None => Err(InvalidIndex)
    case Some(i) =>
      var index := if i < 0 then i + n else i;
      if 0 <= index < n then Ok(index) else Err(OutOfBounds)
  }

  /** List entries are clamped onto the axis instead of being refused. */
  function ListIndices(parts: seq<string>, n: nat): Result<seq<int>, Error> {
    if parts == [] then Ok([])
    else
      match ParseInt(parts[0])
      case None => Err(InvalidIndex)
      case Some(i) =>
        match ListIndices(parts[1..], n)
        case Err(e) => Err(e)
        case Ok(rest) => Ok([Clamp(if i < 0 then i + n else i, 0, n - 1)] + rest)
  }

  function Parse(text: string, axisSize: int): Result<Selection, Error> {
    if axisSize < 1 then Err(BadAxisSize)
    else
      var original := Strip(text);
      if original == [] then Err(EmptySelection)
      else if !Allowed(original) then Err(UnsupportedCharacters)
      else if Repair(original).Some? then
        var repaired := Repair(original).value;
        match PythonReading(repaired, axisSize)
        case None => Err(InvalidRange)
        case Some(p) =>
          if p.indices == [] then Err(EmptySelection)
          else Ok(Selection(RangeKind, p.indices, repaired, PythonStyle, Some(1), false))
      else if ':' in original then
        Disambiguate(PythonReading(original, axisSize), MatlabReading(original, axisSize))
      else if LooksLikeIndexList(original) then
        match ListIndices(Tokens(original, IsListSeparator), axisSize)
        case Err(e) => Err(e)
        case Ok(indices) =>
          if indices == [] then Err(EmptySelection)
          else Ok(Selection(ListKind, indices, Join(indices), ListStyle, None, false))
      else
        match ScalarIndex(original, axisSize)
        case Err(e) => Err(e)
        case Ok(index) => Ok(Selection(ScalarKind, [index], Show(index), ScalarStyle, None, false))
  }

  // ---------------------------------------------------------------- shifting and printing

  /** `" ".join(str(i) for i in indices)`. */
  function Join(indices: seq<int>): string {
    if indices == [] then []
    else if |indices| == 1 then Show(indices[0])
    else Show(indices[0]) + " " + Join(indices[1..])
  }

  function Least(s: seq<int>): (m: int)
    requires s != []
    ensures m in s && forall k :: 0 <= k < |s| ==> m <= s[k]
  {
    if |s| == 1 then s[0] else Min(s[0], Least(s[1..]))
  }

  function Greatest(s: seq<int>): (m: int)
    requires s != []
    ensures m in s && forall k :: 0 <= k < |s| ==> s[k] <= m
  {
    if |s| == 1 then s[0] else Max(s[0], Greatest(s[1..]))
  }

  /** The offset that keeps the whole selection on the axis. */
  function Offset(indices: seq<int>, requested: int, n: nat): int
    requires indices != []
  {
    Clamp(requested, -Least(indices), n - 1 - Greatest(indices))
  }

  function BoundedShift(indices: seq<int>, requested: int, n: nat): seq<int>
    requires indices != []
  {
    seq(|indices|, k requires 0 <= k < |indices| => Clamp(indices[k] + Offset(indices, requested, n), 0, n - 1))
  }

  function FormatMatlab(indices: seq<int>, step: int, explicitStep: bool): string
    requires indices != []
  {
    var start, stop := indices[0], indices[|indices| - 1];
    if explicitStep then Show(start) + ":" + Show(step) + ":" + Show(stop) else Show(start) + ":" + Show(stop)
  }

  function ExclusiveStop(last: int, step: int, n: nat): Option<int> {
    if step > 0 then Some(Min(n, last + step)) else if last + step < 0 then None else Some(last + step)
  }

  function ShowOptional(value: Option<int>): string { if value.None? then "" else Show(value.value) }

  function FormatPython(indices: seq<int>, step: int, explicitStep: bool, n: nat): string
    requires indices != []
  {
    var stop := ExclusiveStop(indices[|indices| - 1], step, n);
    if explicitStep || step != 1 then Show(indices[0]) + ":" + ShowOptional(stop) + ":" + Show(step)
    else Show(indices[0]) + ":" + ShowOptional(stop)
  }

  function StepOf(sel: Selection): int { if sel.step.None? then 1 else sel.step.value }

  /** What one unit of `delta` moves the selection by. */
  function StepSize(sel: Selection): int { if StepOf(sel) < 0 then -StepOf(sel) else StepOf(sel) }

  /** Every index of the selection after the shift. */
  function Moved(sel: Selection, delta: int, n: nat): seq<int>
    requires sel.indices != []
  {
    if delta == 0 then sel.indices
    else if sel.kind.ScalarKind? then [Clamp(sel.indices[0] + delta, 0, n - 1)]
    else BoundedShift(sel.indices, delta * StepSize(sel), n)
  }

  function Print(sel: Selection, delta: int, n: nat): string
    requires sel.indices != []
  {
    var shifted := Moved(sel, delta, n);
    if delta == 0 then sel.text
    else if sel.kind.ScalarKind? then Show(shifted[0])
    else if sel.kind.ListKind? then Join(shifted)
    else if sel.style.MatlabStyle? then FormatMatlab(shifted, StepOf(sel), sel.explicitStep)
    else FormatPython(shifted, StepOf(sel), sel.explicitStep, n)
  }

  function ShiftText(text: string, delta: int, axisSize: int): Result<string, Error> {
    match Parse(text, axisSize)
    case Err(e) => Err(e)
    case Ok(sel) => if sel.indices == [] then Err(EmptySelection) else Ok(Print(sel, delta, axisSize))
  }
}
