/** What is read back from the text printed for a shifted selection. */
module SliceRoundTrip {
  import opened Prelude
  import opened PythonRange
  import opened Text
  import opened SliceSelection

  // ---------------------------------------------------------------- what parsing guarantees

  /** Every index is on the axis, and a range is a walk by its own step. */
  predicate Sound(sel: Selection, n: nat) {
    && sel.indices != []
    && (forall k :: 0 <= k < |sel.indices| ==> 0 <= sel.indices[k] < n)
    && (sel.kind.ScalarKind? ==> |sel.indices| == 1 && sel.step == None)
    && (sel.kind.ListKind? ==> sel.step == None)
    && (sel.kind.RangeKind? ==>
          && sel.step.Some? && sel.step.value != 0 && (sel.style.PythonStyle? || sel.style.MatlabStyle?)
          && sel.indices == Arith(sel.indices[0], sel.step.value, |sel.indices|)
          && (!sel.explicitStep ==> sel.style.PythonStyle? && sel.step == Some(1)))
  }

  lemma PythonReadingSound(text: string, n: nat)
    requires PythonReading(text, n).Some? && PythonReading(text, n).value.indices != []
    ensures Sound(PythonReading(text, n).value, n)
  {
    var parts := OptionalInts(Split(text, ':')).value;
    var step := PythonReading(text, n).value.step.value;
    SliceInBounds(Part(parts, 0), Part(parts, 1), step, n);
    RangeIsArith(SliceStart(Part(parts, 0), step, n), SliceStop(Part(parts, 1), step, n), step);
  }

  lemma MatlabIndicesSound(start: Option<int>, step: int, stop: Option<int>, n: nat)
    requires n > 0 && step != 0
    ensures var r := MatlabIndices(start, step, stop, n);
            && (forall k :: 0 <= k < |r| ==> 0 <= r[k] < n)
            && (r != [] ==> r == Arith(r[0], step, |r|))
  {
    var r := MatlabIndices(start, step, stop, n);
    var first := MatlabEndpoint(if start.Some? then start.value else if step > 0 then 0 else n - 1, n);
    var last := MatlabEndpoint(if stop.Some? then stop.value else if step > 0 then n - 1 else 0, n);
    RangeIsArith(first, if step > 0 then last + 1 else last - 1, step);
    if r != [] { ArithLast(first, step, |r|); }
  }

  lemma MatlabReadingSound(text: string, n: nat)
    requires n > 0 && MatlabReading(text, n).Some?
    ensures Sound(MatlabReading(text, n).value, n)
  {
    var parts := OptionalInts(Split(text, ':')).value;
    MatlabIndicesSound(parts[0], parts[1].value, parts[2], n);
  }

  lemma {:induction false} ListIndicesInBounds(parts: seq<string>, n: nat)
    requires n > 0 && ListIndices(parts, n).Ok?
    ensures forall k :: 0 <= k < |ListIndices(parts, n).value| ==> 0 <= ListIndices(parts, n).value[k] < n
  {
    if parts != [] { ListIndicesInBounds(parts[1..], n); }
  }

  /** Whatever text is accepted, the indices it selects exist. */
  lemma ParseSound(text: string, n: int)
    requires Parse(text, n).Ok?
    ensures n >= 1 && Sound(Parse(text, n).value, n)
  {
    var original := Strip(text);
    if Repair(original).Some? {
      PythonReadingSound(Repair(original).value, n);
      RepairedStep(original, n);
    } else if ':' in original {
      var python, matlab := PythonReading(original, n), MatlabReading(original, n);
      if python.Some? && python.value.indices != [] { PythonReadingSound(original, n); }
      if matlab.Some? { MatlabReadingSound(original, n); }
    } else if LooksLikeIndexList(original) {
      ListIndicesInBounds(Tokens(original, IsListSeparator), n);
    }
  }

  // ---------------------------------------------------------------- reading printed text

  lemma PartOfShow(value: Option<int>)
    ensures OptionalInt(ShowOptional(value)) == Some(value)
  {
    if value.Some? { ParseShow(value.value); }
  }

  lemma OneInt(part: string, value: Option<int>)
    requires OptionalInt(part) == Some(value)
    ensures OptionalInts([part]) == Some([value])
  {
    assert OptionalInts([part][1..]) == Some([]);
    assert [value] + [] == [value];
  }

  lemma ReadTwo(a: int, b: Option<int>)
    ensures OptionalInts(Split(Show(a) + ":" + ShowOptional(b), ':')) == Some([Some(a), b])
    ensures |Split(Show(a) + ":" + ShowOptional(b), ':')| == 2
  {
    SplitCons(Show(a), ShowOptional(b), ':');
    SplitOne(ShowOptional(b), ':');
    PartOfShow(Some(a));
    PartOfShow(b);
    assert [Show(a), ShowOptional(b)][1..] == [ShowOptional(b)];
    OneInt(ShowOptional(b), b);
    assert [Some(a)] + [b] == [Some(a), b];
  }

  lemma ThreeInts(p: string, q: string, r: string, a: Option<int>, b: Option<int>, c: Option<int>)
    requires OptionalInt(p) == Some(a) && OptionalInt(q) == Some(b) && OptionalInt(r) == Some(c)
    ensures OptionalInts([p, q, r]) == Some([a, b, c])
  {
    var raw := [p, q, r];
    assert raw[1..] == [q, r] && raw[1..][1..] == [r];
    OneInt(r, c);
    assert [b] + [c] == [b, c];
    assert OptionalInts(raw[1..]) == Some([b, c]);
    assert [a] + [b, c] == [a, b, c];
  }

  lemma SplitThree(p: string, q: string, r: string)
    requires ':' !in p && ':' !in q && ':' !in r
    ensures Split(p + ":" + q + ":" + r, ':') == [p, q, r]
  {
    var tail := q + ":" + r;
    assert p + ":" + q + ":" + r == p + ":" + tail;
    SplitCons(p, tail, ':');
    SplitCons(q, r, ':');
    SplitOne(r, ':');
  }

  lemma ReadThree(a: int, b: Option<int>, c: int)
    ensures var raw := Split(Show(a) + ":" + ShowOptional(b) + ":" + Show(c), ':');
            && OptionalInts(raw) == Some([Some(a), b, Some(c)])
            && |raw| == 3 && (Strip(raw[1]) == [] <==> b.None?)
  {
    if b.Some? { ParseShow(b.value); }
    SplitThree(Show(a), ShowOptional(b), Show(c));
    PartOfShow(Some(a));
    PartOfShow(b);
    PartOfShow(Some(c));
    ThreeInts(Show(a), ShowOptional(b), Show(c), Some(a), b, Some(c));
  }

  lemma RepairedStep(original: string, n: nat)
    requires Repair(original).Some?
    ensures var text := Repair(original).value;
            && PythonReading(text, n).Some?
            && PythonReading(text, n).value.step == Some(1) && !PythonReading(text, n).value.explicitStep
            && MatlabReading(text, n) == None
  {
    var parts := Split(original, '-');
    ReadTwo(Decimal(Strip(parts[0])), Some(Decimal(Strip(parts[1]))));
  }

  /** Text holding a character that is neither digit, space nor hyphen is never a hyphenated range. */
  lemma NoRepair(text: string, c: char)
    requires c in text && c != '-' && !IsSpace(c) && !IsDigit(c)
    ensures Repair(text) == None
  {
    SplitKeeps(text, '-', c);
    var parts := Split(text, '-');
    var k :| 0 <= k < |parts| && c in parts[k];
    StripKeeps(parts[k], c);
    assert !IsNumeral(Strip(parts[k]));
  }

  lemma NoRepairWithoutHyphen(text: string)
    requires '-' !in text
    ensures Repair(text) == None
  {
    SplitOne(text, '-');
  }

  /** A printed range reaches the two range readings unchanged. */
  lemma ParseOfPrinted(text: string, n: nat)
    requires n > 0 && text != [] && Allowed(text) && !IsSpace(text[0]) && !IsSpace(text[|text| - 1])
    requires ':' in text
    ensures Parse(text, n) == Disambiguate(PythonReading(text, n), MatlabReading(text, n))
    ensures Strip(text) == text
  {
    NoRepair(text, ':');
  }

  lemma PrintedPair(a: nat, b: nat, n: nat)
    requires n > 0
    ensures var text := Show(a) + ":" + Show(b);
            Parse(text, n) == (var r := SliceIndices(Some(a), Some(b), 1, n);
                               if r == [] then Err(EmptySelection)
                               else Ok(Selection(RangeKind, r, text, PythonStyle, Some(1), false)))
  {
    ReadTwo(a, Some(b));
    ParseOfPrinted(Show(a) + ":" + Show(b), n);
  }

  function Triple(a: int, b: Option<int>, c: int): string { Show(a) + ":" + ShowOptional(b) + ":" + Show(c) }

  /** What Python sees in a printed triple: nothing for step zero. */
  function PythonSees(a: int, b: Option<int>, c: int, n: nat): seq<int> {
    if c == 0 then [] else SliceIndices(Some(a), b, c, n)
  }

  /** What MATLAB sees in a printed triple: nothing for a missing step or step zero. */
  function MatlabSees(a: int, b: Option<int>, c: int, n: nat): seq<int> {
    if b.None? || b.value == 0 then [] else MatlabIndices(Some(a), b.value, Some(c), n)
  }

  /** Python's indices unless it sees none, or at most one where MATLAB sees several. */
  predicate ReadsAs(r: Result<Selection, Error>, python: seq<int>, matlab: seq<int>) {
    if matlab != [] && (python == [] || (|python| == 1 && |matlab| > 1)) then r.Ok? && r.value.indices == matlab
    else if python == [] then r.Err?
    else r.Ok? && r.value.indices == python
  }

  lemma PythonReadsTriple(a: int, b: Option<int>, c: int, n: nat)
    ensures var r := PythonReading(Triple(a, b, c), n);
            (r.Some? <==> c != 0) && (r.Some? ==> r.value.indices == PythonSees(a, b, c, n))
  {
    ReadThree(a, b, c);
  }

  lemma MatlabReadsTriple(a: int, b: Option<int>, c: int, n: nat)
    ensures var r := MatlabReading(Triple(a, b, c), n);
            && (r.Some? <==> MatlabSees(a, b, c, n) != [])
            && (r.Some? ==> r.value.indices == MatlabSees(a, b, c, n))
  {
    ReadThree(a, b, c);
  }

  lemma TripleIsPrinted(a: nat, b: Option<int>, c: int)
    ensures var text := Triple(a, b, c);
            && text != [] && Allowed(text) && !IsSpace(text[0]) && !IsSpace(text[|text| - 1]) && ':' in text
  {
    var text := Triple(a, b, c);
    assert text[0] == Show(a)[0] && text[|text| - 1] == Show(c)[|Show(c)| - 1];
    assert text[|Show(a)|] == ':';
  }

  /** A printed triple is read from exactly the printed numbers. */
  lemma PrintedTriple(a: nat, b: Option<int>, c: int, n: nat)
    requires n > 0
    ensures ReadsAs(Parse(Triple(a, b, c), n), PythonSees(a, b, c, n), MatlabSees(a, b, c, n))
  {
    PythonReadsTriple(a, b, c, n);
    MatlabReadsTriple(a, b, c, n);
    TripleIsPrinted(a, b, c);
    ParseOfPrinted(Triple(a, b, c), n);
  }

  // ---------------------------------------------------------------- the shift itself

  predicate IsShift(before: seq<int>, after: seq<int>, offset: int) {
    |after| == |before| && forall k :: 0 <= k < |before| ==> after[k] == before[k] + offset
  }

  predicate OnAxis(s: seq<int>, n: int) { forall k :: 0 <= k < |s| ==> 0 <= s[k] < n }

  /** What a shift by `delta` asks of the indices: whole steps of a range, single places otherwise. */
  function Wanted(sel: Selection, delta: int): int {
    match sel.step
    case None => delta
    case Some(step) => if step < 0 then delta * -step else delta * step
  }

  /** Every index moved by `want` where all of them stay on the axis, and otherwise all moved together until the
      first one meets its end. */
  ghost predicate MovedAsFar(before: seq<int>, after: seq<int>, want: int, n: int) {
    && OnAxis(after, n)
    && if forall k :: 0 <= k < |before| ==> 0 <= before[k] + want < n then IsShift(before, after, want)
       else (exists offset :: IsShift(before, after, offset)) && (if want > 0 then n - 1 in after else 0 in after)
  }

  /** The re-read selection is the original one, moved as asked and as far as the axis allows. */
  ghost predicate MovedTogether(reread: Result<Selection, Error>, original: Selection, delta: int, n: int) {
    reread.Ok? && MovedAsFar(original.indices, reread.value.indices, Wanted(original, delta), n)
  }

  lemma BoundedIsShift(indices: seq<int>, requested: int, n: nat)
    requires indices != [] && OnAxis(indices, n)
    ensures var moved := BoundedShift(indices, requested, n);
            IsShift(indices, moved, Offset(indices, requested, n)) && MovedAsFar(indices, moved, requested, n)
  {
    var moved, least, greatest := BoundedShift(indices, requested, n), Least(indices), Greatest(indices);
    var low :| 0 <= low < |indices| && indices[low] == least;
    var high :| 0 <= high < |indices| && indices[high] == greatest;
    assert IsShift(indices, moved, Offset(indices, requested, n));
    assert moved[low] in moved && moved[high] in moved;
  }

  lemma ShiftKeepsSpacing(after: seq<int>, start: int, step: int, n: nat, offset: int)
    requires n > 0 && IsShift(Arith(start, step, n), after, offset)
    ensures after == Arith(after[0], step, n)
  {
    ArithShape(start, step, n, offset);
    assert after == Arith(start + offset, step, n);
  }

  lemma StepsWanted(sel: Selection, delta: int)
    requires sel.step != Some(0)
    ensures Wanted(sel, delta) == delta * StepSize(sel)
  {
  }

  lemma StaysPut(indices: seq<int>, n: int)
    requires OnAxis(indices, n)
    ensures MovedAsFar(indices, indices, 0, n)
  {
  }

  lemma ScalarMoves(index: int, delta: int, n: nat)
    requires 0 <= index < n
    ensures MovedAsFar([index], [Clamp(index + delta, 0, n - 1)], delta, n)
  {
    var moved := [Clamp(index + delta, 0, n - 1)];
    assert moved[0] in moved && IsShift([index], moved, moved[0] - index);
  }

  lemma MovesAsFar(sel: Selection, delta: int, n: nat)
    requires Sound(sel, n)
    ensures MovedAsFar(sel.indices, Moved(sel, delta, n), Wanted(sel, delta), n)
  {
    if delta == 0 {
      StaysPut(sel.indices, n);
    } else if sel.kind.ScalarKind? {
      ScalarMoves(sel.indices[0], delta, n);
      assert sel.indices == [sel.indices[0]];
    } else {
      StepsWanted(sel, delta);
      BoundedIsShift(sel.indices, delta * StepSize(sel), n);
    }
  }

  lemma FarIsShift(before: seq<int>, after: seq<int>, want: int, n: int) returns (offset: int)
    requires MovedAsFar(before, after, want, n)
    ensures IsShift(before, after, offset)
  {
    if IsShift(before, after, want) { offset := want; } else { offset :| IsShift(before, after, offset); }
  }

  /** Shifting moves every index by one offset, as far as asked or as the axis allows, and keeps the spacing. */
  lemma MovedIsShift(sel: Selection, delta: int, n: nat) returns (offset: int)
    requires Sound(sel, n)
    ensures IsShift(sel.indices, Moved(sel, delta, n), offset)
    ensures MovedAsFar(sel.indices, Moved(sel, delta, n), Wanted(sel, delta), n)
    ensures sel.kind.RangeKind? ==>
              Moved(sel, delta, n) == Arith(Moved(sel, delta, n)[0], sel.step.value, |Moved(sel, delta, n)|)
  {
    var moved := Moved(sel, delta, n);
    MovesAsFar(sel, delta, n);
    offset := FarIsShift(sel.indices, moved, Wanted(sel, delta), n);
    if sel.kind.RangeKind? { ShiftKeepsSpacing(moved, sel.indices[0], sel.step.value, |sel.indices|, offset); }
  }

  /** Python's exclusive stop reproduces the walk. */
  lemma PythonReadsBack(m: seq<int>, step: int, n: nat)
    requires m != [] && step != 0 && m == Arith(m[0], step, |m|)
    requires forall k :: 0 <= k < |m| ==> 0 <= m[k] < n
    ensures SliceIndices(Some(m[0]), ExclusiveStop(m[|m| - 1], step, n), step, n) == m
  {
    RangeExact(m[0], SliceStop(ExclusiveStop(m[|m| - 1], step, n), step, n), step, |m|);
  }

  /** MATLAB's inclusive stop reproduces the walk. */
  lemma MatlabReadsBack(m: seq<int>, step: int, n: nat)
    requires m != [] && step != 0 && m == Arith(m[0], step, |m|)
    requires forall k :: 0 <= k < |m| ==> 0 <= m[k] < n
    ensures MatlabIndices(Some(m[0]), step, Some(m[|m| - 1]), n) == m
  {
    var last := m[|m| - 1];
    RangeExact(m[0], if step > 0 then last + 1 else last - 1, step, |m|);
  }

  // ---------------------------------------------------------------- when the printed text is unambiguous

  /** A range printed by the Python formatter. */
  predicate PythonTextIsSafe(m: seq<int>, step: int, explicitStep: bool, n: nat)
    requires m != []
  {
    || |m| > 1 || !explicitStep
    || (step > 0 && !(m[0] == 0 && step < n))
    || (step < 0 && !(m[0] + step > 0 && 2 * m[0] <= n))
  }

  /** A range printed by the MATLAB formatter. */
  predicate MatlabTextIsSafe(m: seq<int>, step: int, n: nat)
    requires m != []
  {
    if |m| == 1 then m[0] == 0 || 2 * m[0] >= (if step > 0 then Min(step, n) else step + n)
    else step > 0 || m[|m| - 1] == 0 || m[0] + m[|m| - 1] >= step + n
  }

  /** Known from the parsed selection and the requested shift, before anything is printed. */
  predicate SafelyPrinted(sel: Selection, delta: int, n: nat)
    requires sel.indices != []
  {
    var m := Moved(sel, delta, n);
    || delta == 0 || !sel.kind.RangeKind?
    || (sel.style.PythonStyle? && PythonTextIsSafe(m, StepOf(sel), sel.explicitStep, n))
    || (sel.style.MatlabStyle? && MatlabTextIsSafe(m, StepOf(sel), n))
  }

  /** A range holds a second index exactly when one more step is still short of the stop. */
  lemma RangeHasTwo(start: int, stop: int, step: int)
    requires step != 0
    ensures |Range(start, stop, step)| > 1 <==> Before(start, stop, step) && Before(start + step, stop, step)
    ensures |Range(start, stop, step)| > 1 ==> Range(start, stop, step)[..2] == [start, start + step]
  {}

  /** How many indices MATLAB sees in the Python text of the single index `i`. */
  lemma MatlabSeesSingle(i: nat, step: int, n: nat)
    requires i < n && step != 0
    requires ExclusiveStop(i, step, n).Some? && ExclusiveStop(i, step, n).value != 0
    ensures |MatlabIndices(Some(i), ExclusiveStop(i, step, n).value, Some(step), n)| > 1
        <==> !PythonTextIsSafe([i], step, true, n)
  {
    var stop := ExclusiveStop(i, step, n).value;
    RangeHasTwo(i, MatlabEndpoint(step, n) + 1, stop);
  }

  lemma PythonText(m: seq<int>, step: int, explicitStep: bool, n: nat)
    requires m != [] && step != 0 && m == Arith(m[0], step, |m|) && (!explicitStep ==> step == 1)
    requires forall k :: 0 <= k < |m| ==> 0 <= m[k] < n
    ensures var r := Parse(FormatPython(m, step, explicitStep, n), n);
            && r.Ok?
            && if PythonTextIsSafe(m, step, explicitStep, n) then r.value.indices == m
               else |r.value.indices| > |m|
  {
    var stop := ExclusiveStop(m[|m| - 1], step, n);
    PythonReadsBack(m, step, n);
    if explicitStep {
      PrintedTriple(m[0], stop, step, n);
      if |m| == 1 && stop.Some? && stop.value != 0 { MatlabSeesSingle(m[0], step, n); }
    } else {
      PrintedPair(m[0], stop.value, n);
    }
  }

  /** How many indices Python sees in the MATLAB text of a walk from `a` to `last`. */
  lemma PythonSeesMatlab(a: nat, step: int, last: int, n: nat)
    requires a < n && 0 < last < n && step != 0
    ensures var r := SliceIndices(Some(a), Some(step), last, n);
            && (|r| > 1 <==> a + last < (if step > 0 then Min(step, n) else step + n))
            && (|r| > 1 ==> r[0] < r[1])
  {
    RangeHasTwo(a, SliceStop(Some(step), last, n), last);
    var r := SliceIndices(Some(a), Some(step), last, n);
    if |r| > 1 { assert r[..2][0] < r[..2][1]; }
  }

  /** What Python sees in the MATLAB text of a walk. */
  function PythonSeesWalk(m: seq<int>, step: int, n: nat): seq<int>
    requires m != []
  {
    PythonSees(m[0], Some(step), m[|m| - 1], n)
  }

  /** Python reads the text of a single MATLAB index as that index, or as an ascending walk. */
  lemma SingleMatlabIndex(i: nat, step: int, n: nat)
    requires i < n && step != 0
    ensures var r := PythonSeesWalk([i], step, n);
            if MatlabTextIsSafe([i], step, n) then r == [] || r == [i] else |r| > 1 && r[0] < r[1]
  {
    if i != 0 { PythonSeesMatlab(i, step, i, n); }
  }

  /** Python reads several of the indices of a MATLAB walk only if the walk descends. */
  lemma SeveralMatlabIndices(m: seq<int>, step: int, n: nat)
    requires |m| > 1 && step != 0 && m == Arith(m[0], step, |m|)
    requires forall k :: 0 <= k < |m| ==> 0 <= m[k] < n
    ensures var r := PythonSeesWalk(m, step, n);
            if MatlabTextIsSafe(m, step, n) then |r| <= 1 else |r| > 1 && r[0] < r[1] && m[1] < m[0]
  {
    ArithLast(m[0], step, |m|);
    ArithShape(m[0], step, |m|, 0);
    if m[|m| - 1] != 0 { PythonSeesMatlab(m[0], step, m[|m| - 1], n); }
  }

  /** The printed walk is read as itself by MATLAB, whatever Python makes of it. */
  lemma MatlabWalkReads(m: seq<int>, step: int, n: nat)
    requires m != [] && step != 0 && m == Arith(m[0], step, |m|)
    requires forall k :: 0 <= k < |m| ==> 0 <= m[k] < n
    ensures ReadsAs(Parse(FormatMatlab(m, step, true), n), PythonSeesWalk(m, step, n), m)
  {
    MatlabReadsBack(m, step, n);
    PrintedTriple(m[0], Some(step), m[|m| - 1], n);
  }

  /** What Python makes of it decides: the walk itself where the text is safe, else an ascending walk. */
  lemma WalkDecides(m: seq<int>, step: int, n: nat)
    requires m != [] && step != 0 && m == Arith(m[0], step, |m|)
    requires forall k :: 0 <= k < |m| ==> 0 <= m[k] < n
    ensures var r := PythonSeesWalk(m, step, n);
            if MatlabTextIsSafe(m, step, n) then r == [] || r == m || (|r| == 1 && |m| > 1)
            else |r| > 1 && r[0] < r[1] && (|m| > 1 ==> m[1] < m[0])
  {
    if |m| == 1 {
      assert m == [m[0]];
      SingleMatlabIndex(m[0], step, n);
    } else {
      SeveralMatlabIndices(m, step, n);
    }
  }

  lemma MatlabText(m: seq<int>, step: int, n: nat)
    requires m != [] && step != 0 && m == Arith(m[0], step, |m|)
    requires forall k :: 0 <= k < |m| ==> 0 <= m[k] < n
    ensures var r := Parse(FormatMatlab(m, step, true), n);
            && r.Ok?
            && if MatlabTextIsSafe(m, step, n) then r.value.indices == m
               else |r.value.indices| > 1 && r.value.indices[0] < r.value.indices[1] && (|m| > 1 ==> m[1] < m[0])
  {
    MatlabWalkReads(m, step, n);
    WalkDecides(m, step, n);
  }

  // ---------------------------------------------------------------- lists and single indices

  function Shown(indices: seq<int>): seq<string> {
    if indices == [] then [] else [Show(indices[0])] + Shown(indices[1..])
  }

  /** A joined list is made of digits and blanks, starting and ending with a digit. */
  lemma {:induction false} JoinShape(indices: seq<int>)
    requires indices != [] && forall k :: 0 <= k < |indices| ==> indices[k] >= 0
    ensures var text := Join(indices);
            && text != [] && IsDigit(text[0]) && IsDigit(text[|text| - 1])
            && forall k :: 0 <= k < |text| ==> IsDigit(text[k]) || text[k] == ' '
  {
    if |indices| > 1 { JoinShape(indices[1..]); }
  }

  lemma {:induction false} TokensOfJoin(indices: seq<int>, sep: char -> bool)
    requires forall k :: 0 <= k < |indices| ==> indices[k] >= 0
    requires sep(' ') && forall c :: IsDigit(c) ==> !sep(c)
    ensures Tokens(Join(indices), sep) == Shown(indices)
  {
    if |indices| == 1 {
      assert Show(indices[0]) + [] == Show(indices[0]);
      TokensCons(Show(indices[0]), [], sep);
      assert Shown(indices[1..]) == [];
    } else if |indices| > 1 {
      var rest := " " + Join(indices[1..]);
      assert Join(indices) == Show(indices[0]) + rest;
      TokensCons(Show(indices[0]), rest, sep);
      assert rest[1..] == Join(indices[1..]);
      TokensOfJoin(indices[1..], sep);
    }
  }

  lemma {:induction false} ReadShown(indices: seq<int>, n: nat)
    requires forall k :: 0 <= k < |indices| ==> 0 <= indices[k] < n
    ensures |Shown(indices)| == |indices|
    ensures ListIndices(Shown(indices), n) == Ok(indices)
  {
    if indices != [] {
      ReadShown(indices[1..], n);
      ParseShow(indices[0]);
      assert Shown(indices)[1..] == Shown(indices[1..]);
      assert [indices[0]] + indices[1..] == indices;
    }
  }

  /** Colon-free, hyphen-free text is a list or a single index. */
  lemma ParseOfNumbers(text: string, n: nat)
    requires n > 0 && text != [] && Strip(text) == text && Allowed(text) && ':' !in text && '-' !in text
    ensures LooksLikeIndexList(text) ==>
              Parse(text, n).Ok? == (ListIndices(Tokens(text, IsListSeparator), n).Ok?
                                     && ListIndices(Tokens(text, IsListSeparator), n).value != [])
              && (Parse(text, n).Ok? ==>
                    Parse(text, n).value.indices == ListIndices(Tokens(text, IsListSeparator), n).value)
    ensures !LooksLikeIndexList(text) && ScalarIndex(text, n).Ok? ==>
              Parse(text, n).Ok? && Parse(text, n).value.indices == [ScalarIndex(text, n).value]
  {
    NoRepairWithoutHyphen(text);
  }

  lemma PlainText(text: string)
    requires text != [] && IsDigit(text[0]) && IsDigit(text[|text| - 1])
    requires forall k :: 0 <= k < |text| ==> IsDigit(text[k]) || text[k] == ' '
    ensures Strip(text) == text && Allowed(text) && ':' !in text && '-' !in text && ',' !in text && ';' !in text
  {
  }

  lemma JoinIsPlain(indices: seq<int>)
    requires indices != [] && forall k :: 0 <= k < |indices| ==> indices[k] >= 0
    ensures var text := Join(indices);
            text != [] && Strip(text) == text && Allowed(text) && ':' !in text && '-' !in text
            && ',' !in text && ';' !in text
  {
    JoinShape(indices);
    PlainText(Join(indices));
  }

  lemma ListText(indices: seq<int>, n: nat)
    requires indices != [] && forall k :: 0 <= k < |indices| ==> 0 <= indices[k] < n
    ensures Parse(Join(indices), n).Ok? && Parse(Join(indices), n).value.indices == indices
  {
    JoinIsPlain(indices);
    ParseOfNumbers(Join(indices), n);
    JoinReads(indices, n);
  }

  lemma JoinReads(indices: seq<int>, n: nat)
    requires indices != [] && forall k :: 0 <= k < |indices| ==> 0 <= indices[k] < n
    ensures |Tokens(Join(indices), IsSpace)| == |indices|
    ensures ListIndices(Tokens(Join(indices), IsListSeparator), n) == Ok(indices)
    ensures |indices| == 1 ==> ScalarIndex(Join(indices), n).Ok? && indices == [ScalarIndex(Join(indices), n).value]
  {
    TokensOfJoin(indices, IsSpace);
    TokensOfJoin(indices, IsListSeparator);
    ReadShown(indices, n);
    ParseShow(indices[0]);
  }

  /** The text a selection carries is read back as that very selection. */
  lemma UnshiftedText(text: string, n: int)
    requires Parse(text, n).Ok?
    ensures Parse(Parse(text, n).value.text, n).Ok?
    ensures Parse(Parse(text, n).value.text, n).value.indices == Parse(text, n).value.indices
  {
    var original, sel := Strip(text), Parse(text, n).value;
    ParseSound(text, n);
    StripIdempotent(text);
    if Repair(original).Some? {
      var parts := Split(original, '-');
      var a, b := Decimal(Strip(parts[0])), Decimal(Strip(parts[1]));
      ReadTwo(a, Some(b));
      PrintedPair(a, b, n);
    } else if ':' !in original {
      ListText(sel.indices, n);
    }
  }

  // ---------------------------------------------------------------- main result

  /** Read back either the moved indices, or something no common offset explains. */
  lemma Reread(sel: Selection, delta: int, n: nat)
    requires n > 0 && Sound(sel, n) && delta != 0
    ensures var m, r := Moved(sel, delta, n), Parse(Print(sel, delta, n), n);
            && r.Ok?
            && if SafelyPrinted(sel, delta, n) then r.value.indices == m
               else |r.value.indices| > 1
                    && (|m| == 1 || (r.value.indices[0] < r.value.indices[1] && m[1] < m[0]))
  {
    var offset := MovedIsShift(sel, delta, n);
    var m := Moved(sel, delta, n);
    if sel.kind.ScalarKind? {
      assert Join(m) == Show(m[0]);
      ListText(m, n);
    } else if sel.kind.ListKind? {
      ListText(m, n);
    } else if sel.style.PythonStyle? {
      PythonText(m, sel.step.value, sel.explicitStep, n);
    } else {
      MatlabText(m, sel.step.value, n);
    }
  }

  /** What is read from an ambiguous print is no shift of what was moved. */
  lemma AmbiguousIsNoShift(before: seq<int>, m: seq<int>, offset: int, after: seq<int>, other: int)
    requires before != [] && IsShift(before, m, offset) && |after| > 1
    requires |m| == 1 || (after[0] < after[1] && m[1] < m[0])
    ensures !IsShift(before, after, other)
  {
  }

  /** The shifted selection of a sound one, printed and read back: as asked and as far as the axis allows, exactly when
      the print is unambiguous. */
  lemma ShiftReadsBack(sel: Selection, delta: int, n: nat)
    requires n > 0 && Sound(sel, n) && delta != 0
    ensures MovedTogether(Parse(Print(sel, delta, n), n), sel, delta, n) <==> SafelyPrinted(sel, delta, n)
  {
    var offset := MovedIsShift(sel, delta, n);
    Reread(sel, delta, n);
    var after := Parse(Print(sel, delta, n), n).value.indices;
    if !SafelyPrinted(sel, delta, n) && MovedAsFar(sel.indices, after, Wanted(sel, delta), n) {
      var other := FarIsShift(sel.indices, after, Wanted(sel, delta), n);
      AmbiguousIsNoShift(sel.indices, Moved(sel, delta, n), offset, after, other);
    }
  }

  /** Shifting an accepted selection by any amount and reading the printed text back gives every original index
      moved as far as asked, or all together up to the end of the axis, exactly when the print is unambiguous. */
  lemma ShiftRoundTrip(text: string, delta: int, n: int)
    requires Parse(text, n).Ok?
    ensures n >= 1 && Sound(Parse(text, n).value, n)
    ensures ShiftText(text, delta, n).Ok?
    ensures var sel := Parse(text, n).value;
            MovedTogether(Parse(ShiftText(text, delta, n).value, n), sel, delta, n) <==> SafelyPrinted(sel, delta, n)
  {
    ParseSound(text, n);
    var sel := Parse(text, n).value;
    assert ShiftText(text, delta, n) == Ok(Print(sel, delta, n));
    if delta == 0 {
      UnshiftedText(text, n);
      StaysPut(sel.indices, n);
    } else {
      ShiftReadsBack(sel, delta, n);
    }
  }

  /** The promise in its plain form: two or more indices and no negative MATLAB step always survive. */
  lemma SeveralIndicesSurvive(text: string, delta: int, n: int)
    requires Parse(text, n).Ok? && |Parse(text, n).value.indices| >= 2
    requires !(Parse(text, n).value.style.MatlabStyle? && Parse(text, n).value.step.value < 0)
    ensures ShiftText(text, delta, n).Ok?
    ensures MovedTogether(Parse(ShiftText(text, delta, n).value, n), Parse(text, n).value, delta, n)
  {
    ShiftRoundTrip(text, delta, n);
    var offset := MovedIsShift(Parse(text, n).value, delta, n);
  }

  /** Three one-digit numbers on an axis of ten, as both grammars read them. */
  lemma ReadTriple(a: int, b: int, c: int)
    requires 1 <= a < 10 && 1 <= b < 10 && 1 <= c < 10
    requires |MatlabIndices(Some(a), b, Some(c), 10)| == 1 && |SliceIndices(Some(a), Some(b), c, 10)| != 1
    ensures var text := Show(a) + ":" + Show(b) + ":" + Show(c);
            var python, matlab := SliceIndices(Some(a), Some(b), c, 10), MatlabIndices(Some(a), b, Some(c), 10);
            Parse(text, 10) == Ok(
              if python == [] then Selection(RangeKind, matlab, text, MatlabStyle, Some(b), true)
              else Selection(RangeKind, python, text, PythonStyle, Some(c), true))
  {
    ReadThree(a, Some(b), c);
    TripleIsPrinted(a, Some(b), c);
    ParseOfPrinted(Triple(a, Some(b), c), 10);
  }

  lemma ReadBefore(before: string)
    requires before == Show(6) + ":" + Show(5) + ":" + Show(9)
    ensures Parse(before, 10) == Ok(Selection(RangeKind, [6], before, MatlabStyle, Some(5), true))
  {
    ReadTriple(6, 5, 9);
    assert [6] == MatlabIndices(Some(6), 5, Some(9), 10);
  }

  lemma ReadAfter(after: string)
    requires after == Show(1) + ":" + Show(5) + ":" + Show(1)
    ensures Parse(after, 10).Ok? && Parse(after, 10).value.indices == [1, 2, 3, 4]
  {
    assert Range(1, 2, 5) == [1] + Range(6, 2, 5);
    assert MatlabIndices(Some(1), 5, Some(1), 10) == [1];
    ReadTriple(1, 5, 1);
  }

  /** A one-index MATLAB range that does not survive: on ten indices `6:5:9` is index 6, moved down
      it prints as `1:5:1`, and that is read as indices 1 to 4. */
  lemma OneIndexRangeIsLost(before: string, after: string)
    requires before == Show(6) + ":" + Show(5) + ":" + Show(9)
    requires after == Show(1) + ":" + Show(5) + ":" + Show(1)
    ensures Parse(before, 10).Ok? && Parse(before, 10).value.indices == [6]
    ensures ShiftText(before, -1, 10) == Ok(after)
    ensures Parse(after, 10).Ok? && Parse(after, 10).value.indices == [1, 2, 3, 4]
  {
    ReadBefore(before);
    ReadAfter(after);
  }
}
