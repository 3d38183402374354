/** What a selection text selects: single indices, lists, and both kinds of ranges, index by index. */
module SliceMeaning {
  import opened Prelude
  import opened PythonRange
  import opened Text
  import opened SliceSelection
  import opened SliceRoundTrip

  // ---------------------------------------------------------------- single indices and lists

  /** Negative indices count from the end. */
  function FromEnd(i: int, n: nat): int { if i < 0 then i + n else i }

  lemma NegativeIsNoRange(i: int)
    requires i < 0
    ensures Repair(Show(i)) == None
  {
    var digits := Digits(-i);
    assert Show(i) == [] + ['-'] + digits;
    SplitCons([], digits, '-');
    SplitOne(digits, '-');
    assert !IsNumeral(Strip([]));
  }

  lemma ShownIsPlain(i: int)
    ensures var text := Show(i);
            Strip(text) == text && Allowed(text) && ':' !in text && ',' !in text && ';' !in text
            && |Tokens(text, IsSpace)| == 1
  {
    ParseShow(i);
    var text := Show(i);
    assert text + [] == text;
    TokensCons(text, [], IsSpace);
  }

  /** One number selects that index, from the end if negative, and is refused off the axis. */
  lemma ScalarText(i: int, n: nat)
    requires n >= 1
    ensures Parse(Show(i), n) ==
            if 0 <= FromEnd(i, n) < n
            then Ok(Selection(ScalarKind, [FromEnd(i, n)], Show(FromEnd(i, n)), ScalarStyle, None, false))
            else Err(OutOfBounds)
  {
    ShownIsPlain(i);
    if i < 0 { NegativeIsNoRange(i); } else { NoRepairWithoutHyphen(Show(i)); }
    ScalarRead(i, n);
  }

  lemma ScalarRead(i: int, n: nat)
    ensures ScalarIndex(Show(i), n) == if 0 <= FromEnd(i, n) < n then Ok(FromEnd(i, n)) else Err(OutOfBounds)
  {
    ParseShow(i);
  }

  /** The numbers with commas between them. */
  function Commas(entries: seq<int>): string
    requires entries != []
  {
    if |entries| == 1 then Show(entries[0]) else Show(entries[0]) + "," + Commas(entries[1..])
  }

  /** A place on the axis: from the end if negative, the nearer end if beyond one. */
  function Place(i: int, n: nat): int {
    if FromEnd(i, n) < 0 then 0 else if FromEnd(i, n) < n then FromEnd(i, n) else n - 1
  }

  function Places(entries: seq<int>, n: nat): (r: seq<int>)
    ensures |r| == |entries| && forall k :: 0 <= k < |entries| ==> r[k] == Place(entries[k], n)
  {
    seq(|entries|, k requires 0 <= k < |entries| => Place(entries[k], n))
  }

  lemma {:induction false} CommasShape(entries: seq<int>)
    requires entries != []
    ensures var text := Commas(entries);
            && text != [] && !IsSpace(text[0]) && !IsSpace(text[|text| - 1])
            && forall k :: 0 <= k < |text| ==> IsDigit(text[k]) || text[k] == '-' || text[k] == ','
    ensures |entries| > 1 ==> ',' in Commas(entries)
  {
    if |entries| > 1 {
      CommasShape(entries[1..]);
      assert Commas(entries)[|Show(entries[0])|] == ',';
    }
  }

  lemma {:induction false} TokensOfCommas(entries: seq<int>)
    requires entries != []
    ensures Tokens(Commas(entries), IsListSeparator) == Shown(entries)
  {
    var first := Show(entries[0]);
    if |entries| == 1 {
      assert first + [] == first;
      TokensCons(first, [], IsListSeparator);
      assert Shown(entries[1..]) == [];
    } else {
      var rest := "," + Commas(entries[1..]);
      assert Commas(entries) == first + rest;
      TokensCons(first, rest, IsListSeparator);
      assert rest[1..] == Commas(entries[1..]);
      TokensOfCommas(entries[1..]);
    }
  }

  lemma FirstEntry(i: int, parts: seq<string>, n: nat)
    requires n >= 1 && ListIndices(parts, n).Ok?
    ensures ListIndices([Show(i)] + parts, n) == Ok([Place(i, n)] + ListIndices(parts, n).value)
  {
    ParseShow(i);
    assert ([Show(i)] + parts)[1..] == parts;
  }

  lemma {:induction false} ReadEntries(entries: seq<int>, n: nat)
    requires n >= 1
    ensures ListIndices(Shown(entries), n) == Ok(Places(entries, n))
  {
    if entries == [] {
      assert Places(entries, n) == [];
    } else {
      ReadEntries(entries[1..], n);
      FirstEntry(entries[0], Shown(entries[1..]), n);
      assert Shown(entries) == [Show(entries[0])] + Shown(entries[1..]);
      assert Places(entries, n) == [Places(entries, n)[0]] + Places(entries[1..], n);
    }
  }

  lemma CommasArePlain(entries: seq<int>)
    requires |entries| >= 2
    ensures var text := Commas(entries);
            text != [] && Strip(text) == text && Allowed(text) && ':' !in text && ',' in text && Repair(text) == None
  {
    CommasShape(entries);
    NoRepair(Commas(entries), ',');
  }

  /** A list selects its entries in their order, repeated ones repeatedly, none refused. */
  lemma CommaText(entries: seq<int>, n: nat)
    requires n >= 1 && |entries| >= 2
    ensures Parse(Commas(entries), n).Ok?
    ensures var sel := Parse(Commas(entries), n).value; sel.kind.ListKind? && sel.indices == Places(entries, n)
  {
    CommasArePlain(entries);
    TokensOfCommas(entries);
    ReadEntries(entries, n);
  }

  // ---------------------------------------------------------------- ranges, index by index

  lemma {:induction false} ArithAt(start: int, step: int, n: nat, k: nat)
    requires k < n
    ensures Arith(start, step, n)[k] == start + k * step
    decreases k
  {
    if k > 0 {
      ArithAt(start + step, step, n - 1, k - 1);
      assert (k - 1) * step == k * step - step;
    }
  }

  /** A whole number of steps. */
  predicate StepsFrom(i: int, start: int, step: int, k: nat) { i == start + k * step }

  lemma BeyondTheLast(start: int, stop: int, step: int, count: nat, k: nat)
    requires step != 0 && k >= count && !Before(start + count * step, stop, step)
    ensures !Before(start + k * step, stop, step)
  {
    if step > 0 { InSteps(count, k, step); } else {
      InSteps(count, k, -step);
      assert k * -step == -(k * step) && count * -step == -(count * step);
    }
  }

  lemma InRangeIsReached(start: int, stop: int, step: int, i: int)
    requires step != 0 && i in Range(start, stop, step)
    ensures Before(i, stop, step) && exists k: nat :: StepsFrom(i, start, step, k)
  {
    var r := Range(start, stop, step);
    RangeIsArith(start, stop, step);
    var k :| 0 <= k < |r| && r[k] == i;
    ArithAt(start, step, |r|, k);
    assert StepsFrom(i, start, step, k);
  }

  lemma ReachedIsInRange(start: int, stop: int, step: int, i: int, k: nat)
    requires step != 0 && Before(i, stop, step) && StepsFrom(i, start, step, k)
    ensures i in Range(start, stop, step)
  {
    var r := Range(start, stop, step);
    RangeIsArith(start, stop, step);
    if k < |r| {
      ArithAt(start, step, |r|, k);
      assert r[k] == i;
    } else {
      StopsAfter(start, stop, step);
      BeyondTheLast(start, stop, step, |r|, k);
      assert false;
    }
  }

  lemma StopsAfter(start: int, stop: int, step: int)
    requires step != 0
    ensures !Before(start + |Range(start, stop, step)| * step, stop, step)
  {
    var r := Range(start, stop, step);
    RangeIsArith(start, stop, step);
    if r != [] {
      ArithAt(start, step, |r|, |r| - 1);
      assert |r| * step == (|r| - 1) * step + step;
    }
  }

  /** A range holds exactly what lies a whole number of steps from its start and short of its stop. */
  lemma RangeMembers(start: int, stop: int, step: int, i: int)
    requires step != 0
    ensures i in Range(start, stop, step) <==> Before(i, stop, step) && exists k: nat :: StepsFrom(i, start, step, k)
  {
    if i in Range(start, stop, step) { InRangeIsReached(start, stop, step, i); }
    if Before(i, stop, step) {
      if k: nat :| StepsFrom(i, start, step, k) { ReachedIsInRange(start, stop, step, i, k); }
    }
  }

  /** Where a walk by `step` begins: at the end it leaves from if omitted, else at the endpoint or, if that is off the
      axis on that side, at that end. */
  function Begins(start: Option<int>, step: int, n: nat): int {
    match start
    case None => if step > 0 then 0 else n - 1
    case Some(v) =>
      var i := FromEnd(v, n);
      if step > 0 && i < 0 then 0 else if step < 0 && i >= n then n - 1 else i
  }

  /** Short of the endpoint in the direction of the walk. */
  predicate ShortOf(i: int, stop: Option<int>, step: int, n: nat) {
    stop.Some? ==> if step > 0 then i < FromEnd(stop.value, n) else i > FromEnd(stop.value, n)
  }

  /** Python's reading selects the places of the axis a whole number of steps from where it begins and short of its
      stop, the stop itself left out. */
  lemma PythonSelects(start: Option<int>, stop: Option<int>, step: int, n: nat, i: int)
    requires step != 0
    ensures i in SliceIndices(start, stop, step, n) <==>
              && 0 <= i < n && ShortOf(i, stop, step, n)
              && exists k: nat :: StepsFrom(i, Begins(start, step, n), step, k)
  {
    var a, b := SliceStart(start, step, n), SliceStop(stop, step, n);
    RangeMembers(a, b, step, i);
    SliceInBounds(start, stop, step, n);
    if 0 <= i < n {
      if k: nat :| StepsFrom(i, Begins(start, step, n), step, k) {
        StepsForward(i, Begins(start, step, n), step, k);
        assert StepsFrom(i, a, step, k);
      }
      if k: nat :| StepsFrom(i, a, step, k) {
        StepsForward(i, a, step, k);
        assert Before(i, b, step) ==> StepsFrom(i, Begins(start, step, n), step, k);
      }
    }
  }

  lemma StepsForward(i: int, start: int, step: int, k: nat)
    requires StepsFrom(i, start, step, k)
    ensures step > 0 ==> i >= start
    ensures step < 0 ==> i <= start
  {
    if step > 0 { InSteps(0, k, step); }
    if step < 0 {
      InSteps(0, k, -step);
      assert k * -step == -(k * step);
    }
  }

  /** The ends of a MATLAB walk: those given, or those of the axis in the direction of the walk. */
  function Ends(start: Option<int>, step: int, stop: Option<int>, n: nat): (int, int) {
    (Place(if start.Some? then start.value else if step > 0 then 0 else n - 1, n),
     Place(if stop.Some? then stop.value else if step > 0 then n - 1 else 0, n))
  }

  lemma MatlabWalksBetween(start: Option<int>, step: int, stop: Option<int>, n: nat)
    requires step != 0 && n >= 1
    ensures var (first, last) := Ends(start, step, stop, n);
            MatlabIndices(start, step, stop, n) == Range(first, if step > 0 then last + 1 else last - 1, step)
  {
  }

  /** MATLAB's reading walks from one end to the other, both on the axis, and takes the last one in. */
  lemma MatlabSelects(start: Option<int>, step: int, stop: Option<int>, n: nat, i: int)
    requires step != 0 && n >= 1
    ensures var (first, last) := Ends(start, step, stop, n);
            i in MatlabIndices(start, step, stop, n) <==>
              (if step > 0 then i <= last else i >= last) && exists k: nat :: StepsFrom(i, first, step, k)
  {
    var (first, last) := Ends(start, step, stop, n);
    MatlabWalksBetween(start, step, stop, n);
    RangeMembers(first, if step > 0 then last + 1 else last - 1, step, i);
  }

  // ---------------------------------------------------------------- which reading a text gets

  lemma ShownIsNumeral(a: nat)
    ensures IsNumeral(Strip(Show(a))) && Digits(Decimal(Strip(Show(a)))) == Show(a) && '-' !in Show(a)
  {
    ParseShow(a);
    DecimalOfDigits(a);
  }

  lemma HyphenRepairs(a: nat, b: nat)
    ensures var text := Show(a) + "-" + Show(b);
            Strip(text) == text && Allowed(text) && Repair(text) == Some(Show(a) + ":" + Show(b))
  {
    var text := Show(a) + "-" + Show(b);
    ShownIsNumeral(a);
    ShownIsNumeral(b);
    SplitCons(Show(a), Show(b), '-');
    SplitOne(Show(b), '-');
    assert Split(text, '-') == [Show(a), Show(b)];
    assert Strip(text) == text;
  }

  lemma UnitRange(a: nat, b: nat, n: nat, i: int)
    ensures i in SliceIndices(Some(a), Some(b), 1, n) <==> a <= i < Min(b, n)
  {
    PythonSelects(Some(a), Some(b), 1, n, i);
    var first := Begins(Some(a), 1, n);
    assert first == a && (ShortOf(i, Some(b), 1, n) <==> i < b);
    if i >= a { assert StepsFrom(i, first, 1, i - a); }
    if k: nat :| StepsFrom(i, first, 1, k) { StepsForward(i, first, 1, k); }
  }

  /** `a-b` between plain numbers is the range from `a` up to and without `b`, as far as the axis goes. */
  lemma HyphenText(a: nat, b: nat, n: nat, i: int)
    requires n >= 1 && a < b && a < n
    ensures var r := Parse(Show(a) + "-" + Show(b), n);
            r.Ok? && r.value.kind.RangeKind? && (i in r.value.indices <==> a <= i < Min(b, n))
  {
    HyphenRepairs(a, b);
    ReadTwo(a, Some(b));
    UnitRange(a, b, n, i);
    UnitRange(a, b, n, a);
  }

  function Read(r: Option<Selection>): seq<int> { if r.Some? then r.value.indices else [] }

  /** Of the two readings of a text with colons the longer wins where the shorter selects one index or none, and
      Python's where both select more. It is refused exactly if neither selects anything. */
  lemma LongerReadingWins(text: string, n: nat)
    requires n >= 1 && Strip(text) == text && ':' in text && Allowed(text) && Repair(text) == None
    ensures var python, matlab := Read(PythonReading(text, n)), Read(MatlabReading(text, n));
            var first := |python| >= 2 || (|python| == 1 && |matlab| < 2);
            && (Parse(text, n).Err? <==> python == [] && matlab == [])
            && (Parse(text, n).Ok? ==>
                  && Parse(text, n).value.indices == (if first then python else matlab)
                  && Parse(text, n).value.style == (if first then PythonStyle else MatlabStyle))
  {
  }
}
