/** The fragment of Python's text handling the selection grammar rests on:
    `str.strip`, `str.split`, `re.split`, `int(...)` and `str(int)`. */
module Text {
  import opened Prelude

  /** Characters for which `str.isspace` (and the `\s` of a `str` pattern) holds. */
  predicate IsSpace(c: char) {
    var u := c as int;
    || 9 <= u <= 13 || 28 <= u <= 32 || u == 0x85 || u == 0xA0 || u == 0x1680
    || 0x2000 <= u <= 0x200A || u == 0x2028 || u == 0x2029 || u == 0x202F || u == 0x205F || u == 0x3000
  }

  predicate IsDigit(c: char) { '0' <= c <= '9' }

  predicate AllDigits(s: string) { forall k :: 0 <= k < |s| ==> IsDigit(s[k]) }

  function Strip(s: string): string {
    if s == [] then []
    else if IsSpace(s[0]) then Strip(s[1..])
    else if IsSpace(s[|s| - 1]) then Strip(s[..|s| - 1])
    else s
  }

  lemma {:induction false} StripIdempotent(s: string)
    ensures Strip(Strip(s)) == Strip(s)
  {
    if s != [] {
      if IsSpace(s[0]) { StripIdempotent(s[1..]); }
      else if IsSpace(s[|s| - 1]) { StripIdempotent(s[..|s| - 1]); }
    }
  }

  /** Stripping loses only white space. */
  lemma {:induction false} StripKeeps(s: string, c: char)
    requires c in s && !IsSpace(c)
    ensures c in Strip(s)
  {
    if IsSpace(s[0]) { StripKeeps(s[1..], c); }
    else if IsSpace(s[|s| - 1]) { StripKeeps(s[..|s| - 1], c); }
  }

  /** `s.split(c)`. */
  function Split(s: string, c: char): (r: seq<string>)
    ensures |r| >= 1
  {
    if s == [] then [[]]
    else
      var r := Split(s[1..], c);
      if s[0] == c then [[]] + r else [[s[0]] + r[0]] + r[1..]
  }

  lemma {:induction false} SplitOne(a: string, c: char)
    requires c !in a
    ensures Split(a, c) == [a]
  {
    if a != [] {
      SplitOne(a[1..], c);
      assert [a[0]] + a[1..] == a;
    }
  }

  lemma {:induction false} SplitCons(a: string, b: string, c: char)
    requires c !in a
    ensures Split(a + [c] + b, c) == [a] + Split(b, c)
  {
    if a == [] {
      assert (a + [c] + b)[1..] == b;
    } else {
      SplitCons(a[1..], b, c);
      assert (a + [c] + b)[1..] == a[1..] + [c] + b;
      assert [a[0]] + a[1..] == a;
    }
  }

  /** Every character but the separator survives in some part. */
  lemma {:induction false} SplitKeeps(s: string, c: char, d: char)
    requires d in s && d != c
    ensures exists k :: 0 <= k < |Split(s, c)| && d in Split(s, c)[k]
  {
    var r := Split(s[1..], c);
    if s[0] == d {
      assert d in Split(s, c)[0];
    } else {
      SplitKeeps(s[1..], c, d);
      var k :| 0 <= k < |r| && d in r[k];
      if s[0] == c { assert Split(s, c)[k + 1] == r[k]; }
      else if k == 0 { assert d in Split(s, c)[0]; }
      else { assert Split(s, c)[k] == r[k]; }
    }
  }

  /** Length of the leading run of characters that do not separate. */
  function Run(s: string, sep: char -> bool): (n: nat)
    ensures n <= |s|
    ensures s != [] && !sep(s[0]) ==> n > 0
  {
    if s == [] || sep(s[0]) then 0 else 1 + Run(s[1..], sep)
  }

  /** The nonempty pieces between separators: `s.split()`, or `re.split` with its blanks dropped. */
  function Tokens(s: string, sep: char -> bool): seq<string>
    decreases |s|
  {
    if s == [] then []
    else if sep(s[0]) then Tokens(s[1..], sep)
    else [s[..Run(s, sep)]] + Tokens(s[Run(s, sep)..], sep)
  }

  lemma {:induction false} RunStops(a: string, b: string, sep: char -> bool)
    requires forall k :: 0 <= k < |a| ==> !sep(a[k])
    requires b == [] || sep(b[0])
    ensures Run(a + b, sep) == |a|
  {
    if a == [] { assert a + b == b; }
    else {
      RunStops(a[1..], b, sep);
      assert (a + b)[1..] == a[1..] + b;
    }
  }

  lemma TokensCons(a: string, b: string, sep: char -> bool)
    requires a != [] && forall k :: 0 <= k < |a| ==> !sep(a[k])
    requires b == [] || sep(b[0])
    ensures Tokens(a + b, sep) == [a] + Tokens(b, sep)
  {
    RunStops(a, b, sep);
    assert (a + b)[..|a|] == a && (a + b)[|a|..] == b;
  }

  /** `int(s)` for a nonempty run of decimal digits. */
  function Decimal(s: string): nat
    requires AllDigits(s)
  {
    if s == [] then 0 else 10 * Decimal(s[..|s| - 1]) + (s[|s| - 1] as int - '0' as int)
  }

  /** `str(n)` for a non-negative integer. */
  function Digits(n: nat): (s: string)
    ensures s != [] && AllDigits(s)
  {
    if n < 10 then [(n + '0' as int) as char] else Digits(n / 10) + [(n % 10 + '0' as int) as char]
  }

  lemma {:induction false} DecimalOfDigits(n: nat)
    ensures Decimal(Digits(n)) == n
  {
    if n >= 10 {
      DecimalOfDigits(n / 10);
      assert Digits(n)[..|Digits(n)| - 1] == Digits(n / 10);
    }
  }

  /** `str(n)`. */
  function Show(n: int): (s: string)
    ensures s != []
    ensures forall k :: 0 <= k < |s| ==> IsDigit(s[k]) || s[k] == '-'
  {
    if n < 0 then "-" + Digits(-n) else Digits(n)
  }

  /** `int(text)`; `None` stands for the `ValueError`. */
  function ParseInt(text: string): Option<int> {
    var s := Strip(text);
    if s != [] && AllDigits(s) then Some(Decimal(s))
    else if |s| > 1 && (s[0] == '+' || s[0] == '-') && AllDigits(s[1..])
    then var v: int := Decimal(s[1..]); Some(if s[0] == '-' then -v else v)
    else None
  }

  /** What `str` prints, `int` reads back. */
  lemma ParseShow(n: int)
    ensures Strip(Show(n)) == Show(n)
    ensures ParseInt(Show(n)) == Some(n)
  {
    DecimalOfDigits(if n < 0 then -n else n);
    if n < 0 { assert Show(n)[1..] == Digits(-n); }
  }

  predicate AllSpace(s: string) { forall k :: 0 <= k < |s| ==> IsSpace(s[k]) }

  /** Blanks, a core, blanks. */
  predicate Framed(s: string, before: string, core: string, after: string) {
    s == before + core + after && AllSpace(before) && AllSpace(after)
  }

  lemma FramedWider(c: char, s: string, before: string, core: string, after: string)
    requires Framed(s, before, core, after) && IsSpace(c)
    ensures Framed([c] + s, [c] + before, core, after) && Framed(s + [c], before, core, after + [c])
  {
    assert [c] + s == [c] + before + core + after;
    assert s + [c] == before + core + (after + [c]);
  }

  /** Stripping takes nothing but blanks off either end, */
  lemma {:induction false} StripTrims(s: string) returns (before: string, after: string)
    ensures Framed(s, before, Strip(s), after)
  {
    before, after := [], [];
    if s != [] && IsSpace(s[0]) {
      var c, rest := s[0], s[1..];
      before, after := StripTrims(rest);
      FramedWider(c, rest, before, Strip(rest), after);
      assert s == [c] + rest;
      before := [c] + before;
    } else if s != [] && IsSpace(s[|s| - 1]) {
      var c, rest := s[|s| - 1], s[..|s| - 1];
      before, after := StripTrims(rest);
      FramedWider(c, rest, before, Strip(rest), after);
      assert s == rest + [c];
      after := after + [c];
    }
  }

  /** and leaves none there. */
  lemma {:induction false} StripLeavesNone(s: string)
    ensures Strip(s) != [] ==> !IsSpace(Strip(s)[0]) && !IsSpace(Strip(s)[|Strip(s)| - 1])
  {
    if s != [] {
      if IsSpace(s[0]) { StripLeavesNone(s[1..]); }
      else if IsSpace(s[|s| - 1]) { StripLeavesNone(s[..|s| - 1]); }
    }
  }

  /** A sign in front of a number is read as one. */
  lemma SignsAreRead(n: nat)
    ensures ParseInt("+" + Digits(n)) == Some(n) && ParseInt("-" + Digits(n)) == Some(-(n as int))
  {
    DecimalOfDigits(n);
    var plus, minus := "+" + Digits(n), "-" + Digits(n);
    assert Strip(plus) == plus && plus[1..] == Digits(n);
    assert Strip(minus) == minus && minus[1..] == Digits(n);
  }
}
