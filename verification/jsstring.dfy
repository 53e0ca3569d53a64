/**
  JavaScript string primitives used by the dialogue engine and the views.

  A JavaScript string is a sequence of UTF-16 code units: `length`,
  `charCodeAt`, `charAt` and `slice` all count code units, so that is
  how strings are represented here. The module gives the primitives the
  application relies on — `trim`, `split` by a separator, `split`'s
  inverse `join`, a global literal `replace`, and ASCII case mapping —
  together with the facts about them that the rest of the model uses.
*/
module JsString {

  /** One UTF-16 code unit. */
  newtype CodeUnit = x: int | 0 <= x < 0x1_0000

  /** A JavaScript string value. */
  type Str = seq<CodeUnit>

  const LINE_FEED: CodeUnit := 0x0A
  const DOLLAR: CodeUnit := 0x24
  const LEFT_BRACE: CodeUnit := 0x7B

  // ------------------------------------------------------------------
  // Source text to code units
  // ------------------------------------------------------------------

  /** UTF-16 encoding of a sequence of Unicode scalar values: characters of
      the Basic Multilingual Plane take one code unit, all others a
      surrogate pair. */
  function Utf16(s: string): (r: Str)
    ensures |r| >= |s|
  {
    if s == [] then []
    else
      var c := s[0] as int;
      (if c < 0x1_0000 then [c as CodeUnit]
       else [(0xD800 + (c - 0x1_0000) / 0x400) as CodeUnit,
             (0xDC00 + (c - 0x1_0000) % 0x400) as CodeUnit])
      + Utf16(s[1..])
  }

  ghost predicate IsBmp(s: string) {
    forall i :: 0 <= i < |s| ==> (s[i] as int) < 0x1_0000
  }

  /** The code units of literal text of the application, one per character.
      Every literal of the application lies in the Basic Multilingual Plane,
      where this is exactly the UTF-16 encoding (see `UnitsIsUtf16`); a
      character outside it would become U+FFFD. */
  function Units(s: string): (r: Str)
    ensures |r| == |s|
    ensures forall i :: 0 <= i < |s| && (s[i] as int) < 0x1_0000 ==> r[i] as int == s[i] as int
  {
    seq(|s|, i requires 0 <= i < |s| =>
      if (s[i] as int) < 0x1_0000 then (s[i] as int) as CodeUnit else 0xFFFD)
  }

  /** On text of the Basic Multilingual Plane, `Units` is the UTF-16
      encoding. */
  lemma {:induction false} UnitsIsUtf16(s: string)
    requires IsBmp(s)
    ensures Units(s) == Utf16(s)
  {
    if s != [] {
      UnitsIsUtf16(s[1..]);
      assert Units(s) == [Units(s)[0]] + Units(s[1..]);
    }
  }

  /** A character of the Basic Multilingual Plane that the text does not
      contain is not among its units either. */
  lemma UnitsAvoid(s: string, c: char)
    requires (c as int) < 0xD800
    requires c !in s
    ensures (c as int as CodeUnit) !in Units(s)
  {
  }

  // ------------------------------------------------------------------
  // String.prototype.trim
  // ------------------------------------------------------------------

  /** The code units `trim` removes: ECMAScript's WhiteSpace (tab, vertical
      tab, form feed, zero-width no-break space and the space separators of
      category Zs) and LineTerminator (line feed, carriage return, line and
      paragraph separators). */
  predicate IsWhitespace(u: CodeUnit) {
    || u == 0x09 || u == 0x0A || u == 0x0B || u == 0x0C || u == 0x0D
    || u == 0x20 || u == 0xA0 || u == 0x1680
    || (0x2000 <= u <= 0x200A)
    || u == 0x2028 || u == 0x2029 || u == 0x202F || u == 0x205F
    || u == 0x3000 || u == 0xFEFF
  }

  /** Every unit of `s` is whitespace. */
  predicate AllWhitespace(s: Str) {
    forall i :: 0 <= i < |s| ==> IsWhitespace(s[i])
  }

  /** Neither end of `s` is whitespace. */
  predicate IsTrimmed(s: Str) {
    s == [] || (!IsWhitespace(s[0]) && !IsWhitespace(s[|s| - 1]))
  }

  /** Leading whitespace removed: the result is no longer than `s` and does
      not start with whitespace (it is a suffix of `s`, see
      `TrimStartIsSuffix`). */
  function TrimStart(s: Str): (r: Str)
    ensures |r| <= |s|
    ensures r == [] || !IsWhitespace(r[0])
  {
    if |s| > 0 && IsWhitespace(s[0]) then TrimStart(s[1..]) else s
  }

  /** Trailing whitespace removed: the result starts where `s` does and does
      not end with whitespace (it is a prefix of `s`, see `TrimEndIsPrefix`). */
  function TrimEnd(s: Str): (r: Str)
    ensures |r| <= |s|
    ensures r == [] || (r[0] == s[0] && !IsWhitespace(r[|r| - 1]))
  {
    if |s| > 0 && IsWhitespace(s[|s| - 1]) then TrimEnd(s[..|s| - 1]) else s
  }

  lemma {:induction false} TrimStartIsSuffix(s: Str)
    ensures TrimStart(s) == s[|s| - |TrimStart(s)|..]
  {
    if |s| > 0 && IsWhitespace(s[0]) {
      TrimStartIsSuffix(s[1..]);
      assert s[1..][|s| - 1 - |TrimStart(s)|..] == s[|s| - |TrimStart(s)|..];
    }
  }

  lemma {:induction false} TrimEndIsPrefix(s: Str)
    ensures TrimEnd(s) == s[..|TrimEnd(s)|]
  {
    if |s| > 0 && IsWhitespace(s[|s| - 1]) {
      TrimEndIsPrefix(s[..|s| - 1]);
      assert s[..|s| - 1][..|TrimEnd(s)|] == s[..|TrimEnd(s)|];
    }
  }

  /** What `TrimStart` drops is whitespace. */
  lemma {:induction false} TrimStartDropsWhitespace(s: Str)
    ensures AllWhitespace(s[..|s| - |TrimStart(s)|])
  {
    if |s| > 0 && IsWhitespace(s[0]) {
      TrimStartDropsWhitespace(s[1..]);
      TrimStartIsSuffix(s[1..]);
      var d := |s| - |TrimStart(s)|;
      assert s[1..][..d - 1] == s[1..d];
    }
  }

  /** What `TrimEnd` drops is whitespace. */
  lemma {:induction false} TrimEndDropsWhitespace(s: Str)
    ensures AllWhitespace(s[|TrimEnd(s)|..])
  {
    if |s| > 0 && IsWhitespace(s[|s| - 1]) {
      TrimEndDropsWhitespace(s[..|s| - 1]);
      TrimEndIsPrefix(s[..|s| - 1]);
      var n := |TrimEnd(s)|;
      assert s[..|s| - 1][n..] == s[n..|s| - 1];
    }
  }

  /** `s.trim()`: strips ECMAScript whitespace and line terminators from both
      ends, leaving a string with whitespace at neither end. */
  function Trim(s: Str): (r: Str)
    ensures IsTrimmed(r)
    ensures |r| <= |s|
  {
    TrimEnd(TrimStart(s))
  }

  /** `s` is `r` framed by whitespace on both sides. */
  ghost predicate Framed(s: Str, r: Str) {
    exists i :: 0 <= i <= |s| - |r| && s[i..i + |r|] == r
                && AllWhitespace(s[..i]) && AllWhitespace(s[i + |r|..])
  }

  /** `Trim(s)` is a contiguous slice of `s` with only whitespace around it. */
  lemma TrimFramed(s: Str)
    ensures Framed(s, Trim(s))
  {
    var t := TrimStart(s);
    var r := Trim(s);
    var i := |s| - |t|;
    TrimStartIsSuffix(s);
    TrimEndIsPrefix(t);
    TrimStartDropsWhitespace(s);
    TrimEndDropsWhitespace(t);
    assert s[i..i + |r|] == t[..|r|];
    assert s[i + |r|..] == t[|r|..];
    assert 0 <= i <= |s| - |r| && s[i..i + |r|] == r
           && AllWhitespace(s[..i]) && AllWhitespace(s[i + |r|..]);
  }

  /** `trim` empties exactly the strings made only of whitespace. */
  lemma TrimEmptyIffAllWhitespace(s: Str)
    ensures Trim(s) == [] <==> AllWhitespace(s)
  {
    var t := TrimStart(s);
    var i := |s| - |t|;
    TrimStartIsSuffix(s);
    TrimStartDropsWhitespace(s);
    TrimEndDropsWhitespace(t);
    if Trim(s) == [] {
      assert t[0..] == t;
      assert s == s[..i] + t;
    }
  }

  /** "Blank" in JavaScript's sense: `!s.trim()` is true. */
  predicate IsBlank(s: Str)
    ensures IsBlank(s) <==> AllWhitespace(s)
  {
    TrimEmptyIffAllWhitespace(s);
    Trim(s) == []
  }

  /** A string without leading or trailing whitespace is its own trim. */
  lemma TrimOfTrimmed(s: Str)
    requires IsTrimmed(s)
    ensures Trim(s) == s
  {
  }

  /** The strings `trim` leaves alone are exactly those with no whitespace
      at either end. */
  lemma TrimmedIsFixedPoint(s: Str)
    ensures IsTrimmed(s) <==> Trim(s) == s
  {
    if IsTrimmed(s) {
      TrimOfTrimmed(s);
    }
  }

  /** Trimming is idempotent. */
  lemma TrimIdempotent(s: Str)
    ensures Trim(Trim(s)) == Trim(s)
  {
    TrimOfTrimmed(Trim(s));
  }

  /** Every code unit of `Trim(s)` is a code unit of `s`. */
  lemma TrimUnitsFromSource(s: Str, u: CodeUnit)
    requires u in Trim(s)
    ensures u in s
  {
    var t := TrimStart(s);
    var r := Trim(s);
    var k :| 0 <= k < |r| && r[k] == u;
    TrimStartIsSuffix(s);
    TrimEndIsPrefix(t);
    assert t[k] == u;
    assert s[|s| - |t| + k] == u;
  }

  // ------------------------------------------------------------------
  // Occurrence, split and join
  // ------------------------------------------------------------------

  predicate StartsWith(s: Str, prefix: Str) {
    |s| >= |prefix| && s[..|prefix|] == prefix
  }

  /** `pat` occurs somewhere in `s` (`s.includes(pat)`). */
  predicate Occurs(pat: Str, s: Str)
    requires |pat| > 0
    decreases |s|
  {
    |s| >= |pat| && (StartsWith(s, pat) || Occurs(pat, s[1..]))
  }

  /** `s.split(sep)` for a non-empty separator: the pieces between the
      leftmost non-overlapping occurrences of `sep`. There is always at
      least one piece, the first piece is a prefix of `s`, and no piece
      contains the separator. When the separator can overlap itself
      (`"aa"` in `"aaa"`) these facts alone do not fix which occurrence is
      taken; the definition takes the leftmost one, as JavaScript does, and
      the application only ever splits on a single line feed. */
  function SplitOn(s: Str, sep: Str): (parts: seq<Str>)
    requires |sep| > 0
    ensures |parts| >= 1
    ensures StartsWith(s, parts[0])
    ensures forall k :: 0 <= k < |parts| ==> !Occurs(sep, parts[k])
    decreases |s|
  {
    if |s| < |sep| then
      [s]
    else if StartsWith(s, sep) then
      [[]] + SplitOn(s[|sep|..], sep)
    else
      var rest := SplitOn(s[1..], sep);
      var first := [s[0]] + rest[0];
      assert !StartsWith(first, sep);
      [first] + rest[1..]
  }

  /** `parts.join(sep)`. */
  function Join(parts: seq<Str>, sep: Str): (r: Str)
    ensures |parts| == 1 ==> r == parts[0]
  {
    if |parts| == 0 then []
    else if |parts| == 1 then parts[0]
    else parts[0] + sep + Join(parts[1..], sep)
  }

  lemma JoinConsFirst(u: CodeUnit, parts: seq<Str>, sep: Str)
    requires |parts| >= 1
    ensures Join([[u] + parts[0]] + parts[1..], sep) == [u] + Join(parts, sep)
  {
    var q := [[u] + parts[0]] + parts[1..];
    if |parts| > 1 {
      assert q[1..] == parts[1..];
    }
  }

  /** Joining the pieces of a split with the same separator gives back the
      original string. */
  lemma {:induction false} JoinSplitOn(s: Str, sep: Str)
    requires |sep| > 0
    ensures Join(SplitOn(s, sep), sep) == s
    decreases |s|
  {
    if |s| < |sep| {
    } else if StartsWith(s, sep) {
      var rest := SplitOn(s[|sep|..], sep);
      JoinSplitOn(s[|sep|..], sep);
      assert ([[]] + rest)[1..] == rest;
      assert s == sep + s[|sep|..];
    } else {
      var rest := SplitOn(s[1..], sep);
      JoinSplitOn(s[1..], sep);
      JoinConsFirst(s[0], rest, sep);
      assert s == [s[0]] + s[1..];
    }
  }

  /** Number of occurrences of a code unit. */
  function CountUnit(s: Str, u: CodeUnit): nat {
    if s == [] then 0 else (if s[0] == u then 1 else 0) + CountUnit(s[1..], u)
  }

  /** Splitting on a single code unit yields one more piece than there are
      occurrences of that unit. */
  lemma {:induction false} SplitOnUnitCount(s: Str, u: CodeUnit)
    ensures |SplitOn(s, [u])| == CountUnit(s, u) + 1
    decreases |s|
  {
    if s != [] {
      SplitOnUnitCount(s[1..], u);
      assert StartsWith(s, [u]) <==> s[0] == u;
    }
  }

  /** A string without occurrences of a single-unit separator is one piece. */
  lemma {:induction false} SplitOnUnitFree(s: Str, u: CodeUnit)
    requires u !in s
    ensures SplitOn(s, [u]) == [s]
    decreases |s|
  {
    if s != [] {
      SplitOnUnitFree(s[1..], u);
      assert s[..1] == [s[0]];
      assert [s[0]] + s[1..] == s;
    }
  }

  lemma {:induction false} SplitOnUnitAfterFree(p: Str, u: CodeUnit, t: Str)
    requires u !in p
    ensures SplitOn(p + [u] + t, [u]) == [p] + SplitOn(t, [u])
    decreases |p|
  {
    var s := p + [u] + t;
    if p == [] {
      assert StartsWith(s, [u]);
      assert s[1..] == t;
    } else {
      assert s[..1] == [p[0]];
      assert s[1..] == p[1..] + [u] + t;
      SplitOnUnitAfterFree(p[1..], u, t);
      assert [p[0]] + p[1..] == p;
    }
  }

  /** Splitting a join of separator-free pieces gives back the pieces. */
  lemma {:induction false} SplitOnJoin(parts: seq<Str>, u: CodeUnit)
    requires |parts| >= 1
    requires forall k :: 0 <= k < |parts| ==> u !in parts[k]
    ensures SplitOn(Join(parts, [u]), [u]) == parts
    decreases |parts|
  {
    if |parts| == 1 {
      SplitOnUnitFree(parts[0], u);
    } else {
      SplitOnJoin(parts[1..], u);
      SplitOnUnitAfterFree(parts[0], u, Join(parts[1..], [u]));
      assert [parts[0]] + parts[1..] == parts;
    }
  }

  // ------------------------------------------------------------------
  // String.prototype.replace with a global literal pattern
  // ------------------------------------------------------------------

  /** `s.replace(/pat/g, rep)` for a pattern without regular-expression
      metacharacters and a replacement without `$`: scan from the left,
      replace each match, and resume after it. A replacement as long as the
      pattern keeps the length, and the pattern alone becomes the
      replacement. */
  function ReplaceAll(s: Str, pat: Str, rep: Str): (r: Str)
    requires |pat| > 0
    ensures |rep| == |pat| ==> |r| == |s|
    ensures s == pat ==> r == rep
    decreases |s|
  {
    if |s| < |pat| then s
    else if StartsWith(s, pat) then rep + ReplaceAll(s[|pat|..], pat, rep)
    else [s[0]] + ReplaceAll(s[1..], pat, rep)
  }

  /** A global replace is the same as splitting on the pattern and joining the
      pieces with the replacement. */
  lemma {:induction false} ReplaceAllIsSplitJoin(s: Str, pat: Str, rep: Str)
    requires |pat| > 0
    ensures ReplaceAll(s, pat, rep) == Join(SplitOn(s, pat), rep)
    decreases |s|
  {
    if |s| < |pat| {
    } else if StartsWith(s, pat) {
      var rest := SplitOn(s[|pat|..], pat);
      ReplaceAllIsSplitJoin(s[|pat|..], pat, rep);
      assert ([[]] + rest)[1..] == rest;
    } else {
      var rest := SplitOn(s[1..], pat);
      ReplaceAllIsSplitJoin(s[1..], pat, rep);
      JoinConsFirst(s[0], rest, rep);
    }
  }

  /** Text in which the pattern does not occur is left unchanged. */
  lemma {:induction false} ReplaceAllAbsent(s: Str, pat: Str, rep: Str)
    requires |pat| > 0
    requires !Occurs(pat, s)
    ensures ReplaceAll(s, pat, rep) == s
    decreases |s|
  {
    if |s| >= |pat| {
      ReplaceAllAbsent(s[1..], pat, rep);
      assert [s[0]] + s[1..] == s;
    }
  }

  /** `ReplaceAllAbsent` as an implication, for use inside definitions. */
  lemma ReplaceAllAbsentIf(s: Str, pat: Str, rep: Str)
    requires |pat| > 0
    ensures !Occurs(pat, s) ==> ReplaceAll(s, pat, rep) == s
  {
    if !Occurs(pat, s) {
      ReplaceAllAbsent(s, pat, rep);
    }
  }

  /** The pattern alone is replaced by the replacement. */
  lemma ReplaceAllWhole(pat: Str, rep: Str)
    requires |pat| > 0
    ensures ReplaceAll(pat, pat, rep) == rep
  {
    assert pat[|pat|..] == [];
  }

  /** A pattern that starts with a unit absent from `s` does not occur in `s`. */
  lemma {:induction false} AbsentFirstUnit(pat: Str, s: Str)
    requires |pat| > 0
    requires pat[0] !in s
    ensures !Occurs(pat, s)
    decreases |s|
  {
    if |s| >= |pat| {
      assert s[0] != pat[0];
      AbsentFirstUnit(pat, s[1..]);
    }
  }

  /** Two different strings of the same length do not occur in each other. */
  lemma SameLengthOccurs(pat: Str, s: Str)
    requires |pat| > 0 && |s| == |pat|
    ensures Occurs(pat, s) <==> s == pat
  {
    assert s[..|pat|] == s;
  }

  // ------------------------------------------------------------------
  // ASCII case mapping
  // ------------------------------------------------------------------

  predicate IsAsciiUpper(u: CodeUnit) { 0x41 <= u <= 0x5A }
  predicate IsAsciiLower(u: CodeUnit) { 0x61 <= u <= 0x7A }

  /** `toUpperCase` restricted to ASCII letters. */
  function UpperUnit(u: CodeUnit): (r: CodeUnit)
    ensures !IsAsciiLower(r)
    ensures IsAsciiLower(u) ==> IsAsciiUpper(r) && r as int == u as int - 0x20
    ensures !IsAsciiLower(u) ==> r == u
  {
    if IsAsciiLower(u) then u - 0x20 else u
  }

  /** `toLowerCase` restricted to ASCII letters. */
  function LowerUnit(u: CodeUnit): (r: CodeUnit)
    ensures !IsAsciiUpper(r)
    ensures IsAsciiUpper(u) ==> IsAsciiLower(r) && r as int == u as int + 0x20
    ensures !IsAsciiUpper(u) ==> r == u
  {
    if IsAsciiUpper(u) then u + 0x20 else u
  }

  /** `s.toLowerCase()` restricted to ASCII letters. */
  function ToLower(s: Str): (r: Str)
    ensures |r| == |s|
    ensures forall i :: 0 <= i < |s| ==> r[i] == LowerUnit(s[i])
  {
    seq(|s|, i requires 0 <= i < |s| => LowerUnit(s[i]))
  }

  /** Upper-casing the lower case of a unit gives its upper case. */
  lemma UpperOfLower(u: CodeUnit)
    ensures UpperUnit(LowerUnit(u)) == UpperUnit(u)
  {
  }

  /** Upper-casing a letter and lower-casing it again gives its lower case. */
  lemma LowerOfUpper(u: CodeUnit)
    ensures LowerUnit(UpperUnit(u)) == LowerUnit(u)
  {
  }
}
