/** A value the source may leave out: a missing operationId, a malformed token. */
module Wrappers {
  datatype Option<+T> = None | Some(value: T)
}

/**
 * The Python `str` operations the two translators are built from, written
 * out over `string` (a `seq<char>`): `strip()`, `split(sep)`, `sep.join(parts)`,
 * `lower()`, `upper()`, the substring test `needle in hay` and `replace`.
 */
module Text {

  /** Python's `str.isspace()` for one character: ASCII and Unicode whitespace. */
  predicate IsSpace(c: char) {
    || c == ' '
    || ('\t' <= c <= '\r')
    || ('\U{1C}' <= c <= '\U{1F}')
    || c == '\U{85}' || c == '\U{A0}' || c == '\U{1680}'
    || ('\U{2000}' <= c <= '\U{200A}')
    || c == '\U{2028}' || c == '\U{2029}' || c == '\U{202F}' || c == '\U{205F}'
    || c == '\U{3000}'
  }

  predicate AllSpace(s: string) {
    forall i :: 0 <= i < |s| ==> IsSpace(s[i])
  }

  /** The text neither starts nor ends with whitespace. */
  predicate Trimmed(s: string) {
    s == [] || (!IsSpace(s[0]) && !IsSpace(s[|s| - 1]))
  }

  /** `s.lstrip()`: the text after its leading whitespace. */
  function TrimStart(s: string): (r: string)
    ensures |r| <= |s|
    decreases |s|
  {
    if s != [] && IsSpace(s[0]) then TrimStart(s[1..]) else s
  }

  /** `s.rstrip()`: the text before its trailing whitespace. */
  function TrimEnd(s: string): (r: string)
    ensures |r| <= |s|
    decreases |s|
  {
    if s != [] && IsSpace(s[|s| - 1]) then TrimEnd(s[..|s| - 1]) else s
  }

  /** `lstrip()` drops a whitespace prefix and keeps the suffix from the first other character. */
  lemma {:induction false} TrimStartSpec(s: string)
    ensures var r := TrimStart(s);
      && r == s[|s| - |r|..]
      && AllSpace(s[..|s| - |r|])
      && (r == [] || !IsSpace(r[0]))
    decreases |s|
  {
    if s != [] && IsSpace(s[0]) {
      TrimStartSpec(s[1..]);
      var r := TrimStart(s);
      assert s[..|s| - |r|] == [s[0]] + s[1..][..|s| - 1 - |r|];
    }
  }

  /** `rstrip()` drops a whitespace suffix and keeps the prefix up to the last other character. */
  lemma {:induction false} TrimEndSpec(s: string)
    ensures var r := TrimEnd(s);
      && r == s[..|r|]
      && AllSpace(s[|r|..])
      && (r == [] || !IsSpace(r[|r| - 1]))
    decreases |s|
  {
    if s != [] && IsSpace(s[|s| - 1]) {
      TrimEndSpec(s[..|s| - 1]);
      var r := TrimEnd(s);
      assert s[|r|..] == s[..|s| - 1][|r|..] + [s[|s| - 1]];
    }
  }

  /** `s.strip()`: an infix of `s` that starts and ends with no whitespace. */
  function Strip(s: string): (r: string)
    ensures |r| <= |s|
    ensures Trimmed(r)
  {
    TrimStartSpec(s);
    TrimEndSpec(TrimStart(s));
    TrimEnd(TrimStart(s))
  }

  lemma {:induction false} TrimStartOf(lead: string, rest: string)
    requires AllSpace(lead)
    requires rest == [] || !IsSpace(rest[0])
    ensures TrimStart(lead + rest) == rest
    decreases |lead|
  {
    if lead == [] {
      assert lead + rest == rest;
    } else {
      assert (lead + rest)[1..] == lead[1..] + rest;
      TrimStartOf(lead[1..], rest);
    }
  }

  lemma {:induction false} TrimEndOf(core: string, trail: string)
    requires AllSpace(trail)
    requires core == [] || !IsSpace(core[|core| - 1])
    ensures TrimEnd(core + trail) == core
    decreases |trail|
  {
    if trail == [] {
      assert core + trail == core;
    } else {
      var s := core + trail;
      assert s[..|s| - 1] == core + trail[..|trail| - 1];
      TrimEndOf(core, trail[..|trail| - 1]);
    }
  }

  /** `strip()` removes exactly the whitespace around a trimmed core. */
  lemma StripAround(lead: string, core: string, trail: string)
    requires AllSpace(lead) && AllSpace(trail) && Trimmed(core)
    ensures Strip(lead + core + trail) == core
  {
    if core == [] {
      assert lead + core + trail == (lead + trail) + [];
      TrimStartOf(lead + trail, []);
    } else {
      assert lead + core + trail == lead + (core + trail);
      TrimStartOf(lead, core + trail);
      TrimEndOf(core, trail);
    }
  }

  /** A string with no whitespace at either end is its own `strip()`. */
  lemma StripTrimmed(s: string)
    requires Trimmed(s)
    ensures Strip(s) == s
  {
    assert [] + s + [] == s;
    StripAround([], s, []);
  }

  /** `s.strip()` of whitespace-only text is empty. */
  lemma StripAllSpace(s: string)
    requires AllSpace(s)
    ensures Strip(s) == []
  {
    assert s + [] + [] == s;
    StripAround(s, [], []);
  }

  /** `s.split(sep)` for a one-character separator: every piece between separators. */
  function SplitOn(s: string, sep: char): (r: seq<string>)
    ensures |r| >= 1
    ensures forall k :: 0 <= k < |r| ==> sep !in r[k]
    decreases |s|
  {
    if s == [] then [[]]
    else
      var rest := SplitOn(s[1..], sep);
      if s[0] == sep then [[]] + rest
      else [[s[0]] + rest[0]] + rest[1..]
  }

  /** `sep.join(parts)`. */
  function Join(parts: seq<string>, sep: string): string
    decreases |parts|
  {
    if |parts| == 0 then []
    else if |parts| == 1 then parts[0]
    else parts[0] + sep + Join(parts[1..], sep)
  }

  /** Appending one part to a non-empty join adds one separator and the part. */
  lemma {:induction false} JoinSnoc(parts: seq<string>, p: string, sep: string)
    requires |parts| >= 1
    ensures Join(parts + [p], sep) == Join(parts, sep) + sep + p
    decreases |parts|
  {
    if |parts| == 1 {
      assert (parts + [p])[1..] == [p];
    } else {
      assert (parts + [p])[1..] == parts[1..] + [p];
      JoinSnoc(parts[1..], p, sep);
    }
  }

  /** Joining the pieces of a split with the same separator gives the text back. */
  lemma {:induction false} SplitThenJoin(s: string, sep: char)
    ensures Join(SplitOn(s, sep), [sep]) == s
    decreases |s|
  {
    if s != [] {
      var rest := SplitOn(s[1..], sep);
      SplitThenJoin(s[1..], sep);
      if s[0] == sep {
        assert ([[]] + rest)[1..] == rest;
      } else if |rest| == 1 {
        assert s == [s[0]] + s[1..];
      } else {
        assert ([[s[0]] + rest[0]] + rest[1..])[1..] == rest[1..];
        assert s == [s[0]] + s[1..];
      }
    }
  }

  lemma {:induction false} SplitPrepend(a: string, t: string, sep: char)
    requires sep !in a
    ensures SplitOn(a + t, sep) == [a + SplitOn(t, sep)[0]] + SplitOn(t, sep)[1..]
    decreases |a|
  {
    var r := SplitOn(t, sep);
    if a != [] {
      var s := a + t;
      assert s[0] == a[0] && a[0] != sep;
      assert s[1..] == a[1..] + t;
      var rest := SplitOn(s[1..], sep);
      SplitPrepend(a[1..], t, sep);
      assert rest[0] == a[1..] + r[0] && rest[1..] == r[1..];
      assert [s[0]] + rest[0] == a + r[0];
    } else {
      assert a + t == t && a + r[0] == r[0];
      assert r == [r[0]] + r[1..];
    }
  }

  /** Splitting a join recovers the parts, when no part holds the separator. */
  lemma {:induction false} JoinThenSplit(parts: seq<string>, sep: char)
    requires |parts| >= 1
    requires forall k :: 0 <= k < |parts| ==> sep !in parts[k]
    ensures SplitOn(Join(parts, [sep]), sep) == parts
    decreases |parts|
  {
    var empty: seq<string> := SplitOn([], sep);
    assert empty == [[]];
    if |parts| == 1 {
      SplitPrepend(parts[0], [], sep);
      assert parts[0] + [] == parts[0] && parts[0] + empty[0] == parts[0];
      assert Join(parts, [sep]) == parts[0];
      assert empty[1..] == [];
      assert parts == [parts[0]];
    } else {
      var tail := Join(parts[1..], [sep]);
      var rest := [sep] + tail;
      assert Join(parts, [sep]) == parts[0] + rest;
      SplitPrepend(parts[0], rest, sep);
      assert rest[0] == sep && rest[1..] == tail;
      var x := SplitOn(rest, sep);
      assert x == [[]] + SplitOn(tail, sep);
      JoinThenSplit(parts[1..], sep);
      assert x[0] == [] && x[1..] == parts[1..];
      assert parts[0] + x[0] == parts[0];
      assert parts == [parts[0]] + parts[1..];
    }
  }

  /** `[p.strip() for p in parts]`. */
  function StripAll(parts: seq<string>): seq<string> {
    seq(|parts|, k requires 0 <= k < |parts| => Strip(parts[k]))
  }

  /** The parts after the first, each with one space in front. */
  function Spaced(parts: seq<string>): seq<string> {
    seq(|parts|, k requires 0 <= k < |parts| => " " + parts[k])
  }

  lemma JoinFrontPrefix(x: string, a: string, rest: seq<string>, sep: string)
    ensures Join([x + a] + rest, sep) == x + Join([a] + rest, sep)
  {
    if |rest| > 0 {
      assert ([x + a] + rest)[1..] == rest == ([a] + rest)[1..];
    }
  }

  lemma {:induction false} CommaSpaceJoin(parts: seq<string>)
    requires |parts| >= 1
    ensures Join(parts, ", ") == Join([parts[0]] + Spaced(parts[1..]), ",")
    decreases |parts|
  {
    if |parts| > 1 {
      CommaSpaceJoin(parts[1..]);
      var sp := Spaced(parts[1..]);
      assert sp == [" " + parts[1]] + Spaced(parts[2..]);
      assert parts[1..][1..] == parts[2..];
      assert ([parts[0]] + sp)[1..] == sp;
      JoinFrontPrefix(" ", parts[1], Spaced(parts[2..]), ",");
    }
  }

  lemma StripSpaced(parts: seq<string>)
    requires |parts| >= 1
    requires forall k :: 0 <= k < |parts| ==> Trimmed(parts[k])
    ensures StripAll([parts[0]] + Spaced(parts[1..])) == parts
  {
    var written := [parts[0]] + Spaced(parts[1..]);
    forall k | 0 <= k < |parts| ensures Strip(written[k]) == parts[k] {
      if k == 0 {
        StripTrimmed(parts[0]);
      } else {
        assert written[k] == " " + parts[k] + [];
        StripAround(" ", parts[k], []);
      }
    }
  }

  /**
   * A list written as `", ".join(parts)` reads back, by splitting on commas and
   * stripping each piece, as the same parts, when no part holds a comma or
   * whitespace at its ends.
   */
  lemma CommaListRoundTrip(parts: seq<string>)
    requires |parts| >= 1
    requires forall k :: 0 <= k < |parts| ==> ',' !in parts[k] && Trimmed(parts[k])
    ensures StripAll(SplitOn(Join(parts, ", "), ',')) == parts
  {
    var written := [parts[0]] + Spaced(parts[1..]);
    CommaSpaceJoin(parts);
    forall k | 0 <= k < |written| ensures ',' !in written[k] {
      if k > 0 { assert written[k] == " " + parts[k]; }
    }
    JoinThenSplit(written, ',');
    StripSpaced(parts);
  }

  /** `c.lower()` on ASCII letters. */
  function LowerChar(c: char): char {
    if 'A' <= c <= 'Z' then (c as int + 32) as char else c
  }

  /** `c.upper()` on ASCII letters. */
  function UpperChar(c: char): char {
    if 'a' <= c <= 'z' then (c as int - 32) as char else c
  }

  function ToLower(s: string): string {
    seq(|s|, i requires 0 <= i < |s| => LowerChar(s[i]))
  }

  function ToUpper(s: string): string {
    seq(|s|, i requires 0 <= i < |s| => UpperChar(s[i]))
  }

  /** `upper()` leaves no lower-case letter and loses nothing `lower()` can see. */
  lemma UpperCase(s: string)
    ensures forall i :: 0 <= i < |ToUpper(s)| ==> !('a' <= ToUpper(s)[i] <= 'z')
    ensures ToLower(ToUpper(s)) == ToLower(s)
  {
  }

  /** `needle` stands in `hay` starting at index `i`. */
  predicate OccursAt(hay: string, needle: string, i: int) {
    0 <= i && i + |needle| <= |hay| && forall k :: 0 <= k < |needle| ==> hay[i + k] == needle[k]
  }

  /** `needle in hay` for strings: `needle` occurs somewhere in `hay`. */
  function Contains(hay: string, needle: string): (r: bool)
    ensures r <==> exists i :: OccursAt(hay, needle, i)
    decreases |hay|
  {
    if |hay| < |needle| then false
    else if needle <= hay then
      assert OccursAt(hay, needle, 0);
      true
    else
      var r := Contains(hay[1..], needle);
      assert !OccursAt(hay, needle, 0) by {
        assert hay[..|needle|] != needle;
      }
      assert forall i :: 0 < i ==> OccursAt(hay, needle, i) == OccursAt(hay[1..], needle, i - 1);
      if r then
        var j :| OccursAt(hay[1..], needle, j);
        assert OccursAt(hay, needle, j + 1);
        true
      else
        false
  }

  /**
   * `s.replace(pat, rep)`: every occurrence of `pat`, scanning left to right
   * without overlap, becomes `rep`.
   */
  function ReplaceAll(s: string, pat: string, rep: string): string
    requires pat != []
    decreases |s|
  {
    if s == [] then []
    else if pat <= s then rep + ReplaceAll(s[|pat|..], pat, rep)
    else [s[0]] + ReplaceAll(s[1..], pat, rep)
  }

  /** A text with no occurrence of the pattern is left unchanged. */
  lemma {:induction false} ReplaceAbsent(s: string, pat: string, rep: string)
    requires pat != []
    requires !Contains(s, pat)
    ensures ReplaceAll(s, pat, rep) == s
    decreases |s|
  {
    if s != [] {
      assert !(pat <= s) && !Contains(s[1..], pat);
      ReplaceAbsent(s[1..], pat, rep);
      assert s == [s[0]] + s[1..];
    }
  }

  /** Text in which the pattern cannot start is copied as it is, and the scan goes on after it. */
  lemma {:induction false} ReplaceSkip(y: string, z: string, pat: string, rep: string)
    requires pat != []
    requires pat[0] !in y
    ensures ReplaceAll(y + z, pat, rep) == y + ReplaceAll(z, pat, rep)
    decreases |y|
  {
    if y == [] {
      assert y + z == z;
    } else {
      var s := y + z;
      assert !(pat <= s) by { assert s[0] == y[0]; }
      assert s[1..] == y[1..] + z;
      ReplaceSkip(y[1..], z, pat, rep);
      assert y == [y[0]] + y[1..];
    }
  }

  /**
   * Text before the first possible start of the pattern is copied, the
   * occurrence that follows it is replaced, and the scan resumes after it.
   */
  lemma {:induction false} ReplaceFirst(x: string, pat: string, z: string, rep: string)
    requires pat != []
    requires pat[0] !in x
    ensures ReplaceAll(x + pat + z, pat, rep) == x + rep + ReplaceAll(z, pat, rep)
    decreases |x|
  {
    if x == [] {
      assert x + pat + z == pat + z;
      assert (pat + z)[|pat|..] == z;
    } else {
      var s := x + pat + z;
      assert !(pat <= s) by { assert s[0] == x[0]; }
      assert s[1..] == x[1..] + pat + z;
      ReplaceFirst(x[1..], pat, z, rep);
      assert x == [x[0]] + x[1..];
    }
  }
}
