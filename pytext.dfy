/** The Python string builtins the weather window relies on: `str.strip()`,
    `str.startswith`, `in` on strings, slicing `s[i:j]`, `str.split(',')`
    and `int()` on the two-character hour field of a timestamp. */
module PyText {
  import opened Wrappers

  /** The characters for which Python's `str.isspace()` holds: tab, line
      feed, vertical tab, form feed, carriage return, the four information
      separators U+001C to U+001F, space, next line, no-break space, U+1680,
      U+2000 to U+200A, the line and paragraph separators, U+202F, U+205F
      and U+3000. */
  const Spaces: set<char> := {
    '\t', '\n', '\U{0B}', '\U{0C}', '\r',
    '\U{1C}', '\U{1D}', '\U{1E}', '\U{1F}',
    ' ', '\U{85}', '\U{A0}', '\U{1680}',
    '\U{2000}', '\U{2001}', '\U{2002}', '\U{2003}', '\U{2004}', '\U{2005}',
    '\U{2006}', '\U{2007}', '\U{2008}', '\U{2009}', '\U{200A}',
    '\U{2028}', '\U{2029}', '\U{202F}', '\U{205F}', '\U{3000}'
  }

  /** Whether `str.strip()` with no argument removes `c`. */
  predicate IsSpace(c: char) {
    c in Spaces
  }

  /** `s.lstrip()`: a suffix of `s` that starts past all leading whitespace. */
  function TrimLeft(s: string): (r: string)
    ensures |r| <= |s|
    ensures r == [] || !IsSpace(r[0])
  {
    if s != [] && IsSpace(s[0]) then TrimLeft(s[1..]) else s
  }

  /** What `lstrip` removes is whitespace. */
  lemma {:induction false} TrimLeftRemovesSpace(s: string)
    ensures forall k | 0 <= k < |s| - |TrimLeft(s)| :: IsSpace(s[k])
  {
    if s != [] && IsSpace(s[0]) {
      TrimLeftRemovesSpace(s[1..]);
      assert forall k | 1 <= k < |s| :: s[k] == s[1..][k - 1];
    }
  }

  /** `s.rstrip()`: a prefix of `s` that ends before all trailing whitespace. */
  function TrimRight(s: string): (r: string)
    ensures |r| <= |s|
    ensures r == [] || !IsSpace(r[|r| - 1])
  {
    if s != [] && IsSpace(s[|s| - 1]) then TrimRight(s[..|s| - 1]) else s
  }

  /** What `rstrip` removes is whitespace. */
  lemma {:induction false} TrimRightRemovesSpace(s: string)
    ensures forall k | |TrimRight(s)| <= k < |s| :: IsSpace(s[k])
  {
    if s != [] && IsSpace(s[|s| - 1]) {
      TrimRightRemovesSpace(s[..|s| - 1]);
      assert forall k | 0 <= k < |s| - 1 :: s[k] == s[..|s| - 1][k];
    }
  }

  /** `s.strip()`: the middle of `s` left once the whitespace at both ends
      is cut, and only that whitespace. */
  function Strip(s: string): (r: string)
    ensures |r| <= |s|
    ensures r == [] || (!IsSpace(r[0]) && !IsSpace(r[|r| - 1]))
    ensures exists a, b | 0 <= a <= b <= |s| ::
              && r == s[a..b]
              && (forall k | 0 <= k < a :: IsSpace(s[k]))
              && (forall k | b <= k < |s| :: IsSpace(s[k]))
  {
    TrimRightPrefix(TrimLeft(s));
    StripBounds(s);
    TrimRight(TrimLeft(s))
  }

  /** `rstrip` after `lstrip` keeps `s[a..b]`, with only whitespace before
      `a` and after `b`. */
  lemma StripBounds(s: string)
    ensures var t := TrimLeft(s);
      var a := |s| - |t|;
      var b := a + |TrimRight(t)|;
      && 0 <= a <= b <= |s|
      && TrimRight(t) == s[a..b]
      && (forall k | 0 <= k < a :: IsSpace(s[k]))
      && (forall k | b <= k < |s| :: IsSpace(s[k]))
  {
    var t := TrimLeft(s);
    var r := TrimRight(t);
    TrimLeftSuffix(s);
    TrimLeftRemovesSpace(s);
    TrimRightPrefix(t);
    TrimRightRemovesSpace(t);
    PrefixOfSuffix(s, |s| - |t|, |r|);
    forall k | |s| - |t| + |r| <= k < |s|
      ensures IsSpace(s[k])
    {
      assert s[k] == t[k - (|s| - |t|)];
    }
  }

  /** A prefix of the suffix `s[a..]` is the infix of `s` starting at `a`. */
  lemma PrefixOfSuffix(s: string, a: nat, n: nat)
    requires a + n <= |s|
    ensures s[a..][..n] == s[a..a + n]
  {
  }

  /** `rstrip` keeps a prefix. */
  lemma {:induction false} TrimRightPrefix(s: string)
    ensures TrimRight(s) == s[..|TrimRight(s)|]
  {
    if s != [] && IsSpace(s[|s| - 1]) {
      TrimRightPrefix(s[..|s| - 1]);
    }
  }

  /** `lstrip` keeps a suffix. */
  lemma {:induction false} TrimLeftSuffix(s: string)
    ensures TrimLeft(s) == s[|s| - |TrimLeft(s)|..]
  {
    if s != [] && IsSpace(s[0]) {
      TrimLeftSuffix(s[1..]);
    }
  }

  /** Stripping twice removes nothing more. */
  lemma StripIdempotent(s: string)
    ensures Strip(Strip(s)) == Strip(s)
  {
    var r := Strip(s);
    assert TrimLeft(r) == r;
    assert TrimRight(r) == r;
  }

  /** A string with no whitespace at either end is its own strip. */
  lemma StripUnpadded(s: string)
    requires s == [] || (!IsSpace(s[0]) && !IsSpace(s[|s| - 1]))
    ensures Strip(s) == s
  {
  }

  /** `prefix` in `s.startswith(prefix)`. */
  predicate StartsWith(s: string, prefix: string) {
    prefix <= s
  }

  /** `needle in hay` for two strings: some position of `hay` begins with `needle`. */
  predicate Occurs(needle: string, hay: string)
    decreases |hay|
  {
    needle <= hay || (hay != [] && Occurs(needle, hay[1..]))
  }

  /** Python slicing `s[i:j]` with non-negative bounds: both bounds are
      clamped to the length, and a reversed range is empty. */
  function Slice(s: string, i: nat, j: nat): (r: string)
    ensures j <= |s| && i <= j ==> r == s[i..j]
    ensures |r| <= |s|
  {
    var a := if i < |s| then i else |s|;
    var b := if j < |s| then j else |s|;
    if a <= b then s[a..b] else []
  }

  /** Number of occurrences of `c` in `s`. */
  function Count(s: string, c: char): nat {
    if s == [] then 0 else (if s[0] == c then 1 else 0) + Count(s[1..], c)
  }

  /** `s.split(sep)` for a one-character separator: the pieces between
      separators, as many as there are separators plus one. */
  function Split(s: string, sep: char): (parts: seq<string>)
    ensures |parts| == Count(s, sep) + 1
    ensures forall k | 0 <= k < |parts| :: sep !in parts[k]
  {
    if s == [] then [""]
    else
      var rest := Split(s[1..], sep);
      if s[0] == sep then [""] + rest
      else [[s[0]] + rest[0]] + rest[1..]
  }

  /** `sep.join(parts)`. */
  function Join(parts: seq<string>, sep: char): string
    requires |parts| >= 1
  {
    if |parts| == 1 then parts[0] else parts[0] + [sep] + Join(parts[1..], sep)
  }

  lemma JoinConsHead(c: char, parts: seq<string>, sep: char)
    requires |parts| >= 1
    ensures Join([[c] + parts[0]] + parts[1..], sep) == [c] + Join(parts, sep)
  {
    var q := [[c] + parts[0]] + parts[1..];
    assert q[1..] == parts[1..];
  }

  /** Splitting loses nothing: joining the pieces back gives the string. */
  lemma {:induction false} SplitJoin(s: string, sep: char)
    ensures Join(Split(s, sep), sep) == s
  {
    if s != [] {
      var rest := Split(s[1..], sep);
      SplitJoin(s[1..], sep);
      if s[0] == sep {
        assert ([""] + rest)[1..] == rest;
        assert Join([""] + rest, sep) == [sep] + Join(rest, sep);
      } else {
        JoinConsHead(s[0], rest, sep);
      }
      assert s == [s[0]] + s[1..];
    }
  }

  predicate IsDigit(c: char) {
    '0' <= c <= '9'
  }

  predicate AllDigits(ds: string) {
    forall k | 0 <= k < |ds| :: IsDigit(ds[k])
  }

  /** The value of a run of ASCII decimal digits, most significant first. */
  function DigitsValue(ds: string): nat
    requires AllDigits(ds)
  {
    if ds == [] then 0
    else DigitsValue(ds[..|ds| - 1]) * 10 + ((ds[|ds| - 1] as int) - ('0' as int))
  }

  /** Python `int(s)` on a string: surrounding whitespace is ignored, one
      optional sign, then at least one decimal digit. Python additionally
      accepts `_` between digits and non-ASCII decimal digits; neither can
      occur in the two-character field this is applied to (a lone `_` is
      never accepted, and the timestamps are ASCII). */
  function PyInt(s: string): Option<int> {
    ReadInt(Strip(s))
  }

  /** An optional sign followed by at least one digit, and nothing else. */
  function ReadInt(t: string): Option<int> {
    if t != [] && (t[0] == '+' || t[0] == '-') then
      var ds := t[1..];
      if ds != [] && AllDigits(ds) then
        Some(if t[0] == '-' then -(DigitsValue(ds) as int) else DigitsValue(ds))
      else None
    else if t != [] && AllDigits(t) then Some(DigitsValue(t))
    else None
  }

  lemma DigitsValueTwo(ds: string)
    requires |ds| == 2 && AllDigits(ds)
    ensures DigitsValue(ds) == 10 * ((ds[0] as int) - 48) + ((ds[1] as int) - 48)
  {
    var head := ds[..1];
    assert head[..0] == [];
    assert DigitsValue(head) == (ds[0] as int) - 48;
    assert ds[..|ds| - 1] == head;
  }

  /** Two ASCII digits read as a number from 0 to 99, as `int("07") == 7`. */
  lemma PyIntTwoDigits(s: string)
    requires |s| == 2 && IsDigit(s[0]) && IsDigit(s[1])
    ensures PyInt(s) == Some(10 * ((s[0] as int) - 48) + ((s[1] as int) - 48))
  {
    assert !IsSpace(s[0]) && !IsSpace(s[1]);
    StripUnpadded(s);
    assert AllDigits(s);
    DigitsValueTwo(s);
    assert ReadInt(s) == Some(DigitsValue(s));
  }

  /** `s[i:i+2]` inside the string holds the two characters at `i`. */
  lemma SliceTwo(s: string, i: nat)
    requires i + 2 <= |s|
    ensures |Slice(s, i, i + 2)| == 2
    ensures Slice(s, i, i + 2)[0] == s[i] && Slice(s, i, i + 2)[1] == s[i + 1]
  {
  }

  /** A two-character field `s[i:i+2]` of ASCII digits read as a number. */
  lemma PyIntDigitField(s: string, i: nat)
    requires i + 2 <= |s| && IsDigit(s[i]) && IsDigit(s[i + 1])
    ensures PyInt(Slice(s, i, i + 2)) == Some(10 * ((s[i] as int) - 48) + ((s[i + 1] as int) - 48))
  {
    SliceTwo(s, i);
    PyIntTwoDigits(Slice(s, i, i + 2));
  }
}
