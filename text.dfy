/** The pieces of .NET string handling the core relies on: `char.IsWhiteSpace`,
    `string.Trim`, `string.IsNullOrEmpty`, `string.IsNullOrWhiteSpace`, `ToLower`
    and `Replace("\n", "<br>")`. Strings are sequences of UTF-16 code units. */
module Text {
  import opened Wrappers

  /** `char.IsWhiteSpace`: the Unicode space, line and paragraph separators,
      U+0009..U+000D and U+0085. */
  predicate IsWhiteSpace(c: char)
  {
    var n := c as int;
    (0x09 <= n <= 0x0D) || n == 0x20 || n == 0x85 || n == 0xA0 || n == 0x1680
    || (0x2000 <= n <= 0x200A) || n == 0x2028 || n == 0x2029 || n == 0x202F
    || n == 0x205F || n == 0x3000
  }

  /** Neither end of `s` is white space. */
  predicate NoEdgeWhiteSpace(s: string)
  {
    s == [] || (!IsWhiteSpace(s[0]) && !IsWhiteSpace(s[|s| - 1]))
  }

  /** `TrimStart()`: drops the leading white space, and only that. */
  function TrimStart(s: string): (r: string)
    ensures |r| <= |s| && r == s[|s| - |r|..]
    ensures r == [] || !IsWhiteSpace(r[0])
    ensures forall i :: 0 <= i < |s| - |r| ==> IsWhiteSpace(s[i])
  {
    if s != [] && IsWhiteSpace(s[0]) then TrimStart(s[1..]) else s
  }

  /** `TrimEnd()`: drops the trailing white space, and only that. */
  function TrimEnd(s: string): (r: string)
    ensures |r| <= |s| && r == s[..|r|]
    ensures r == [] || !IsWhiteSpace(r[|r| - 1])
    ensures forall i :: |r| <= i < |s| ==> IsWhiteSpace(s[i])
  {
    if s != [] && IsWhiteSpace(s[|s| - 1]) then TrimEnd(s[..|s| - 1]) else s
  }

  /** `r` is `s[lo..hi]`, and everything outside that slice is white space. */
  predicate TrimmedSlice(s: string, lo: int, hi: int, r: string)
  {
    0 <= lo <= hi <= |s| && r == s[lo..hi]
    && (forall i :: 0 <= i < lo ==> IsWhiteSpace(s[i]))
    && (forall i :: hi <= i < |s| ==> IsWhiteSpace(s[i]))
  }

  /** `Trim()`: the result is the slice of `s` left after removing white space
      from both ends; everything removed was white space. */
  function Trim(s: string): (r: string)
    ensures NoEdgeWhiteSpace(r)
    ensures exists lo, hi :: TrimmedSlice(s, lo, hi, r)
  {
    var front := TrimStart(s);
    var r := TrimEnd(front);
    TrimBothEnds(s, |s| - |front|, front, r);
    r
  }

  /** Cutting white space off the front and then off the back of what is
      left cuts a slice out of `s`. */
  lemma TrimBothEnds(s: string, lo: nat, front: string, r: string)
    requires lo <= |s| && front == s[lo..] && |r| <= |front| && r == front[..|r|]
    requires forall i :: 0 <= i < lo ==> IsWhiteSpace(s[i])
    requires forall i :: |r| <= i < |front| ==> IsWhiteSpace(front[i])
    ensures TrimmedSlice(s, lo, lo + |r|, r)
  {
    forall i | lo + |r| <= i < |s|
      ensures IsWhiteSpace(s[i])
    {
      assert s[i] == front[i - lo];
    }
  }

  /** A string without white space at either end is its own trim. */
  lemma TrimFixesTrimmed(s: string)
    requires NoEdgeWhiteSpace(s)
    ensures Trim(s) == s
  {
  }

  /** Trimming twice is trimming once. */
  lemma TrimIdempotent(s: string)
    ensures Trim(Trim(s)) == Trim(s)
  {
    TrimFixesTrimmed(Trim(s));
  }

  /** `string.IsNullOrEmpty`. */
  predicate IsNullOrEmpty(s: Option<string>)
  {
    s.None? || s.value == []
  }

  /** `string.IsNullOrWhiteSpace`. */
  predicate IsNullOrWhiteSpace(s: Option<string>)
  {
    s.None? || forall i :: 0 <= i < |s.value| ==> IsWhiteSpace(s.value[i])
  }

  /** A non-blank string does not trim to nothing. */
  lemma NonBlankTrimsToNonEmpty(s: string)
    requires !IsNullOrWhiteSpace(Some(s))
    ensures Trim(s) != []
  {
    var r := Trim(s);
    var lo, hi :| TrimmedSlice(s, lo, hi, r);
    var k :| 0 <= k < |s| && !IsWhiteSpace(s[k]);
    assert lo <= k < hi;
  }

  /** Text that starts with a non-blank part does not trim to nothing. */
  lemma NonBlankStartTrimsToNonEmpty(a: string, b: string, c: string)
    requires !IsNullOrWhiteSpace(Some(a))
    ensures Trim(a + b + c) != []
  {
    var k :| 0 <= k < |a| && !IsWhiteSpace(a[k]);
    assert (a + b + c)[k] == a[k];
    NonBlankTrimsToNonEmpty(a + b + c);
  }

  /** Lower-casing of one character (ASCII letters only). */
  function LowerChar(c: char): char
  {
    if 'A' <= c <= 'Z' then (c as int + 32) as char else c
  }

  /** `ToLower()`, restricted to the ASCII letters. */
  function ToLower(s: string): (r: string)
  {
    seq(|s|, i requires 0 <= i < |s| => LowerChar(s[i]))
  }

  /** `a.ToLower() == b.ToLower()`. */
  predicate EqualsIgnoringCase(a: string, b: string)
  {
    ToLower(a) == ToLower(b)
  }

  /** `s.Replace("\n", "<br>")`. */
  function ReplaceNewlines(s: string): (r: string)
    ensures forall i :: 0 <= i < |r| ==> r[i] != '\n'
    ensures |r| >= |s|
  {
    if s == [] then []
    else (if s[0] == '\n' then "<br>" else [s[0]]) + ReplaceNewlines(s[1..])
  }

  /** A string without line breaks is left as it is. */
  lemma {:induction false} ReplaceNewlinesKeepsPlainText(s: string)
    requires forall i :: 0 <= i < |s| ==> s[i] != '\n'
    ensures ReplaceNewlines(s) == s
  {
    if s != [] {
      ReplaceNewlinesKeepsPlainText(s[1..]);
    }
  }

  /** Each line break becomes `<br>`. */
  lemma NewlineBecomesBreak()
    ensures ReplaceNewlines("\n") == "<br>"
  {
  }

  /** The replacement works piece by piece: with `NewlineBecomesBreak` and
      `ReplaceNewlinesKeepsPlainText` this fixes its result on every input. */
  lemma {:induction false} ReplaceNewlinesAppends(a: string, b: string)
    ensures ReplaceNewlines(a + b) == ReplaceNewlines(a) + ReplaceNewlines(b)
    decreases |a|
  {
    if a != [] {
      assert (a + b)[0] == a[0];
      assert (a + b)[1..] == a[1..] + b;
      ReplaceNewlinesAppends(a[1..], b);
    } else {
      assert a + b == b;
    }
  }
}
