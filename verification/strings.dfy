/**
 * The handful of Python `str` and `bytes` operations the runner relies on:
 * `lower`, `in`, `" ".join`, `strip`, `splitlines`, `int(...)` and the decimal
 * text that `echo $?` writes. Only the ASCII behaviour of these operations is
 * modelled.
 */
module Strings {
  import opened Wrappers

  /** One byte of a file's content. */
  newtype byte = x: int | 0 <= x < 256

  // ---------------------------------------------------------------------------
  // Case folding and substring search (`str.lower`, `in`)
  // ---------------------------------------------------------------------------

  function LowerChar(c: char): char {
    if 'A' <= c <= 'Z' then (c as int + 32) as char else c
  }

  /** `s.lower()` restricted to ASCII letters. */
  function Lower(s: string): (r: string)
    ensures |r| == |s|
    ensures forall i :: 0 <= i < |s| ==> r[i] == LowerChar(s[i])
    decreases |s|
  {
    if s == [] then "" else [LowerChar(s[0])] + Lower(s[1..])
  }

  /** No ASCII capital letter occurs in `s`. */
  predicate NoUpper(s: string) {
    forall i :: 0 <= i < |s| ==> !('A' <= s[i] <= 'Z')
  }

  lemma {:induction false} LowerAppend(a: string, b: string)
    ensures Lower(a + b) == Lower(a) + Lower(b)
  {
    var l, r := Lower(a + b), Lower(a) + Lower(b);
    assert |l| == |r|;
    forall i | 0 <= i < |l| ensures l[i] == r[i] {
      if i < |a| {
        assert (a + b)[i] == a[i];
      } else {
        assert (a + b)[i] == b[i - |a|];
      }
    }
  }

  /** Lower-casing twice is lower-casing once. */
  lemma {:induction false} LowerTwice(s: string)
    ensures Lower(Lower(s)) == Lower(s)
  {
    var l := Lower(s);
    forall i | 0 <= i < |s| ensures Lower(l)[i] == l[i] {
      assert l[i] == LowerChar(s[i]);
    }
  }

  /** Lower-casing leaves a string without capitals unchanged. */
  lemma LowerNoUpper(s: string)
    requires NoUpper(s)
    ensures Lower(s) == s
  {
  }

  /** Python's `t in s` for two strings. */
  predicate Contains(s: string, t: string)
    decreases |s|
  {
    t <= s || (|s| > 0 && Contains(s[1..], t))
  }

  lemma {:induction false} ContainsAppended(a: string, t: string, b: string)
    ensures Contains(a + t + b, t)
    decreases |a|
  {
    if a == [] {
      assert a + t + b == t + b;
      assert t <= t + b;
    } else {
      assert (a + t + b)[1..] == a[1..] + t + b;
      ContainsAppended(a[1..], t, b);
    }
  }

  // ---------------------------------------------------------------------------
  // `" ".join(words)`
  // ---------------------------------------------------------------------------

  function JoinSpace(words: seq<string>): (r: string)
    ensures |words| > 0 ==> words[0] <= r
  {
    if |words| == 0 then ""
    else if |words| == 1 then words[0]
    else words[0] + " " + JoinSpace(words[1..])
  }

  /** `s.split(' ')`: the pieces between single spaces, empty ones included. */
  function SplitSpaces(s: string): (words: seq<string>)
    ensures |words| > 0
    decreases |s|
  {
    if |s| == 0 then [""]
    else
      var rest := SplitSpaces(s[1..]);
      if s[0] == ' ' then [""] + rest
      else [[s[0]] + rest[0]] + rest[1..]
  }

  /** A text without spaces is a single piece. */
  lemma {:induction false} SplitWord(w: string)
    requires ' ' !in w
    ensures SplitSpaces(w) == [w]
    decreases |w|
  {
    if |w| > 0 {
      assert w[0] in w;
      assert forall c :: c in w[1..] ==> c in w;
      SplitWord(w[1..]);
      assert [w[0]] + w[1..] == w;
    }
  }

  /** A word without spaces followed by one space is split off as the first piece. */
  lemma {:induction false} SplitFirstWord(w: string, t: string)
    requires ' ' !in w
    ensures SplitSpaces(w + " " + t) == [w] + SplitSpaces(t)
    decreases |w|
  {
    var s := w + " " + t;
    if |w| == 0 {
      assert s[0] == ' ' && s[1..] == t;
    } else {
      assert w[0] in w;
      assert forall c :: c in w[1..] ==> c in w;
      assert s[0] == w[0] && s[1..] == w[1..] + " " + t;
      SplitFirstWord(w[1..], t);
      assert [w[0]] + w[1..] == w;
    }
  }

  /** Splitting at spaces undoes `" ".join` of words that hold no space. */
  lemma {:induction false} SplitJoinSpace(words: seq<string>)
    requires |words| > 0
    requires forall i :: 0 <= i < |words| ==> ' ' !in words[i]
    ensures SplitSpaces(JoinSpace(words)) == words
    decreases |words|
  {
    if |words| == 1 {
      SplitWord(words[0]);
    } else {
      SplitJoinSpace(words[1..]);
      SplitFirstWord(words[0], JoinSpace(words[1..]));
      assert [words[0]] + words[1..] == words;
    }
  }

  // ---------------------------------------------------------------------------
  // `str.strip()`
  // ---------------------------------------------------------------------------

  /** The ASCII characters for which Python's `str.isspace()` holds. */
  predicate IsSpace(c: char) {
    c == ' ' || 9 <= c as int <= 13 || 28 <= c as int <= 31
  }

  /** `s.lstrip()`: the leading whitespace goes, the rest stays. */
  function TrimStart(s: string): (r: string)
    ensures |r| <= |s| && r == s[|s| - |r|..]
    ensures forall k :: 0 <= k < |s| - |r| ==> IsSpace(s[k])
    ensures |r| > 0 ==> !IsSpace(r[0])
    decreases |s|
  {
    if |s| > 0 && IsSpace(s[0]) then TrimStart(s[1..]) else s
  }

  /** `s.rstrip()`: the trailing whitespace goes, the rest stays. */
  function TrimEnd(s: string): (r: string)
    ensures |r| <= |s| && r == s[..|r|]
    ensures forall k :: |r| <= k < |s| ==> IsSpace(s[k])
    ensures |r| > 0 ==> !IsSpace(r[|r| - 1])
    decreases |s|
  {
    if |s| > 0 && IsSpace(s[|s| - 1]) then TrimEnd(s[..|s| - 1]) else s
  }

  /** `r` is the slice of `s` at `i`, and only whitespace lies outside it. */
  predicate StrippedAt(s: string, i: int, r: string) {
    && 0 <= i <= |s| - |r| && r == s[i..i + |r|]
    && (forall k :: 0 <= k < i ==> IsSpace(s[k]))
    && (forall k :: i + |r| <= k < |s| ==> IsSpace(s[k]))
  }

  /**
   * `s.strip()`: the slice of `s` left once the whitespace at both ends is
   * removed; it neither starts nor ends with whitespace.
   */
  function Strip(s: string): (r: string)
    ensures |r| <= |s|
    ensures forall k :: 0 <= k < |r| ==> r[k] in s
    ensures |r| > 0 ==> !IsSpace(r[0]) && !IsSpace(r[|r| - 1])
    ensures exists i :: StrippedAt(s, i, r)
  {
    var t := TrimStart(s);
    var r := TrimEnd(t);
    StripSlice(s, t, r);
    r
  }

  lemma StripSlice(s: string, t: string, r: string)
    requires |t| <= |s| && t == s[|s| - |t|..]
    requires forall k :: 0 <= k < |s| - |t| ==> IsSpace(s[k])
    requires |r| <= |t| && r == t[..|r|]
    requires forall k :: |r| <= k < |t| ==> IsSpace(t[k])
    ensures forall k :: 0 <= k < |r| ==> r[k] in s
    ensures exists i :: StrippedAt(s, i, r)
  {
    var i := |s| - |t|;
    assert r == s[i..i + |r|];
    forall k | 0 <= k < |r| ensures r[k] in s {
      assert r[k] == s[i + k];
    }
    forall k | i + |r| <= k < |s| ensures IsSpace(s[k]) {
      assert s[k] == t[k - i];
    }
    assert StrippedAt(s, i, r);
  }

  // ---------------------------------------------------------------------------
  // `str.splitlines()`
  // ---------------------------------------------------------------------------

  /** The line boundaries of `str.splitlines()`; `\r\n` counts as one boundary. */
  predicate IsLineBreak(c: char) {
    || c == '\n' || c == '\r'
    || c as int == 0x0b || c as int == 0x0c
    || 0x1c <= c as int <= 0x1e
    || c as int == 0x85 || c as int == 0x2028 || c as int == 0x2029
  }

  predicate NoLineBreak(s: string) {
    forall k :: 0 <= k < |s| ==> !IsLineBreak(s[k])
  }

  /** Index of the first line boundary of `s`, or `|s|` if it has none. */
  function LineEnd(s: string): (i: nat)
    ensures i <= |s|
    ensures NoLineBreak(s[..i])
    ensures i < |s| ==> IsLineBreak(s[i])
    decreases |s|
  {
    if |s| == 0 || IsLineBreak(s[0]) then 0
    else
      var j := LineEnd(s[1..]);
      assert s[..1 + j] == [s[0]] + s[1..][..j];
      1 + j
  }

  /** `s.splitlines()`: no trailing empty line, no boundary kept. */
  function SplitLines(s: string): (lines: seq<string>)
    ensures forall i :: 0 <= i < |lines| ==> NoLineBreak(lines[i])
    decreases |s|
  {
    if s == [] then []
    else
      var i := LineEnd(s);
      if i == |s| then
        assert s[..i] == s;
        [s]
      else
        var next := if s[i] == '\r' && i + 1 < |s| && s[i + 1] == '\n' then i + 2 else i + 1;
        [s[..i]] + SplitLines(s[next..])
  }

  /** The text `ls -1` prints for these names: each followed by a newline. */
  function JoinLines(names: seq<string>): string {
    if names == [] then "" else names[0] + "\n" + JoinLines(names[1..])
  }

  lemma {:induction false} LineEndAt(a: string, b: string)
    requires NoLineBreak(a)
    requires |b| > 0 && IsLineBreak(b[0])
    ensures LineEnd(a + b) == |a|
    decreases |a|
  {
    if a != [] {
      assert (a + b)[0] == a[0];
      assert (a + b)[1..] == a[1..] + b;
      LineEndAt(a[1..], b);
    } else {
      assert a + b == b;
    }
  }

  /** Splitting the output of `ls -1` gives back the listed names, in order. */
  lemma {:induction false} SplitJoinLines(names: seq<string>)
    requires forall i :: 0 <= i < |names| ==> NoLineBreak(names[i])
    ensures SplitLines(JoinLines(names)) == names
    decreases |names|
  {
    if names != [] {
      var n := names[0];
      var rest := JoinLines(names[1..]);
      var s := JoinLines(names);
      assert s == n + ("\n" + rest);
      LineEndAt(n, "\n" + rest);
      assert s[|n|] == '\n';
      assert s[..|n|] == n;
      assert s[|n| + 1..] == rest;
      SplitJoinLines(names[1..]);
    }
  }

  /** The lines of a listing that are not empty, in their original order. */
  function NonEmpty(lines: seq<string>): (r: seq<string>)
    ensures forall i :: 0 <= i < |r| ==> r[i] != ""
    decreases |lines|
  {
    if lines == [] then []
    else
      var init := lines[..|lines| - 1];
      var last := lines[|lines| - 1];
      assert lines == init + [last];
      NonEmpty(init) + (if last == "" then [] else [last])
  }

  lemma {:induction false} NonEmptyConcat(a: seq<string>, b: seq<string>)
    ensures NonEmpty(a + b) == NonEmpty(a) + NonEmpty(b)
    decreases |b|
  {
    if b == [] {
      assert a + b == a;
    } else {
      var init, last := b[..|b| - 1], b[|b| - 1];
      assert (a + b)[..|a + b| - 1] == a + init;
      assert (a + b)[|a + b| - 1] == last;
      NonEmptyConcat(a, init);
    }
  }

  /** An empty line is skipped and the lines around it are kept, in order. */
  lemma NonEmptySkipsEmpty(a: seq<string>, b: seq<string>)
    ensures NonEmpty(a + [""] + b) == NonEmpty(a) + NonEmpty(b)
  {
    NonEmptyConcat(a + [""], b);
    NonEmptyConcat(a, [""]);
    assert NonEmpty([""]) == [] by {
      assert [""][..0] == [];
    }
  }

  /** A non-empty line is kept in its place among the kept lines around it. */
  lemma NonEmptyKeepsLine(a: seq<string>, line: string, b: seq<string>)
    requires line != ""
    ensures NonEmpty(a + [line] + b) == NonEmpty(a) + [line] + NonEmpty(b)
  {
    NonEmptyConcat(a + [line], b);
    NonEmptyConcat(a, [line]);
    assert NonEmpty([line]) == [line] by {
      assert [line][..0] == [];
    }
  }

  /** Exactly the non-empty lines are kept. */
  lemma {:induction false} NonEmptyMembers(lines: seq<string>, x: string)
    ensures x in NonEmpty(lines) <==> x in lines && x != ""
    decreases |lines|
  {
    if lines != [] {
      var init, last := lines[..|lines| - 1], lines[|lines| - 1];
      assert lines == init + [last];
      NonEmptyMembers(init, x);
      assert x in lines <==> x in init || x == last;
    }
  }

  // ---------------------------------------------------------------------------
  // Decimal text: `echo $?` and `int(...)`
  // ---------------------------------------------------------------------------

  predicate IsDigit(c: char) {
    '0' <= c <= '9'
  }

  function DigitChar(d: int): char
    requires 0 <= d < 10
  {
    ('0' as int + d) as char
  }

  /** The decimal text of `n` without leading zeros, as a shell prints `$?`. */
  function Decimal(n: nat): (s: string)
    ensures |s| > 0 && IsDigit(s[0])
    ensures forall i :: 0 <= i < |s| ==> IsDigit(s[i])
  {
    if n < 10 then [DigitChar(n)] else Decimal(n / 10) + [DigitChar(n % 10)]
  }

  /** Python's integer literal body: `[0-9](_?[0-9])*`. */
  predicate DigitGroups(s: string) {
    && |s| > 0 && IsDigit(s[0]) && IsDigit(s[|s| - 1])
    && (forall i :: 0 <= i < |s| ==> IsDigit(s[i]) || s[i] == '_')
    && (forall i :: 0 <= i < |s| - 1 ==> s[i] != '_' || s[i + 1] != '_')
  }

  /** The value of the digits of `s`, read left to right; underscores are skipped. */
  function DigitsValue(s: string): nat
    decreases |s|
  {
    if s == [] then 0
    else if IsDigit(s[|s| - 1]) then 10 * DigitsValue(s[..|s| - 1]) + (s[|s| - 1] as int - '0' as int)
    else DigitsValue(s[..|s| - 1])
  }

  /** `int(s)` on an already stripped string: `None` stands for `ValueError`. */
  function ParseInt(s: string): (r: Option<int>)
    ensures r.Some? ==> |s| > 0 && (IsDigit(s[0]) || s[0] == '+' || s[0] == '-')
    ensures r.Some? && IsDigit(s[0]) ==> r.value >= 0
    ensures r.Some? ==> IsDigit(s[|s| - 1])
  {
    if |s| > 0 && (s[0] == '+' || s[0] == '-') then
      if DigitGroups(s[1..]) then
        Some(if s[0] == '-' then 0 - DigitsValue(s[1..]) as int else DigitsValue(s[1..]) as int)
      else None
    else if DigitGroups(s) then Some(DigitsValue(s))
    else None
  }

  lemma {:induction false} DecimalValue(n: nat)
    ensures DigitsValue(Decimal(n)) == n
  {
    var s := Decimal(n);
    if n >= 10 {
      var p := Decimal(n / 10);
      assert s == p + [DigitChar(n % 10)];
      assert s[..|s| - 1] == p;
      DecimalValue(n / 10);
    }
  }

  /** `int` reads back what `echo` printed. */
  lemma ParseDecimal(n: nat)
    ensures ParseInt(Decimal(n)) == Some(n)
  {
    DecimalValue(n);
  }

  lemma {:induction false} TrimEndDigitsLine(s: string)
    requires |s| > 0 && IsDigit(s[|s| - 1])
    ensures TrimEnd(s + "\n") == s
  {
    var t := s + "\n";
    assert t[..|t| - 1] == s;
  }

  /** `strip` removes the newline `echo` appends and nothing else. */
  lemma StripDecimalLine(n: nat)
    ensures Strip(Decimal(n) + "\n") == Decimal(n)
  {
    var s := Decimal(n);
    assert (s + "\n")[0] == s[0];
    TrimEndDigitsLine(s);
  }

  // ---------------------------------------------------------------------------
  // Bytes and text (one character per byte)
  // ---------------------------------------------------------------------------

  predicate IsByteText(s: string) {
    forall i :: 0 <= i < |s| ==> s[i] as int < 256
  }

  function TextBytes(s: string): (b: seq<byte>)
    requires IsByteText(s)
    ensures |b| == |s|
  {
    seq(|s|, i requires 0 <= i < |s| => s[i] as int as byte)
  }

  function BytesText(b: seq<byte>): (s: string)
    ensures |s| == |b|
  {
    seq(|b|, i requires 0 <= i < |b| => b[i] as int as char)
  }

  lemma BytesTextOfTextBytes(s: string)
    requires IsByteText(s)
    ensures BytesText(TextBytes(s)) == s
  {
  }
}
