/**
 * The transport codec. Encoding is base64 with the standard alphabet and `=`
 * padding (section 4 of RFC 4648), as Python's `base64.b64encode` produces it.
 * Decoding follows the non-strict decoder behind Python's `base64.b64decode`:
 * the text must be ASCII, characters outside the alphabet (the newlines the
 * pod's `base64` command wraps its output with, in particular) are skipped,
 * and padding ends the input once a group is complete.
 */
module Base64 {
  import opened Wrappers
  import opened Strings

  type Bytes = seq<byte>

  /** The character for a 6-bit value: `A`-`Z`, `a`-`z`, `0`-`9`, `+`, `/`. */
  function Digit(v: int): char
    requires 0 <= v < 64
  {
    if v < 26 then ('A' as int + v) as char
    else if v < 52 then ('a' as int + v - 26) as char
    else if v < 62 then ('0' as int + v - 52) as char
    else if v == 62 then '+'
    else '/'
  }

  /** The 6-bit value of an alphabet character; 64 for every other character. */
  function Sextet(c: char): (v: int)
    ensures 0 <= v <= 64
  {
    if 'A' <= c <= 'Z' then c as int - 'A' as int
    else if 'a' <= c <= 'z' then c as int - 'a' as int + 26
    else if '0' <= c <= '9' then c as int - '0' as int + 52
    else if c == '+' then 62
    else if c == '/' then 63
    else 64
  }

  lemma SextetOfDigit(v: int)
    requires 0 <= v < 64
    ensures Sextet(Digit(v)) == v
    ensures Digit(v) != '=' && Digit(v) as int < 128
  {
  }

  /** A character the decoder acts on: an alphabet character or the pad. */
  predicate Significant(c: char) {
    c == '=' || Sextet(c) < 64
  }

  predicate IsAscii(s: string) {
    forall i :: 0 <= i < |s| ==> s[i] as int < 128
  }

  // ---------------------------------------------------------------------------
  // Encoding
  // ---------------------------------------------------------------------------

  /** Three bytes as four characters. */
  function Quad(b0: byte, b1: byte, b2: byte): string {
    var x, y, z := b0 as int, b1 as int, b2 as int;
    [Digit(x / 4), Digit(x % 4 * 16 + y / 16), Digit(y % 16 * 4 + z / 64), Digit(z % 64)]
  }

  /** Text made only of characters the decoder acts on, all of them ASCII. */
  predicate EncodedText(s: string) {
    forall i :: 0 <= i < |s| ==> Significant(s[i]) && s[i] as int < 128
  }

  lemma EncodedConcat(a: string, b: string)
    requires EncodedText(a) && EncodedText(b)
    ensures EncodedText(a + b)
  {
    forall i | 0 <= i < |a + b| ensures Significant((a + b)[i]) && (a + b)[i] as int < 128 {
      if i < |a| { assert (a + b)[i] == a[i]; } else { assert (a + b)[i] == b[i - |a|]; }
    }
  }

  lemma DigitsText(v0: int, v1: int, v2: int, v3: int)
    requires 0 <= v0 < 64 && 0 <= v1 < 64 && 0 <= v2 < 64 && 0 <= v3 < 64
    ensures EncodedText([Digit(v0), Digit(v1), Digit(v2), Digit(v3)])
    ensures EncodedText([Digit(v0), Digit(v1), Digit(v2), '='])
    ensures EncodedText([Digit(v0), Digit(v1), '=', '='])
  {
    SextetOfDigit(v0); SextetOfDigit(v1); SextetOfDigit(v2); SextetOfDigit(v3);
  }

  /** `base64.b64encode(b).decode()`. */
  function Encode(b: Bytes): (s: string)
    ensures |s| == 4 * ((|b| + 2) / 3)
    ensures EncodedText(s)
    decreases |b|
  {
    if |b| == 0 then ""
    else if |b| == 1 then
      var x := b[0] as int;
      DigitsText(x / 4, x % 4 * 16, 0, 0);
      [Digit(x / 4), Digit(x % 4 * 16), '=', '=']
    else if |b| == 2 then
      var x, y := b[0] as int, b[1] as int;
      DigitsText(x / 4, x % 4 * 16 + y / 16, y % 16 * 4, 0);
      [Digit(x / 4), Digit(x % 4 * 16 + y / 16), Digit(y % 16 * 4), '=']
    else
      var x, y, z := b[0] as int, b[1] as int, b[2] as int;
      var rest := Encode(b[3..]);
      DigitsText(x / 4, x % 4 * 16 + y / 16, y % 16 * 4 + z / 64, z % 64);
      EncodedConcat(Quad(b[0], b[1], b[2]), rest);
      GroupCount(|b|);
      Quad(b[0], b[1], b[2]) + rest
  }

  /** Three more bytes give one more group of four characters. */
  lemma GroupCount(n: int)
    requires n >= 3
    ensures 4 + 4 * ((n - 3 + 2) / 3) == 4 * ((n + 2) / 3)
  {
    assert (n + 2) / 3 == (n - 3 + 2) / 3 + 1;
  }

  /**
   * The pod's `base64 FILE`: the encoding broken into lines of 76 characters,
   * each ended by a newline; empty input gives empty output.
   */
  function Wrap(s: string): (w: string)
    ensures s == [] <==> w == []
    ensures s != [] ==> |s| < |w| && w[|w| - 1] == '\n'
    decreases |s|
  {
    if s == [] then ""
    else if |s| <= 76 then s + "\n"
    else s[..76] + "\n" + Wrap(s[76..])
  }

  // ---------------------------------------------------------------------------
  // Decoding
  // ---------------------------------------------------------------------------

  datatype DecodeError =
    | NonAscii          // `ValueError`: a `str` argument with a non-ASCII character
    | OneCharTooMany    // `binascii.Error`: one character beyond a multiple of four
    | IncorrectPadding  // `binascii.Error`: a group of two or three characters not closed by padding

  /**
   * The decoder's state between characters: how many characters of the current
   * group are read (`quad`) and the bits of the last one not yet emitted (`left`).
   */
  predicate QuadState(quad: int, left: int) {
    && 0 <= quad < 4 && 0 <= left
    && (quad == 1 ==> left < 64)
    && (quad == 2 ==> left < 16)
    && (quad == 3 ==> left < 4)
  }

  /**
   * The decoding loop over the rest of the text `s`; `pads` counts the pad
   * characters seen since the last alphabet character, `acc` the bytes so far.
   */
  function Run(s: string, quad: int, left: int, pads: nat, acc: Bytes): (r: Result<Bytes, DecodeError>)
    requires QuadState(quad, left)
    ensures r.Failure? ==> r.error != NonAscii
    decreases |s|
  {
    if s == [] then
      if quad == 0 then Success(acc)
      else if quad == 1 then Failure(OneCharTooMany)
      else Failure(IncorrectPadding)
    else if s[0] == '=' then
      if quad >= 2 && quad + pads + 1 >= 4 then Success(acc)
      else Run(s[1..], quad, left, if quad >= 2 then pads + 1 else pads, acc)
    else
      var v := Sextet(s[0]);
      if v == 64 then Run(s[1..], quad, left, pads, acc)
      else if quad == 0 then Run(s[1..], 1, v, 0, acc)
      else if quad == 1 then Run(s[1..], 2, v % 16, 0, acc + [(left * 4 + v / 16) as byte])
      else if quad == 2 then Run(s[1..], 3, v % 4, 0, acc + [(left * 16 + v / 4) as byte])
      else Run(s[1..], 0, 0, 0, acc + [(left * 64 + v) as byte])
  }

  /** `base64.b64decode(s)` for a `str` argument. */
  function Decode(s: string): (r: Result<Bytes, DecodeError>)
    ensures r == Failure(NonAscii) <==> !IsAscii(s)
    ensures IsAscii(s) ==> r == Run(Kept(s), 0, 0, 0, [])
  {
    if IsAscii(s) then
      RunIgnoresSkipped(s, 0, 0, 0, []);
      Run(s, 0, 0, 0, [])
    else Failure(NonAscii)
  }

  // ---------------------------------------------------------------------------
  // Skipped characters do not matter
  // ---------------------------------------------------------------------------

  /** The characters of `s` the decoder acts on, in order. */
  function Kept(s: string): (k: string)
    decreases |s|
  {
    if s == [] then ""
    else (if Significant(s[0]) then [s[0]] else "") + Kept(s[1..])
  }

  lemma {:induction false} RunIgnoresSkipped(s: string, quad: int, left: int, pads: nat, acc: Bytes)
    requires QuadState(quad, left)
    ensures Run(s, quad, left, pads, acc) == Run(Kept(s), quad, left, pads, acc)
    decreases |s|
  {
    if s != [] {
      var k := Kept(s);
      if !Significant(s[0]) {
        assert k == Kept(s[1..]);
        RunIgnoresSkipped(s[1..], quad, left, pads, acc);
      } else {
        assert k == [s[0]] + Kept(s[1..]);
        assert k[0] == s[0] && k[1..] == Kept(s[1..]);
        var v := Sextet(s[0]);
        if s[0] == '=' {
          if !(quad >= 2 && quad + pads + 1 >= 4) {
            RunIgnoresSkipped(s[1..], quad, left, if quad >= 2 then pads + 1 else pads, acc);
          }
        } else if quad == 0 {
          RunIgnoresSkipped(s[1..], 1, v, 0, acc);
        } else if quad == 1 {
          RunIgnoresSkipped(s[1..], 2, v % 16, 0, acc + [(left * 4 + v / 16) as byte]);
        } else if quad == 2 {
          RunIgnoresSkipped(s[1..], 3, v % 4, 0, acc + [(left * 16 + v / 4) as byte]);
        } else {
          RunIgnoresSkipped(s[1..], 0, 0, 0, acc + [(left * 64 + v) as byte]);
        }
      }
    }
  }

  lemma {:induction false} KeptConcat(a: string, b: string)
    ensures Kept(a + b) == Kept(a) + Kept(b)
    decreases |a|
  {
    if a != [] {
      assert (a + b)[0] == a[0];
      assert (a + b)[1..] == a[1..] + b;
      KeptConcat(a[1..], b);
    } else {
      assert a + b == b;
    }
  }

  lemma {:induction false} KeptAllSignificant(s: string)
    requires forall i :: 0 <= i < |s| ==> Significant(s[i])
    ensures Kept(s) == s
    decreases |s|
  {
    if s != [] {
      KeptAllSignificant(s[1..]);
      assert s == [s[0]] + s[1..];
    }
  }

  lemma KeptNewline()
    ensures Kept("\n") == ""
  {
    assert !Significant('\n');
    assert "\n"[1..] == "";
  }

  lemma WrapLong(s: string)
    requires |s| > 76
    ensures Wrap(s) == s[..76] + ("\n" + Wrap(s[76..]))
  {
  }

  lemma {:induction false} KeptWrap(s: string)
    ensures Kept(Wrap(s)) == Kept(s)
    decreases |s|
  {
    KeptNewline();
    if s == [] {
    } else if |s| <= 76 {
      KeptConcat(s, "\n");
    } else {
      var h, t := s[..76], s[76..];
      var w := Wrap(t);
      calc {
        Kept(Wrap(s));
      == { WrapLong(s); }
        Kept(h + ("\n" + w));
      == { KeptConcat(h, "\n" + w); }
        Kept(h) + Kept("\n" + w);
      == { KeptConcat("\n", w); KeptWrap(t); }
        Kept(h) + Kept(t);
      == { KeptConcat(h, t); assert h + t == s; }
        Kept(s);
      }
    }
  }

  lemma {:induction false} WrapAscii(s: string)
    requires IsAscii(s)
    ensures IsAscii(Wrap(s))
    decreases |s|
  {
    if |s| > 76 {
      WrapAscii(s[76..]);
      var w := Wrap(s[76..]);
      assert Wrap(s) == s[..76] + "\n" + w;
    }
  }

  // ---------------------------------------------------------------------------
  // Round trip
  // ---------------------------------------------------------------------------

  lemma SplitByte16(hi: int, lo: int)
    requires 0 <= lo < 16
    ensures (hi * 16 + lo) / 16 == hi && (hi * 16 + lo) % 16 == lo
  {
  }

  lemma SplitByte4(hi: int, lo: int)
    requires 0 <= lo < 4
    ensures (hi * 4 + lo) / 4 == hi && (hi * 4 + lo) % 4 == lo
  {
  }

  lemma SplitByte64(hi: int, lo: int)
    requires 0 <= lo < 64
    ensures (hi * 64 + lo) / 64 == hi && (hi * 64 + lo) % 64 == lo
  {
  }

  // One alphabet character read in each of the four decoder states.

  lemma ReadFirst(v: int, t: string, acc: Bytes)
    requires 0 <= v < 64
    ensures Run([Digit(v)] + t, 0, 0, 0, acc) == Run(t, 1, v, 0, acc)
  {
    SextetOfDigit(v);
    assert ([Digit(v)] + t)[1..] == t;
  }

  lemma ReadSecond(left: int, v: int, t: string, acc: Bytes, b: byte)
    requires 0 <= left < 64 && 0 <= v < 64 && left * 4 + v / 16 == b as int
    ensures Run([Digit(v)] + t, 1, left, 0, acc) == Run(t, 2, v % 16, 0, acc + [b])
  {
    SextetOfDigit(v);
    assert ([Digit(v)] + t)[1..] == t;
  }

  lemma ReadThird(left: int, v: int, t: string, acc: Bytes, b: byte)
    requires 0 <= left < 16 && 0 <= v < 64 && left * 16 + v / 4 == b as int
    ensures Run([Digit(v)] + t, 2, left, 0, acc) == Run(t, 3, v % 4, 0, acc + [b])
  {
    SextetOfDigit(v);
    assert ([Digit(v)] + t)[1..] == t;
  }

  lemma ReadFourth(left: int, v: int, t: string, acc: Bytes, b: byte)
    requires 0 <= left < 4 && 0 <= v < 64 && left * 64 + v == b as int
    ensures Run([Digit(v)] + t, 3, left, 0, acc) == Run(t, 0, 0, 0, acc + [b])
  {
    SextetOfDigit(v);
    assert ([Digit(v)] + t)[1..] == t;
  }

  /** The four sextets of a group put back together give the three bytes. */
  lemma QuadArithmetic(x: int, y: int, z: int)
    requires 0 <= x < 256 && 0 <= y < 256 && 0 <= z < 256
    ensures (x / 4) * 4 + (x % 4 * 16 + y / 16) / 16 == x
    ensures (x % 4 * 16 + y / 16) % 16 * 16 + (y % 16 * 4 + z / 64) / 4 == y
    ensures (y % 16 * 4 + z / 64) % 4 * 64 + z % 64 == z
  {
    SplitByte16(x % 4, y / 16);
    SplitByte4(y % 16, z / 64);
  }

  /** One full group decodes to the three bytes it encodes. */
  lemma RunQuad(b0: byte, b1: byte, b2: byte, r: string, acc: Bytes)
    ensures Run(Quad(b0, b1, b2) + r, 0, 0, 0, acc) == Run(r, 0, 0, 0, acc + [b0, b1, b2])
  {
    var x, y, z := b0 as int, b1 as int, b2 as int;
    var v0, v1, v2, v3 := x / 4, x % 4 * 16 + y / 16, y % 16 * 4 + z / 64, z % 64;
    QuadArithmetic(x, y, z);
    var t3 := [Digit(v3)] + r;
    var t2 := [Digit(v2)] + t3;
    var t1 := [Digit(v1)] + t2;
    calc {
      Run(Quad(b0, b1, b2) + r, 0, 0, 0, acc);
    == { assert Quad(b0, b1, b2) + r == [Digit(v0)] + t1; }
      Run([Digit(v0)] + t1, 0, 0, 0, acc);
    == { ReadFirst(v0, t1, acc); }
      Run(t1, 1, v0, 0, acc);
    == { ReadSecond(v0, v1, t2, acc, b0); }
      Run(t2, 2, v1 % 16, 0, acc + [b0]);
    == { ReadThird(v1 % 16, v2, t3, acc + [b0], b1); }
      Run(t3, 3, v2 % 4, 0, acc + [b0] + [b1]);
    == { ReadFourth(v2 % 4, v3, r, acc + [b0] + [b1], b2); }
      Run(r, 0, 0, 0, acc + [b0] + [b1] + [b2]);
    == { assert acc + [b0] + [b1] + [b2] == acc + [b0, b1, b2]; }
      Run(r, 0, 0, 0, acc + [b0, b1, b2]);
    }
  }

  /** A final group of one byte and two pads decodes to that byte. */
  lemma RunOne(b0: byte, acc: Bytes)
    ensures var x := b0 as int;
      Run([Digit(x / 4), Digit(x % 4 * 16), '=', '='], 0, 0, 0, acc) == Success(acc + [b0])
  {
    var x := b0 as int;
    var v0, v1 := x / 4, x % 4 * 16;
    SextetOfDigit(v0); SextetOfDigit(v1);
    var s := [Digit(v0), Digit(v1), '=', '='];
    assert s[0] == Digit(v0) && s[1..] == [Digit(v1), '=', '='];
    assert v0 * 4 + v1 / 16 == x;
    assert v1 % 16 == 0;
    var s2 := s[1..][1..];
    assert s2 == "==" && s2[1..] == "=";
    assert Run(s2, 2, 0, 0, acc + [b0]) == Run(s2[1..], 2, 0, 1, acc + [b0]);
  }

  /** A final group of two bytes and one pad decodes to those bytes. */
  lemma RunTwo(b0: byte, b1: byte, acc: Bytes)
    ensures var x, y := b0 as int, b1 as int;
      Run([Digit(x / 4), Digit(x % 4 * 16 + y / 16), Digit(y % 16 * 4), '='], 0, 0, 0, acc)
        == Success(acc + [b0, b1])
  {
    var x, y := b0 as int, b1 as int;
    var v0, v1, v2 := x / 4, x % 4 * 16 + y / 16, y % 16 * 4;
    SextetOfDigit(v0); SextetOfDigit(v1); SextetOfDigit(v2);
    SplitByte16(x % 4, y / 16);
    var s := [Digit(v0), Digit(v1), Digit(v2), '='];
    assert s[0] == Digit(v0) && s[1..] == [Digit(v1), Digit(v2), '='];
    var s1 := s[1..];
    assert s1[0] == Digit(v1) && s1[1..] == [Digit(v2), '='];
    var s2 := s1[1..];
    assert s2[0] == Digit(v2) && s2[1..] == "=";
    assert v0 * 4 + v1 / 16 == x;
    assert v1 % 16 * 16 + v2 / 4 == y;
    assert v2 % 4 == 0;
    var a1 := acc + [b0];
    var a2 := a1 + [b1];
    assert Run(s2[1..], 3, 0, 0, a2) == Success(a2);
    assert Run(s2, 2, v1 % 16, 0, a1) == Run(s2[1..], 3, 0, 0, a2);
    assert Run(s1, 1, v0, 0, acc) == Run(s2, 2, v1 % 16, 0, a1);
    assert Run(s, 0, 0, 0, acc) == Run(s1, 1, v0, 0, acc);
    assert a2 == acc + [b0, b1];
  }

  lemma {:induction false} RunEncoded(b: Bytes, acc: Bytes)
    ensures Run(Encode(b), 0, 0, 0, acc) == Success(acc + b)
    decreases |b|
  {
    if |b| == 0 {
      assert acc + b == acc;
    } else if |b| == 1 {
      RunOne(b[0], acc);
      assert [b[0]] == b;
    } else if |b| == 2 {
      RunTwo(b[0], b[1], acc);
      assert [b[0], b[1]] == b;
    } else {
      EncodeFirstGroup(b);
      RunQuad(b[0], b[1], b[2], Encode(b[3..]), acc);
      RunEncoded(b[3..], acc + [b[0], b[1], b[2]]);
      Regroup(acc, b);
    }
  }

  lemma EncodeFirstGroup(b: Bytes)
    requires |b| >= 3
    ensures Encode(b) == Quad(b[0], b[1], b[2]) + Encode(b[3..])
  {
  }

  lemma Regroup(acc: Bytes, b: Bytes)
    requires |b| >= 3
    ensures acc + [b[0], b[1], b[2]] + b[3..] == acc + b
  {
    assert b == [b[0], b[1], b[2]] + b[3..];
  }

  /** Decoding inverts encoding, the empty sequence included. */
  lemma DecodeEncode(b: Bytes)
    ensures Decode(Encode(b)) == Success(b)
  {
    RunEncoded(b, []);
    assert [] + b == b;
  }

  /** Decoding also inverts the line-wrapped encoding the pod's `base64` prints. */
  lemma DecodeWrappedEncode(b: Bytes)
    ensures Decode(Wrap(Encode(b))) == Success(b)
  {
    var e := Encode(b);
    KeptWrap(e);
    WrapAscii(e);
    KeptAllSignificant(e);
    RunIgnoresSkipped(Wrap(e), 0, 0, 0, []);
    RunIgnoresSkipped(e, 0, 0, 0, []);
    DecodeEncode(b);
  }
}
