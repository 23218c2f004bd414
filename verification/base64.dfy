/** Base64 as the reference-audio normaliser meets it: `base64.b64decode(s)`
    with its default, non-strict behaviour, and the standard encoder of
    section 4 of RFC 4648 (alphabet of Table 1, `=` padding) as the reference
    the decoder is proved against.

    The decoder follows the character loop of CPython's `binascii.a2b_base64`
    in non-strict mode: a `str` argument must be ASCII; characters outside the
    alphabet are skipped; a pad that completes a quantum ends decoding (any
    further input is ignored); a pad that completes nothing is skipped; input
    that ends inside a quantum is an error. */
module Base64 {
  import opened Wrappers

  /** An octet, as Python's `bytes` holds it. */
  type byte = x: int | 0 <= x < 256

  /** The six bits one base64 character carries. */
  type sextet = x: int | 0 <= x < 64

  const Pad: char := '='

  /** Table 1 of RFC 4648: the character that encodes `v`. */
  function SextetChar(v: sextet): char {
    if v < 26 then ('A' as int + v) as char
    else if v < 52 then ('a' as int + (v - 26)) as char
    else if v < 62 then ('0' as int + (v - 52)) as char
    else if v == 62 then '+'
    else '/'
  }

  /** The inverse of Table 1: the sextet an alphabet character stands for, and
      `None` for every other character, the pad included. */
  function CharSextet(c: char): Option<sextet> {
    if 'A' <= c <= 'Z' then Some(c as int - 'A' as int)
    else if 'a' <= c <= 'z' then Some(c as int - 'a' as int + 26)
    else if '0' <= c <= '9' then Some(c as int - '0' as int + 52)
    else if c == '+' then Some(62)
    else if c == '/' then Some(63)
    else None
  }

  predicate IsAscii(c: char) {
    c as int < 128
  }

  lemma SextetCharInverse(v: sextet)
    ensures CharSextet(SextetChar(v)) == Some(v)
    ensures IsAscii(SextetChar(v)) && SextetChar(v) != Pad
  {
  }

  lemma CharSextetInverse(c: char)
    ensures CharSextet(c).Some? ==> SextetChar(CharSextet(c).value) == c
  {
  }

  /* ----------------------------- encoder ----------------------------- */

  /** The four characters of one full three-byte group. */
  function EncodeGroup(b0: byte, b1: byte, b2: byte): string {
    [ SextetChar(b0 / 4),
      SextetChar((b0 % 4) * 16 + b1 / 16),
      SextetChar((b1 % 16) * 4 + b2 / 64),
      SextetChar(b2 % 64) ]
  }

  /** Section 4 of RFC 4648: groups of three bytes become four characters; a
      final group of one or two bytes is padded with `=` to four characters. */
  function Encode(b: seq<byte>): (s: string)
    ensures |s| == 4 * ((|b| + 2) / 3)
    decreases |b|
  {
    if |b| == 0 then []
    else if |b| == 1 then
      [SextetChar(b[0] / 4), SextetChar((b[0] % 4) * 16), Pad, Pad]
    else if |b| == 2 then
      [ SextetChar(b[0] / 4),
        SextetChar((b[0] % 4) * 16 + b[1] / 16),
        SextetChar((b[1] % 16) * 4),
        Pad ]
    else EncodeGroup(b[0], b[1], b[2]) + Encode(b[3..])
  }

  /** The test vectors of section 10 of RFC 4648, which pin the encoder
      independently of the decoder it is proved against. */
  lemma EncodeTestVectors()
    ensures Encode([]) == ""
    ensures Encode([102]) == "Zg=="
    ensures Encode([102, 111]) == "Zm8="
    ensures Encode([102, 111, 111]) == "Zm9v"
    ensures Encode([102, 111, 111, 98]) == "Zm9vYg=="
    ensures Encode([102, 111, 111, 98, 97]) == "Zm9vYmE="
    ensures Encode([102, 111, 111, 98, 97, 114]) == "Zm9vYmFy"
  {
  }

  /* ----------------------------- decoder ----------------------------- */

  /** The decoder's loop state: position inside the current quantum, the bits
      not yet emitted, the run of pads since the last alphabet character, and
      the bytes emitted so far. */
  datatype DecodeState = DecodeState(quad: nat, left: byte, pads: nat, out: seq<byte>)

  const Start := DecodeState(0, 0, 0, [])

  /** One alphabet character: emits a byte at quantum positions 1, 2 and 3.
      Shifts are written as multiplications and divisions; the `% 256` is the
      C store into an `unsigned char`. */
  function Feed(st: DecodeState, v: sextet): DecodeState {
    if st.quad == 0 then DecodeState(1, v, 0, st.out)
    else if st.quad == 1 then DecodeState(2, v % 16, 0, st.out + [(st.left * 4 + v / 16) % 256])
    else if st.quad == 2 then DecodeState(3, v % 4, 0, st.out + [(st.left * 16 + v / 4) % 256])
    else DecodeState(0, 0, 0, st.out + [(st.left * 64 + v) % 256])
  }

  /** The decoding loop over the remaining characters `s`. */
  function Scan(s: string, st: DecodeState): Option<seq<byte>>
    decreases |s|
  {
    if |s| == 0 then
      if st.quad == 0 then Some(st.out) else None
    else if s[0] == Pad then
      if st.quad >= 2 && st.quad + st.pads + 1 >= 4 then Some(st.out)
      else Scan(s[1..], if st.quad >= 2 then st.(pads := st.pads + 1) else st)
    else
      match CharSextet(s[0])
      case None => Scan(s[1..], st)
      case Some(v) => Scan(s[1..], Feed(st, v))
  }

  /** `base64.b64decode` applied to a `str`: `None` stands for the exception
      it raises (a non-ASCII character, or input that ends inside a quantum). */
  function B64Decode(s: string): (r: Option<seq<byte>>)
    ensures (exists i :: 0 <= i < |s| && !IsAscii(s[i])) ==> r == None
  {
    if forall i :: 0 <= i < |s| ==> IsAscii(s[i]) then Scan(s, Start) else None
  }

  /* ---------------------- decoding what was encoded ---------------------- */

  lemma ScanAlphabet(c: char, rest: string, st: DecodeState, v: sextet)
    requires CharSextet(c) == Some(v)
    ensures Scan([c] + rest, st) == Scan(rest, Feed(st, v))
  {
    assert ([c] + rest)[1..] == rest;
  }

  /** The decoder's arithmetic recovers the three bytes of a group from its
      four sextets. */
  lemma GroupArithmetic(b0: byte, b1: byte, b2: byte)
    ensures (b0 / 4 * 4 + ((b0 % 4) * 16 + b1 / 16) / 16) % 256 == b0
    ensures (((b0 % 4) * 16 + b1 / 16) % 16 * 16 + ((b1 % 16) * 4 + b2 / 64) / 4) % 256 == b1
    ensures (((b1 % 16) * 4 + b2 / 64) % 4 * 64 + b2 % 64) % 256 == b2
  {
  }

  /** A full group read from quantum position 0 emits its three bytes and
      returns to position 0. */
  lemma ScanGroup(b0: byte, b1: byte, b2: byte, rest: string, st: DecodeState)
    requires st.quad == 0
    ensures Scan(EncodeGroup(b0, b1, b2) + rest, st)
         == Scan(rest, DecodeState(0, 0, 0, st.out + [b0, b1, b2]))
  {
    var s0: sextet, s1: sextet, s2: sextet, s3: sextet :=
      b0 / 4, (b0 % 4) * 16 + b1 / 16, (b1 % 16) * 4 + b2 / 64, b2 % 64;
    var c0, c1, c2, c3 := SextetChar(s0), SextetChar(s1), SextetChar(s2), SextetChar(s3);
    SextetCharInverse(s0); SextetCharInverse(s1); SextetCharInverse(s2); SextetCharInverse(s3);
    GroupArithmetic(b0, b1, b2);
    assert EncodeGroup(b0, b1, b2) + rest == [c0] + ([c1] + ([c2] + ([c3] + rest)));
    var t1 := Feed(st, s0);
    var t2 := Feed(t1, s1);
    var t3 := Feed(t2, s2);
    var t4 := Feed(t3, s3);
    assert t1 == DecodeState(1, s0, 0, st.out);
    assert t2 == DecodeState(2, s1 % 16, 0, st.out + [b0]);
    assert t3 == DecodeState(3, s2 % 4, 0, st.out + [b0] + [b1]);
    assert t4 == DecodeState(0, 0, 0, st.out + [b0] + [b1] + [b2]);
    assert st.out + [b0] + [b1] + [b2] == st.out + [b0, b1, b2];
    calc {
      Scan([c0] + ([c1] + ([c2] + ([c3] + rest))), st);
      { ScanAlphabet(c0, [c1] + ([c2] + ([c3] + rest)), st, s0); }
      Scan([c1] + ([c2] + ([c3] + rest)), t1);
      { ScanAlphabet(c1, [c2] + ([c3] + rest), t1, s1); }
      Scan([c2] + ([c3] + rest), t2);
      { ScanAlphabet(c2, [c3] + rest, t2, s2); }
      Scan([c3] + rest, t3);
      { ScanAlphabet(c3, rest, t3, s3); }
      Scan(rest, t4);
    }
  }

  lemma EncodeSplit(b: seq<byte>)
    requires |b| >= 3
    ensures Encode(b) == EncodeGroup(b[0], b[1], b[2]) + Encode(b[3..])
  {
  }

  /** A final one-byte group, `XY==`, emits its byte and ends decoding at
      the second pad, whatever follows. */
  lemma ScanTailOne(b: seq<byte>, rest: string, st: DecodeState)
    requires st.quad == 0 && |b| == 1
    ensures Scan(Encode(b) + rest, st) == Some(st.out + b)
  {
    var b0 := b[0];
    var s0: sextet, s1: sextet := b0 / 4, (b0 % 4) * 16;
    var c0, c1 := SextetChar(s0), SextetChar(s1);
    SextetCharInverse(s0); SextetCharInverse(s1);
    GroupArithmetic(b0, 0, 0);
    assert Encode(b) + rest == [c0] + ([c1] + ([Pad] + ([Pad] + rest)));
    var t1 := Feed(st, s0);
    var t2 := Feed(t1, s1);
    assert t2 == DecodeState(2, s1 % 16, 0, st.out + [b0]);
    assert st.out + [b0] == st.out + b;
    calc {
      Scan([c0] + ([c1] + ([Pad] + ([Pad] + rest))), st);
      { ScanAlphabet(c0, [c1] + ([Pad] + ([Pad] + rest)), st, s0); }
      Scan([c1] + ([Pad] + ([Pad] + rest)), t1);
      { ScanAlphabet(c1, [Pad] + ([Pad] + rest), t1, s1); }
      Scan([Pad] + ([Pad] + rest), t2);
      { assert ([Pad] + ([Pad] + rest))[1..] == [Pad] + rest; }
      Scan([Pad] + rest, t2.(pads := 1));
    }
  }

  /** A final two-byte group, `XYZ=`, emits its bytes and ends decoding at
      the pad, whatever follows. */
  lemma ScanTailTwo(b: seq<byte>, rest: string, st: DecodeState)
    requires st.quad == 0 && |b| == 2
    ensures Scan(Encode(b) + rest, st) == Some(st.out + b)
  {
    var b0, b1 := b[0], b[1];
    var s0: sextet, s1: sextet, s2: sextet := b0 / 4, (b0 % 4) * 16 + b1 / 16, (b1 % 16) * 4;
    var c0, c1, c2 := SextetChar(s0), SextetChar(s1), SextetChar(s2);
    SextetCharInverse(s0); SextetCharInverse(s1); SextetCharInverse(s2);
    GroupArithmetic(b0, b1, 0);
    assert Encode(b) + rest == [c0] + ([c1] + ([c2] + ([Pad] + rest)));
    var t1 := Feed(st, s0);
    var t2 := Feed(t1, s1);
    var t3 := Feed(t2, s2);
    assert t2 == DecodeState(2, s1 % 16, 0, st.out + [b0]);
    assert t3 == DecodeState(3, s2 % 4, 0, st.out + [b0] + [b1]);
    assert st.out + [b0] + [b1] == st.out + b;
    calc {
      Scan([c0] + ([c1] + ([c2] + ([Pad] + rest))), st);
      { ScanAlphabet(c0, [c1] + ([c2] + ([Pad] + rest)), st, s0); }
      Scan([c1] + ([c2] + ([Pad] + rest)), t1);
      { ScanAlphabet(c1, [c2] + ([Pad] + rest), t1, s1); }
      Scan([c2] + ([Pad] + rest), t2);
      { ScanAlphabet(c2, [Pad] + rest, t2, s2); }
      Scan([Pad] + rest, t3);
    }
  }

  lemma ScanTail(b: seq<byte>, rest: string, st: DecodeState)
    requires st.quad == 0 && 1 <= |b| <= 2
    ensures Scan(Encode(b) + rest, st) == Some(st.out + b)
  {
    if |b| == 1 {
      ScanTailOne(b, rest, st);
    } else {
      ScanTailTwo(b, rest, st);
    }
  }

  /** Reading a full leading group: decoding continues on the rest from
      quantum position 0 with the group's three bytes emitted. */
  lemma ScanLeadingGroup(b: seq<byte>, rest: string, st: DecodeState)
    requires st.quad == 0 && |b| >= 3
    ensures Scan(Encode(b) + rest, st)
         == Scan(Encode(b[3..]) + rest, DecodeState(0, 0, 0, st.out + b[..3]))
  {
    EncodeSplit(b);
    assert Encode(b) + rest == EncodeGroup(b[0], b[1], b[2]) + (Encode(b[3..]) + rest);
    ScanGroup(b[0], b[1], b[2], Encode(b[3..]) + rest, st);
    assert b[..3] == [b[0], b[1], b[2]];
  }

  lemma ShiftByThree(n: nat)
    ensures (n + 3) % 3 == n % 3
  {
  }

  /** Encoded input whose last group is partial decodes to its bytes and
      stops there: the trailer is never read. */
  lemma {:induction false} ScanEncodedTrailer(b: seq<byte>, trailer: string, st: DecodeState)
    requires st.quad == 0 && |b| % 3 != 0
    ensures Scan(Encode(b) + trailer, st) == Some(st.out + b)
    decreases |b|
  {
    if |b| < 3 {
      ScanTail(b, trailer, st);
    } else {
      ScanLeadingGroup(b, trailer, st);
      var st' := DecodeState(0, 0, 0, st.out + b[..3]);
      ShiftByThree(|b[3..]|);
      ScanEncodedTrailer(b[3..], trailer, st');
      assert st'.out + b[3..] == st.out + b;
    }
  }

  /** Whole groups decode to their bytes and leave the decoder at the start
      of a fresh quantum. */
  lemma {:induction false} ScanFullGroups(b: seq<byte>, rest: string, st: DecodeState)
    requires st == DecodeState(0, 0, 0, st.out) && |b| % 3 == 0
    ensures Scan(Encode(b) + rest, st) == Scan(rest, DecodeState(0, 0, 0, st.out + b))
    decreases |b|
  {
    if |b| == 0 {
      assert Encode(b) + rest == rest && st.out + b == st.out;
    } else {
      ScanLeadingGroup(b, rest, st);
      var st' := DecodeState(0, 0, 0, st.out + b[..3]);
      ShiftByThree(|b[3..]|);
      ScanFullGroups(b[3..], rest, st');
      assert st'.out + b[3..] == st.out + b;
    }
  }

  lemma ScanEncoded(b: seq<byte>, st: DecodeState)
    requires st == DecodeState(0, 0, 0, st.out)
    ensures Scan(Encode(b), st) == Some(st.out + b)
  {
    assert Encode(b) + [] == Encode(b);
    if |b| % 3 != 0 {
      ScanEncodedTrailer(b, [], st);
    } else {
      ScanFullGroups(b, [], st);
    }
  }

  lemma {:induction false} EncodeIsAscii(b: seq<byte>)
    ensures forall i :: 0 <= i < |Encode(b)| ==> IsAscii(Encode(b)[i])
    decreases |b|
  {
    if |b| >= 3 {
      EncodeIsAscii(b[3..]);
      var g := EncodeGroup(b[0], b[1], b[2]);
      forall i | 0 <= i < |g| ensures IsAscii(g[i]) {
        SextetCharInverse(b[0] / 4);
        SextetCharInverse((b[0] % 4) * 16 + b[1] / 16);
        SextetCharInverse((b[1] % 16) * 4 + b[2] / 64);
        SextetCharInverse(b[2] % 64);
      }
    } else if |b| > 0 {
      SextetCharInverse(b[0] / 4);
      SextetCharInverse((b[0] % 4) * 16);
      if |b| == 2 {
        SextetCharInverse((b[0] % 4) * 16 + b[1] / 16);
        SextetCharInverse((b[1] % 16) * 4);
      }
    }
  }

  /** The decoder undoes the standard encoder on every byte string. */
  lemma DecodeEncode(b: seq<byte>)
    ensures B64Decode(Encode(b)) == Some(b)
  {
    EncodeIsAscii(b);
    ScanEncoded(b, Start);
    assert Start.out + b == b;
  }

  /* ------------------------------ leniency ------------------------------ */

  /** The characters the decoder looks at: the alphabet and the pad. */
  predicate Significant(c: char) {
    c == Pad || CharSextet(c).Some?
  }

  /** `s` with every character the decoder skips removed. */
  function Significants(s: string): (r: string)
    ensures |r| <= |s|
    ensures forall i :: 0 <= i < |r| ==> Significant(r[i])
    decreases |s|
  {
    if |s| == 0 then []
    else if Significant(s[0]) then [s[0]] + Significants(s[1..])
    else Significants(s[1..])
  }

  /** Every character the decoder looks at is ASCII: the pad, or the image
      of a sextet under Table 1. */
  lemma SignificantIsAscii(c: char)
    requires Significant(c)
    ensures IsAscii(c)
  {
    if c != Pad {
      CharSextetInverse(c);
      SextetCharInverse(CharSextet(c).value);
    }
  }

  lemma {:induction false} ScanSkipsNoise(s: string, st: DecodeState)
    ensures Scan(s, st) == Scan(Significants(s), st)
    decreases |s|
  {
    if |s| > 0 {
      if Significant(s[0]) {
        var t := [s[0]] + Significants(s[1..]);
        assert t[0] == s[0] && t[1..] == Significants(s[1..]);
        if s[0] == Pad {
          var st' := if st.quad >= 2 then st.(pads := st.pads + 1) else st;
          ScanSkipsNoise(s[1..], st');
        } else {
          ScanSkipsNoise(s[1..], Feed(st, CharSextet(s[0]).value));
        }
      } else {
        ScanSkipsNoise(s[1..], st);
      }
    }
  }

  /** Non-strict decoding: on ASCII input, characters outside the alphabet
      and the pad (line breaks, spaces, `-`, `_`, ...) do not change the result. */
  lemma DecodeIgnoresNoise(s: string)
    requires forall i :: 0 <= i < |s| ==> IsAscii(s[i])
    ensures B64Decode(s) == B64Decode(Significants(s))
  {
    var t := Significants(s);
    forall i | 0 <= i < |t| ensures IsAscii(t[i]) {
      SignificantIsAscii(t[i]);
    }
    assert B64Decode(s) == Scan(s, Start);
    assert B64Decode(t) == Scan(t, Start);
    ScanSkipsNoise(s, Start);
  }

  /** Decoding stops at the pad that completes a quantum: whatever follows the
      encoding of `b` is ignored, as long as it is ASCII. */
  lemma DecodeIgnoresTrailer(b: seq<byte>, trailer: string)
    requires |b| % 3 != 0
    requires forall i :: 0 <= i < |trailer| ==> IsAscii(trailer[i])
    ensures B64Decode(Encode(b) + trailer) == Some(b)
  {
    EncodeIsAscii(b);
    var e := Encode(b) + trailer;
    forall i | 0 <= i < |e| ensures IsAscii(e[i]) {
      if i >= |Encode(b)| { assert e[i] == trailer[i - |Encode(b)|]; }
    }
    ScanEncodedTrailer(b, trailer, Start);
    assert Start.out + b == b;
  }

  /** Input that ends one character into a quantum cannot be decoded, after
      any number of whole groups. */
  lemma DanglingCharacterFails(b: seq<byte>, c: char)
    requires |b| % 3 == 0 && CharSextet(c).Some?
    ensures B64Decode(Encode(b) + [c]) == None
  {
    ScanFullGroups(b, [c], Start);
    ScanAlphabet(c, [], DecodeState(0, 0, 0, b), CharSextet(c).value);
    assert [c] + [] == [c];
  }
}
