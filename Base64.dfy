/**
 * Go's `encoding/base64.StdEncoding`: the standard alphabet of section 4 of RFC 4648 with `=`
 * padding, not strict (non-zero trailing bits of a padded quantum are ignored).
 * `EncodeToString` and `DecodeString` follow the library's encoder and its `decodeQuantum` loop,
 * including the skipping of `\r` and `\n` and the bytes kept when the input is corrupt.
 */
module Base64 {
  import opened GoStrings

  const Pad: byte := 61   // '='
  const LF: byte := 10    // '\n'
  const CR: byte := 13    // '\r'
  /** The `decodeMap` entry of a byte outside the alphabet. */
  const Invalid: byte := 0xFF

  /** Alphabet of section 4 of RFC 4648: `A`-`Z`, `a`-`z`, `0`-`9`, `+`, `/`. */
  predicate InAlphabet(c: byte) {
    (65 <= c <= 90) || (97 <= c <= 122) || (48 <= c <= 57) || c == 43 || c == 47
  }

  /** The `encode` table: the alphabet character of a 6-bit value. */
  function EncodeSextet(v: int): (c: byte)
    requires 0 <= v < 64
    ensures InAlphabet(c)
  {
    if v < 26 then 65 + v
    else if v < 52 then 97 + (v - 26)
    else if v < 62 then 48 + (v - 52)
    else if v == 62 then 43
    else 47
  }

  /** The `decodeMap` table: the 6-bit value of an alphabet character, `Invalid` for any other byte. */
  function DecodeMap(c: byte): (v: byte)
    ensures v == Invalid <==> !InAlphabet(c)
    ensures v != Invalid ==> v < 64 && EncodeSextet(v) == c
  {
    if 65 <= c <= 90 then c - 65
    else if 97 <= c <= 122 then c - 71
    else if 48 <= c <= 57 then c + 4
    else if c == 43 then 62
    else if c == 47 then 63
    else Invalid
  }

  lemma SextetRoundTrip(v: int)
    requires 0 <= v < 64
    ensures DecodeMap(EncodeSextet(v)) == v
  {
  }

  /** Number of `=` bytes that end the encoding of `n` bytes. */
  function PadCount(n: nat): nat {
    if n % 3 == 0 then 0 else 3 - n % 3
  }

  /** Three bytes as one 24-bit value, `uint(b0)<<16 | uint(b1)<<8 | uint(b2)`. */
  function Group(b0: byte, b1: byte, b2: byte): (val: int)
    ensures 0 <= val < 0x100_0000
  {
    b0 as int * 0x1_0000 + b1 as int * 0x100 + b2 as int
  }

  /** The four output bytes of one full 24-bit group `val`. */
  function EncodeGroup(val: int): (g: GoString)
    requires 0 <= val < 0x100_0000
    ensures |g| == 4
  {
    [EncodeSextet(val / 0x4_0000 % 64), EncodeSextet(val / 0x1000 % 64),
     EncodeSextet(val / 64 % 64), EncodeSextet(val % 64)]
  }

  /**
   * `EncodeToString`: every three input bytes become four alphabet bytes; a final one or two bytes
   * become two or three alphabet bytes followed by `==` or `=`.
   */
  function EncodeToString(src: GoString): (dst: GoString)
    decreases |src|
  {
    if |src| == 0 then []
    else if |src| >= 3 then
      EncodeGroup(Group(src[0], src[1], src[2])) + EncodeToString(src[3..])
    else
      var val := Group(src[0], if |src| == 2 then src[1] else 0, 0);
      [EncodeSextet(val / 0x4_0000 % 64), EncodeSextet(val / 0x1000 % 64)]
        + (if |src| == 2 then [EncodeSextet(val / 64 % 64), Pad] else [Pad, Pad])
  }

  /** What one call of the library's `decodeQuantum` yields: the bytes it writes, the input after it,
      and whether it reported a `CorruptInputError`. */
  datatype Quantum = Quantum(out: GoString, rest: GoString, corrupt: bool)

  /** The result of `DecodeString`: the bytes decoded and whether an error was reported. */
  datatype Decoded = Decoded(bytes: GoString, corrupt: bool)

  function SkipNewlines(s: GoString): (r: GoString)
    ensures |r| <= |s|
    ensures r != [] ==> r[0] != LF && r[0] != CR
    decreases |s|
  {
    if s != [] && (s[0] == LF || s[0] == CR) then SkipNewlines(s[1..]) else s
  }

  /** `d0<<18 | d1<<12 | d2<<6 | d3`: Go's reassembly of four 6-bit values into a 24-bit value. */
  function Sextets(d0: int, d1: int, d2: int, d3: int): (val: int)
    requires 0 <= d0 < 64 && 0 <= d1 < 64 && 0 <= d2 < 64 && 0 <= d3 < 64
    ensures 0 <= val < 0x100_0000
  {
    d0 * 0x4_0000 + d1 * 0x1000 + d2 * 64 + d3
  }

  /** Two to four 6-bit values (missing ones read as zero) become one byte fewer than there are
      values: the bytes `val>>16`, `val>>8` and `val` of their 24-bit value. */
  function Assemble(dbuf: seq<int>): (out: GoString)
    requires 2 <= |dbuf| <= 4 && forall k :: 0 <= k < |dbuf| ==> 0 <= dbuf[k] < 64
    ensures |out| == |dbuf| - 1
  {
    var val := Sextets(dbuf[0], dbuf[1], if |dbuf| > 2 then dbuf[2] else 0, if |dbuf| > 3 then dbuf[3] else 0);
    [val / 0x1_0000, val / 0x100 % 0x100, val % 0x100][..|dbuf| - 1]
  }

  /** The end of a padded quantum: newlines are skipped and anything left is reported as trailing
      garbage, but the quantum's bytes are still written. */
  function FinishPadded(rest: GoString, dbuf: seq<int>): (q: Quantum)
    requires 2 <= |dbuf| <= 3 && forall k :: 0 <= k < |dbuf| ==> 0 <= dbuf[k] < 64
    ensures |q.rest| <= |rest| && |q.out| == |dbuf| - 1
  {
    var r := SkipNewlines(rest);
    Quantum(Assemble(dbuf), r, r != [])
  }

  /**
   * `decodeQuantum`, from the point where the values `dbuf` have been collected: reads up to four
   * alphabet bytes, skipping `\r` and `\n`. Input that ends inside a quantum, a byte outside the
   * alphabet, or padding after fewer than two values is corrupt and writes nothing.
   */
  function DecodeQuantum(src: GoString, dbuf: seq<int>): (q: Quantum)
    requires |dbuf| < 4 && forall k :: 0 <= k < |dbuf| ==> 0 <= dbuf[k] < 64
    ensures |q.rest| <= |src| && (src != [] ==> |q.rest| < |src|)
    ensures |q.out| <= 3
    ensures q.out != [] ==> |src| - |q.rest| + |dbuf| >= 4  // bytes come only from four consumed input bytes
    decreases |src|
  {
    if src == [] then
      Quantum([], [], |dbuf| > 0)
    else
      var c, rest := src[0], src[1..];
      var v := DecodeMap(c);
      if v != Invalid then
        if |dbuf| == 3 then Quantum(Assemble(dbuf + [v]), rest, false)
        else DecodeQuantum(rest, dbuf + [v])
      else if c == LF || c == CR then
        DecodeQuantum(rest, dbuf)
      else if c != Pad || |dbuf| < 2 then
        Quantum([], rest, true)
      else if |dbuf| == 2 then
        // a second '=' must follow, newlines allowed in between
        var r := SkipNewlines(rest);
        if r == [] || r[0] != Pad then Quantum([], r, true)
        else FinishPadded(r[1..], dbuf)
      else
        FinishPadded(rest, dbuf)
  }

  /**
   * `DecodeString`: decodes quantum after quantum and stops at the first error, returning the bytes
   * decoded so far. Never more than `DecodedLen`, three bytes per four whole input bytes, so the
   * library's output buffer is always large enough.
   */
  function DecodeString(src: GoString): (d: Decoded)
    ensures |d.bytes| <= |src| / 4 * 3
    decreases |src|
  {
    if src == [] then Decoded([], false)
    else
      var q := DecodeQuantum(src, []);
      if q.corrupt then Decoded(q.out, true)
      else
        var tail := DecodeString(q.rest);
        Decoded(q.out + tail.bytes, tail.corrupt)
  }
}

/** The laws of the Base64 transform: decoding inverts encoding, and how the bytes of an encoded
    prefix survive whatever follows it. */
module Base64Laws {
  import opened GoStrings
  import opened Base64


  lemma LowByte(hi: nat, lo: byte)
    ensures (hi * 0x100 + lo) % 0x100 == lo
  {
  }

  /** The four 6-bit values the encoder takes from a group, written with the bytes' own bits. */
  lemma GroupSextets(b0: byte, b1: byte, b2: byte)
    ensures var val := Group(b0, b1, b2);
      && val / 0x4_0000 % 64 == b0 / 4
      && val / 0x1000 % 64 == b0 % 4 * 16 + b1 / 16
      && val / 64 % 64 == b1 % 16 * 4 + b2 / 64
      && val % 64 == b2 % 64
  {
    var val := Group(b0, b1, b2);
    assert val / 0x4_0000 == b0 / 4 && val % 0x4_0000 == b0 % 4 * 0x1_0000 + b1 * 0x100 + b2;
    assert (b0 / 4) / 64 == 0 && (b0 / 4) % 64 == b0 / 4;
    assert val / 0x1000 == b0 * 16 + b1 / 16 && val % 0x1000 == b1 % 16 * 0x100 + b2;
    assert (b0 * 16 + b1 / 16) / 64 == b0 / 4 && (b0 * 16 + b1 / 16) % 64 == b0 % 4 * 16 + b1 / 16;
    assert val / 64 == b0 * 1024 + b1 * 4 + b2 / 64 && val % 64 == b2 % 64;
    assert (b0 * 1024 + b1 * 4 + b2 / 64) / 64 == b0 * 16 + b1 / 16 && (b0 * 1024 + b1 * 4 + b2 / 64) % 64 == b1 % 16 * 4 + b2 / 64;
  }

  /** The 6-bit values of a 24-bit group reassemble to the group's three bytes. */
  lemma GroupArithmetic(b0: byte, b1: byte, b2: byte)
    ensures var val := Group(b0, b1, b2);
      Assemble([val / 0x4_0000 % 64, val / 0x1000 % 64, val / 64 % 64, val % 64]) == [b0, b1, b2]
  {
    var val := Group(b0, b1, b2);
    GroupSextets(b0, b1, b2);
    var d := [val / 0x4_0000 % 64, val / 0x1000 % 64, val / 64 % 64, val % 64];
    assert Sextets(d[0], d[1], d[2], d[3]) == val by {
      assert b0 == b0 / 4 * 4 + b0 % 4;
      assert b1 == b1 / 16 * 16 + b1 % 16;
      assert b2 == b2 / 64 * 64 + b2 % 64;
    }
    assert val / 0x1_0000 == b0 && val % 0x1_0000 == b1 * 0x100 + b2;
    assert val / 0x100 == b0 * 0x100 + b1 && val % 0x100 == b2;
    assert (b0 * 0x100 + b1) / 0x100 == b0 && (b0 * 0x100 + b1) % 0x100 == b1;
  }

  /** Decoding the encoding of a full group consumes exactly its four bytes. */
  lemma QuantumOfGroup(b0: byte, b1: byte, b2: byte, rest: GoString)
    ensures DecodeQuantum(EncodeGroup(Group(b0, b1, b2)) + rest, [])
            == Quantum([b0, b1, b2], rest, false)
  {
    var val := Group(b0, b1, b2);
    var g := EncodeGroup(val);
    var s := g + rest;
    var d := [val / 0x4_0000 % 64, val / 0x1000 % 64, val / 64 % 64, val % 64];
    forall k | 0 <= k < 4 ensures DecodeMap(s[k]) == d[k] {
      SextetRoundTrip(d[k]);
    }
    var s1, s2, s3 := s[1..], s[2..], s[3..];
    assert s1[0] == s[1] && s1[1..] == s2;
    assert s2[0] == s[2] && s2[1..] == s3;
    assert s3[0] == s[3] && s3[1..] == rest;
    calc {
      DecodeQuantum(s, []);
      { assert [] + [d[0]] == [d[0]]; }
      DecodeQuantum(s1, [d[0]]);
      { assert [d[0]] + [d[1]] == [d[0], d[1]]; }
      DecodeQuantum(s2, [d[0], d[1]]);
      { assert [d[0], d[1]] + [d[2]] == [d[0], d[1], d[2]]; }
      DecodeQuantum(s3, [d[0], d[1], d[2]]);
      { assert [d[0], d[1], d[2]] + [d[3]] == d; }
      Quantum(Assemble(d), rest, false);
    }
    GroupArithmetic(b0, b1, b2);
  }

  /** Encoding distributes over a split after a whole number of groups. */
  lemma {:induction false} EncodeAppend(p: GoString, t: GoString)
    requires |p| % 3 == 0
    ensures EncodeToString(p + t) == EncodeToString(p) + EncodeToString(t)
    decreases |p|
  {
    if |p| > 0 {
      assert (p + t)[3..] == p[3..] + t;
      EncodeAppend(p[3..], t);
    } else {
      assert p + t == t;
    }
  }

  /** A full group at the front of the input decodes to its three bytes and decoding goes on. */
  lemma DecodeGroupThen(b0: byte, b1: byte, b2: byte, rest: GoString)
    ensures DecodeString(EncodeGroup(Group(b0, b1, b2)) + rest)
            == Decoded([b0, b1, b2] + DecodeString(rest).bytes, DecodeString(rest).corrupt)
  {
    QuantumOfGroup(b0, b1, b2, rest);
  }

  lemma Assoc(a: GoString, b: GoString, c: GoString)
    ensures (a + b) + c == a + (b + c)
  {
  }

  /** The encoding of three or more bytes starts with the encoding of their first group. */
  lemma EncodeUnfold(p: GoString, t: GoString)
    requires |p| >= 3
    ensures EncodeToString(p) + t == EncodeGroup(Group(p[0], p[1], p[2])) + (EncodeToString(p[3..]) + t)
  {
    Assoc(EncodeGroup(Group(p[0], p[1], p[2])), EncodeToString(p[3..]), t);
  }

  /** One induction step of `DecodeAfterGroups`: a leading group adds its three bytes. */
  lemma DecodeAfterGroupsStep(p: GoString, t: GoString)
    requires |p| >= 3
    requires DecodeString(EncodeToString(p[3..]) + t)
             == Decoded(p[3..] + DecodeString(t).bytes, DecodeString(t).corrupt)
    ensures DecodeString(EncodeToString(p) + t)
            == Decoded(p + DecodeString(t).bytes, DecodeString(t).corrupt)
  {
    var head, p', dt := [p[0], p[1], p[2]], p[3..], DecodeString(t);
    EncodeUnfold(p, t);
    DecodeGroupThen(p[0], p[1], p[2], EncodeToString(p') + t);
    PrependGroup(p, dt.bytes);
  }

  lemma PrependGroup(p: GoString, b: GoString)
    requires |p| >= 3
    ensures [p[0], p[1], p[2]] + (p[3..] + b) == p + b
  {
    assert p == [p[0], p[1], p[2]] + p[3..];
    Assoc([p[0], p[1], p[2]], p[3..], b);
  }

  /** Decoding the encoding of whole groups followed by anything yields those groups' bytes followed
      by whatever the rest decodes to. */
  lemma {:induction false} DecodeAfterGroups(p: GoString, t: GoString)
    requires |p| % 3 == 0
    ensures DecodeString(EncodeToString(p) + t)
            == Decoded(p + DecodeString(t).bytes, DecodeString(t).corrupt)
    decreases |p|
  {
    if |p| == 0 {
      assert EncodeToString(p) + t == t;
      assert p + DecodeString(t).bytes == DecodeString(t).bytes;
    } else {
      DecodeAfterGroups(p[3..], t);
      DecodeAfterGroupsStep(p, t);
    }
  }

  /** A single quantum that decodes cleanly and consumes the whole input is the whole decoding. */
  lemma LastQuantum(e: GoString, out: GoString)
    requires e != [] && DecodeQuantum(e, []) == Quantum(out, [], false)
    ensures DecodeString(e) == Decoded(out, false)
  {
    assert out + [] == out;
  }

  /** `xy==` is one quantum holding two 6-bit values. */
  lemma TwoValuesQuantum(d0: int, d1: int)
    requires 0 <= d0 < 64 && 0 <= d1 < 64
    ensures DecodeQuantum([EncodeSextet(d0), EncodeSextet(d1), Pad, Pad], [])
            == Quantum(Assemble([d0, d1]), [], false)
  {
    var e := [EncodeSextet(d0), EncodeSextet(d1), Pad, Pad];
    SextetRoundTrip(d0);
    SextetRoundTrip(d1);
    var e1, e2, e3 := e[1..], e[2..], e[3..];
    assert e1[0] == e[1] && e1[1..] == e2 && e2[0] == Pad && e2[1..] == e3;
    assert DecodeMap(Pad) == Invalid;
    assert SkipNewlines(e3) == e3 && e3[0] == Pad && e3[1..] == [];
    calc {
      DecodeQuantum(e, []);
      { assert [] + [d0] == [d0]; }
      DecodeQuantum(e1, [d0]);
      { assert [d0] + [d1] == [d0, d1]; }
      DecodeQuantum(e2, [d0, d1]);
      FinishPadded(e3[1..], [d0, d1]);
      FinishPadded([], [d0, d1]);
    }
  }

  /** `xyz=` is one quantum holding three 6-bit values. */
  lemma ThreeValuesQuantum(d0: int, d1: int, d2: int)
    requires 0 <= d0 < 64 && 0 <= d1 < 64 && 0 <= d2 < 64
    ensures DecodeQuantum([EncodeSextet(d0), EncodeSextet(d1), EncodeSextet(d2), Pad], [])
            == Quantum(Assemble([d0, d1, d2]), [], false)
  {
    var e := [EncodeSextet(d0), EncodeSextet(d1), EncodeSextet(d2), Pad];
    SextetRoundTrip(d0);
    SextetRoundTrip(d1);
    SextetRoundTrip(d2);
    var e1, e2, e3 := e[1..], e[2..], e[3..];
    assert e1[0] == e[1] && e1[1..] == e2 && e2[0] == e[2] && e2[1..] == e3;
    assert DecodeMap(Pad) == Invalid;
    assert e3[0] == Pad && e3[1..] == [] && SkipNewlines([]) == [];
    calc {
      DecodeQuantum(e, []);
      { assert [] + [d0] == [d0]; }
      DecodeQuantum(e1, [d0]);
      { assert [d0] + [d1] == [d0, d1]; }
      DecodeQuantum(e2, [d0, d1]);
      { assert [d0, d1] + [d2] == [d0, d1, d2]; }
      DecodeQuantum(e3, [d0, d1, d2]);
      FinishPadded([], [d0, d1, d2]);
    }
  }

  lemma OneByteArithmetic(b0: byte)
    ensures var val := Group(b0, 0, 0);
      Assemble([val / 0x4_0000 % 64, val / 0x1000 % 64]) == [b0]
  {
    var val := Group(b0, 0, 0);
    GroupSextets(b0, 0, 0);
    var d := [val / 0x4_0000 % 64, val / 0x1000 % 64];
    assert Sextets(d[0], d[1], 0, 0) == val by {
      assert b0 == b0 / 4 * 4 + b0 % 4;
    }
    assert val / 0x1_0000 == b0;
  }

  lemma TwoBytesArithmetic(b0: byte, b1: byte)
    ensures var val := Group(b0, b1, 0);
      Assemble([val / 0x4_0000 % 64, val / 0x1000 % 64, val / 64 % 64]) == [b0, b1]
  {
    var val := Group(b0, b1, 0);
    GroupSextets(b0, b1, 0);
    var d := [val / 0x4_0000 % 64, val / 0x1000 % 64, val / 64 % 64];
    assert Sextets(d[0], d[1], d[2], 0) == val by {
      assert b0 == b0 / 4 * 4 + b0 % 4;
      assert b1 == b1 / 16 * 16 + b1 % 16;
    }
    assert val / 0x1_0000 == b0;
    assert val / 0x100 == b0 * 0x100 + b1;
    LowByte(b0, b1);
  }

  /** The encoding of a final single byte, `xy==`, decodes back to it without error. */
  lemma OneByteRoundTrip(t: GoString)
    requires |t| == 1
    ensures DecodeString(EncodeToString(t)) == Decoded(t, false)
  {
    var b0 := t[0];
    assert t == [b0];
    var val := Group(b0, 0, 0);
    var d0, d1 := val / 0x4_0000 % 64, val / 0x1000 % 64;
    assert EncodeToString(t) == [EncodeSextet(d0), EncodeSextet(d1), Pad, Pad];
    TwoValuesQuantum(d0, d1);
    OneByteArithmetic(b0);
    LastQuantum(EncodeToString(t), t);
  }

  /** The encoding of a final two bytes, `xyz=`, decodes back to them without error. */
  lemma TwoBytesRoundTrip(t: GoString)
    requires |t| == 2
    ensures DecodeString(EncodeToString(t)) == Decoded(t, false)
  {
    var b0, b1 := t[0], t[1];
    assert t == [b0, b1];
    var val := Group(b0, b1, 0);
    var d0, d1, d2 := val / 0x4_0000 % 64, val / 0x1000 % 64, val / 64 % 64;
    assert EncodeToString(t) == [EncodeSextet(d0), EncodeSextet(d1), EncodeSextet(d2), Pad];
    ThreeValuesQuantum(d0, d1, d2);
    TwoBytesArithmetic(b0, b1);
    LastQuantum(EncodeToString(t), t);
  }

  /** The encoding of a final one or two bytes decodes back to them without error. */
  lemma TailRoundTrip(t: GoString)
    requires |t| < 3
    ensures DecodeString(EncodeToString(t)) == Decoded(t, false)
  {
    if |t| == 1 {
      OneByteRoundTrip(t);
    } else if |t| == 2 {
      TwoBytesRoundTrip(t);
    }
  }

  /** Decoding inverts encoding, and reports no error, for every byte string. */
  lemma RoundTrip(s: GoString)
    ensures DecodeString(EncodeToString(s)) == Decoded(s, false)
  {
    var k := |s| / 3 * 3;
    var p, t := s[..k], s[k..];
    assert s == p + t;
    EncodeAppend(p, t);
    TailRoundTrip(t);
    DecodeAfterGroups(p, EncodeToString(t));
  }

  /** Encoding is injective: different strings never share a token. */
  lemma EncodeInjective(s: GoString, s': GoString)
    requires EncodeToString(s) == EncodeToString(s')
    ensures s == s'
  {
    RoundTrip(s);
    RoundTrip(s');
  }

  /** The encoding is four bytes per started group of three: `EncodedLen` of the library. */
  lemma {:induction false} EncodedLength(s: GoString)
    ensures |EncodeToString(s)| == 4 * ((|s| + 2) / 3)
    decreases |s|
  {
    var n := |s|;
    if n >= 3 {
      EncodedLength(s[3..]);
      GroupLength(s);
      GroupCount(n);
    } else if n == 1 {
      OneByteShape(s);
    } else if n == 2 {
      TwoBytesShape(s);
    }
  }

  lemma GroupLength(s: GoString)
    requires |s| >= 3
    ensures |EncodeToString(s)| == 4 + |EncodeToString(s[3..])|
  {
  }

  lemma GroupCount(n: int)
    requires n >= 3
    ensures 4 * ((n + 2) / 3) == 4 + 4 * ((n - 3 + 2) / 3)
  {
  }

  /** `dst` is alphabet bytes followed by exactly `pad` padding bytes. */
  predicate PaddedAlphabet(dst: GoString, pad: nat) {
    && pad <= |dst|
    && (forall i :: 0 <= i < |dst| - pad ==> InAlphabet(dst[i]))
    && (forall i :: |dst| - pad <= i < |dst| ==> dst[i] == Pad)
  }

  lemma PaddedAlphabetPrepend(g: GoString, e: GoString, pad: nat)
    requires forall i :: 0 <= i < |g| ==> InAlphabet(g[i])
    requires PaddedAlphabet(e, pad)
    ensures PaddedAlphabet(g + e, pad)
  {
    assert forall i :: |g| <= i < |g + e| ==> (g + e)[i] == e[i - |g|];
  }

  lemma PadCountStep(n: nat)
    requires n >= 3
    ensures PadCount(n) == PadCount(n - 3)
  {
    assert n % 3 == (n - 3) % 3;
  }

  lemma OneByteShape(t: GoString)
    requires |t| == 1
    ensures |EncodeToString(t)| == 4 && PaddedAlphabet(EncodeToString(t), 2)
  {
    var b0 := t[0];
    assert t == [b0];
    var val := Group(b0, 0, 0);
    var e := [EncodeSextet(val / 0x4_0000 % 64), EncodeSextet(val / 0x1000 % 64), Pad, Pad];
    assert EncodeToString(t) == e;
    PaddedQuantum(e, 2);
  }

  lemma TwoBytesShape(t: GoString)
    requires |t| == 2
    ensures |EncodeToString(t)| == 4 && PaddedAlphabet(EncodeToString(t), 1)
  {
    var b0, b1 := t[0], t[1];
    assert t == [b0, b1];
    var val := Group(b0, b1, 0);
    var e := [EncodeSextet(val / 0x4_0000 % 64), EncodeSextet(val / 0x1000 % 64), EncodeSextet(val / 64 % 64), Pad];
    assert EncodeToString(t) == e;
    PaddedQuantum(e, 1);
  }

  lemma PaddedQuantum(e: GoString, pad: nat)
    requires |e| == 4 && 1 <= pad <= 2
    requires forall i :: 0 <= i < 4 - pad ==> InAlphabet(e[i])
    requires forall i :: 4 - pad <= i < 4 ==> e[i] == Pad
    ensures PaddedAlphabet(e, pad)
  {
  }

  /** The encoding is alphabet bytes followed by `PadCount(|s|)` padding bytes. */
  lemma {:induction false} EncodedShape(s: GoString)
    ensures PaddedAlphabet(EncodeToString(s), PadCount(|s|))
    decreases |s|
  {
    if |s| >= 3 {
      EncodedShape(s[3..]);
      PadCountStep(|s|);
      PaddedAlphabetPrepend(EncodeGroup(Group(s[0], s[1], s[2])), EncodeToString(s[3..]), PadCount(|s|));
    } else if |s| == 1 {
      OneByteShape(s);
    } else if |s| == 2 {
      TwoBytesShape(s);
    }
  }

  /** A full group's four output bytes, written with the bytes' own bits. */
  lemma EncodeGroupBits(b0: byte, b1: byte, b2: byte)
    ensures EncodeGroup(Group(b0, b1, b2))
            == [EncodeSextet(b0 / 4), EncodeSextet(b0 % 4 * 16 + b1 / 16),
                EncodeSextet(b1 % 16 * 4 + b2 / 64), EncodeSextet(b2 % 64)]
  {
    GroupSextets(b0, b1, b2);
  }

  /** A final single byte is two alphabet bytes and `==`. */
  lemma EncodeOneBits(b0: byte)
    ensures EncodeToString([b0]) == [EncodeSextet(b0 / 4), EncodeSextet(b0 % 4 * 16), Pad, Pad]
  {
    GroupSextets(b0, 0, 0);
  }

  /** A final two bytes are three alphabet bytes and `=`. */
  lemma EncodeTwoBits(b0: byte, b1: byte)
    ensures EncodeToString([b0, b1])
            == [EncodeSextet(b0 / 4), EncodeSextet(b0 % 4 * 16 + b1 / 16), EncodeSextet(b1 % 16 * 4), Pad]
  {
    GroupSextets(b0, b1, 0);
  }
}
