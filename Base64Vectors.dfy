/** The test vectors of section 10 of RFC 4648, and how Go's decoder treats malformed tokens. */
module Base64Vectors {
  import opened GoStrings
  import opened Base64
  import opened Base64Laws

  /** Encoding of a group once its 24-bit value and 6-bit values are known. */
  lemma GroupChars(b0: byte, b1: byte, b2: byte, val: int, d0: int, d1: int, d2: int, d3: int)
    requires Group(b0, b1, b2) == val
    requires 0 <= d0 < 64 && 0 <= d1 < 64 && 0 <= d2 < 64 && 0 <= d3 < 64
    requires val / 0x4_0000 % 64 == d0 && val / 0x1000 % 64 == d1 && val / 64 % 64 == d2 && val % 64 == d3
    ensures EncodeGroup(Group(b0, b1, b2))
            == [EncodeSextet(d0), EncodeSextet(d1), EncodeSextet(d2), EncodeSextet(d3)]
  {
  }

  /** "foo" is "Zm9v". */
  lemma FooChars()
    ensures EncodeGroup(Group(102, 111, 111)) == [90, 109, 57, 118]
  {
    GroupChars(102, 111, 111, 6713199, 25, 38, 61, 47);
  }

  /** "bar" is "YmFy". */
  lemma BarChars()
    ensures EncodeGroup(Group(98, 97, 114)) == [89, 109, 70, 121]
  {
    GroupChars(98, 97, 114, 6447474, 24, 38, 5, 50);
  }

  /** "b" is "Yg==". */
  lemma BChars()
    ensures EncodeToString([98]) == [89, 103, 61, 61]
  {
    assert Group(98, 0, 0) == 6422528;
    assert 6422528 / 0x4_0000 % 64 == 24 && 6422528 / 0x1000 % 64 == 32;
  }

  /** "ba" is "YmE=". */
  lemma BaChars()
    ensures EncodeToString([98, 97]) == [89, 109, 69, 61]
  {
    assert Group(98, 97, 0) == 6447360;
    assert 6447360 / 0x4_0000 % 64 == 24 && 6447360 / 0x1000 % 64 == 38 && 6447360 / 64 % 64 == 4;
  }

  lemma VectorEmpty()
    ensures EncodeToString(Ascii("")) == Ascii("")
  {
    assert Ascii("") == [];
  }

  lemma VectorF()
    ensures EncodeToString(Ascii("f")) == Ascii("Zg==")
  {
    assert Ascii("f") == [102];
    assert Ascii("Zg==") == [90, 103, 61, 61];
    assert Group(102, 0, 0) == 6684672;
    assert 6684672 / 0x4_0000 % 64 == 25 && 6684672 / 0x1000 % 64 == 32;
  }

  lemma VectorFo()
    ensures EncodeToString(Ascii("fo")) == Ascii("Zm8=")
  {
    assert Ascii("fo") == [102, 111];
    assert Ascii("Zm8=") == [90, 109, 56, 61];
    assert Group(102, 111, 0) == 6713088;
    assert 6713088 / 0x4_0000 % 64 == 25 && 6713088 / 0x1000 % 64 == 38 && 6713088 / 64 % 64 == 60;
  }

  lemma VectorFoo()
    ensures EncodeToString(Ascii("foo")) == Ascii("Zm9v")
  {
    var s: GoString := [102, 111, 111];
    assert Ascii("foo") == s;
    assert Ascii("Zm9v") == [90, 109, 57, 118];
    FooChars();
    assert s[3..] == [];
  }

  lemma VectorFoob()
    ensures EncodeToString(Ascii("foob")) == Ascii("Zm9vYg==")
  {
    var s: GoString := [102, 111, 111, 98];
    assert Ascii("foob") == s;
    assert Ascii("Zm9vYg==") == [90, 109, 57, 118] + [89, 103, 61, 61];
    FooChars();
    assert s[3..] == [98];
    BChars();
  }

  lemma VectorFooba()
    ensures EncodeToString(Ascii("fooba")) == Ascii("Zm9vYmE=")
  {
    var s: GoString := [102, 111, 111, 98, 97];
    assert Ascii("fooba") == s;
    assert Ascii("Zm9vYmE=") == [90, 109, 57, 118] + [89, 109, 69, 61];
    FooChars();
    assert s[3..] == [98, 97];
    BaChars();
  }

  lemma VectorFoobar()
    ensures EncodeToString(Ascii("foobar")) == Ascii("Zm9vYmFy")
  {
    var s: GoString := [102, 111, 111, 98, 97, 114];
    assert Ascii("foobar") == s;
    assert Ascii("Zm9vYmFy") == [90, 109, 57, 118] + [89, 109, 70, 121];
    FooChars();
    BarChars();
    assert s[3..] == [98, 97, 114];
    assert [98, 97, 114][3..] == [];
    assert EncodeToString([98, 97, 114]) == [89, 109, 70, 121];
  }

  /** Decoding the vectors gives back the inputs, without error. */
  lemma DecodeVectorF()
    ensures DecodeString(Ascii("Zg==")) == Decoded(Ascii("f"), false)
  {
    VectorF();
    RoundTrip(Ascii("f"));
  }

  lemma DecodeVectorFo()
    ensures DecodeString(Ascii("Zm8=")) == Decoded(Ascii("fo"), false)
  {
    VectorFo();
    RoundTrip(Ascii("fo"));
  }

  lemma DecodeVectorFoobar(token: GoString)
    requires token == Ascii("Zm9vYmFy")
    ensures DecodeString(token) == Decoded(Ascii("foobar"), false)
  {
    VectorFoobar();
    RoundTrip(Ascii("foobar"));
  }

  /** An invalid byte ends decoding with an error; the groups before it are kept. */
  lemma InvalidAfterGroup()
    ensures DecodeString(Ascii("Zm9v!!!!")) == Decoded(Ascii("foo"), true)
  {
    var foo, bang := Ascii("foo"), Ascii("!!!!");
    VectorFoo();
    assert Ascii("Zm9v!!!!") == EncodeToString(foo) + bang;
    assert DecodeString(bang) == Decoded([], true);
    DecodeAfterGroups(foo, bang);
    assert foo + [] == foo;
  }

  lemma GarbageAfterPaddingBytes()
    ensures DecodeString([90, 103, 61, 61, 120]) == Decoded([102], true)
  {
    assert Assemble([25, 32]) == [102];
  }

  /** Bytes after the padding are an error, but the padded quantum's byte is kept. */
  lemma GarbageAfterPadding()
    ensures DecodeString(Ascii("Zg==x")) == Decoded(Ascii("f"), true)
  {
    GarbageAfterPaddingBytes();
    assert Ascii("Zg==x") == [90, 103, 61, 61, 120];
    assert Ascii("f") == [102];
  }

  lemma NewlinesSkippedBytes()
    ensures DecodeString([90, 103, 10, 61, 61]) == Decoded([102], false)
  {
    assert Assemble([25, 32]) == [102];
  }

  /** Newlines inside a token are skipped. */
  lemma NewlinesSkipped()
    ensures DecodeString(Ascii("Zg\n==")) == Decoded(Ascii("f"), false)
  {
    NewlinesSkippedBytes();
    assert Ascii("Zg\n==") == [90, 103, 10, 61, 61];
    assert Ascii("f") == [102];
  }

  /** A token cut inside a quantum decodes to nothing, with an error. */
  lemma Truncated()
    ensures DecodeString(Ascii("Zg=")) == Decoded([], true)
  {
    assert Ascii("Zg=") == [90, 103, 61];
  }

  lemma NonCanonicalBytes()
    ensures DecodeString([90, 104, 61, 61]) == Decoded([102], false)
  {
    assert Assemble([25, 33]) == [102];
  }

  /** The decoder is not strict: a token whose unused bits are set decodes like the canonical one,
      so two different tokens redeem to the same bytes. */
  lemma NonCanonicalToken()
    ensures DecodeString(Ascii("Zh==")) == Decoded(Ascii("f"), false)
    ensures Ascii("Zh==") != EncodeToString(Ascii("f"))
  {
    NonCanonicalBytes();
    VectorF();
    assert Ascii("Zh==") == [90, 104, 61, 61];
    assert Ascii("Zg==") == [90, 103, 61, 61];
    assert Ascii("f") == [102];
  }
}
