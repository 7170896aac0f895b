/** The little-endian vector codec (engine/src/search/index.rs); floats are their 32-bit words. */
module VectorCodec {

  type Word = bv32
  type Byte = bv8

  /** The bytes of a word, least significant first. */
  function ToBytes(w: Word): (b: seq<Byte>)
    ensures |b| == 4
  {
    [(w & 0xFF) as Byte, ((w >> 8) & 0xFF) as Byte, ((w >> 16) & 0xFF) as Byte, ((w >> 24) & 0xFF) as Byte]
  }

  function FromBytes(a: Byte, b: Byte, c: Byte, d: Byte): Word {
    (a as Word) | ((b as Word) << 8) | ((c as Word) << 16) | ((d as Word) << 24)
  }

  lemma WordRoundTrip(w: Word)
    ensures FromBytes(ToBytes(w)[0], ToBytes(w)[1], ToBytes(w)[2], ToBytes(w)[3]) == w
  {
  }

  lemma ByteRoundTrip(a: Byte, b: Byte, c: Byte, d: Byte)
    ensures ToBytes(FromBytes(a, b, c, d)) == [a, b, c, d]
  {
  }

  /** Little-endian: a byte counts 256 times as much as the one before it. */
  lemma LittleEndian(a: Byte, b: Byte, c: Byte, d: Byte)
    ensures FromBytes(a, b, c, d) == a as Word + 0x100 * (b as Word + 0x100 * (c as Word + 0x100 * (d as Word)))
  {
  }

  /** `bytes` is the concatenation of the words' encodings. */
  ghost predicate Encodes(words: seq<Word>, bytes: seq<Byte>) {
    && |bytes| == 4 * |words|
    && forall i | 0 <= i < |words| :: bytes[4 * i..4 * i + 4] == ToBytes(words[i])
  }

  method EncodeVector(v: seq<Word>) returns (out: seq<Byte>)
    ensures Encodes(v, out)
  {
    hide ToBytes;
    out := [];
    for i := 0 to |v|
      invariant Encodes(v[..i], out)
    {
      ghost var before := out;
      out := out + ToBytes(v[i]);
      forall k | 0 <= k < i + 1 ensures out[4 * k..4 * k + 4] == ToBytes(v[..i + 1][k]) {
        if k < i {
          assert before[4 * k..4 * k + 4] == ToBytes(v[..i][k]);
          assert out[4 * k..4 * k + 4] == before[4 * k..4 * k + 4];
        }
      }
    }
    assert v[..|v|] == v;
  }

  method DecodeVector(bytes: seq<Byte>) returns (out: seq<Word>)
    ensures Encodes(out, bytes[..|bytes| - |bytes| % 4])
  {
    hide ToBytes, FromBytes;
    out := [];
    var i := 0;
    while i + 4 <= |bytes|
      invariant i == 4 * |out| <= |bytes|
      invariant forall k | 0 <= k < |out| :: bytes[4 * k..4 * k + 4] == ToBytes(out[k])
    {
      out := out + [FromBytes(bytes[i], bytes[i + 1], bytes[i + 2], bytes[i + 3])];
      ByteRoundTrip(bytes[i], bytes[i + 1], bytes[i + 2], bytes[i + 3]);
      assert bytes[i..i + 4] == [bytes[i], bytes[i + 1], bytes[i + 2], bytes[i + 3]];
      i := i + 4;
    }
    var whole := bytes[..|bytes| - |bytes| % 4];
    forall k | 0 <= k < |out| ensures whole[4 * k..4 * k + 4] == ToBytes(out[k]) {
      assert whole[4 * k..4 * k + 4] == bytes[4 * k..4 * k + 4];
    }
  }

  /** A byte string encodes at most one vector, so decoding an encoding gives the vector back. */
  lemma DecodeAfterEncode(v: seq<Word>, bytes: seq<Byte>, w: seq<Word>)
    requires Encodes(v, bytes) && Encodes(w, bytes[..|bytes| - |bytes| % 4])
    ensures w == v
  {
    hide ToBytes, FromBytes;
    assert bytes[..|bytes|] == bytes;
    forall i | 0 <= i < |v| ensures w[i] == v[i] {
      WordRoundTrip(v[i]);
      WordRoundTrip(w[i]);
      assert ToBytes(v[i]) == bytes[4 * i..4 * i + 4] == ToBytes(w[i]);
    }
  }

  /** Encoding what was decoded gives exactly the longest prefix of whole words. */
  lemma EncodeAfterDecode(bytes: seq<Byte>, v: seq<Word>, again: seq<Byte>)
    requires Encodes(v, bytes[..|bytes| - |bytes| % 4]) && Encodes(v, again)
    ensures again == bytes[..|bytes| - |bytes| % 4]
    ensures |bytes| - 4 < |again| <= |bytes|
  {
    hide ToBytes, FromBytes;
    var whole := bytes[..|bytes| - |bytes| % 4];
    forall i | 0 <= i < |again| ensures again[i] == whole[i] {
      var k := i / 4;
      assert again[4 * k..4 * k + 4] == ToBytes(v[k]) == whole[4 * k..4 * k + 4];
      assert again[4 * k..4 * k + 4][i - 4 * k] == again[i];
      assert whole[4 * k..4 * k + 4][i - 4 * k] == whole[i];
    }
  }
}
