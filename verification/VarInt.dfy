/** Bitcoin CompactSize integers (tnwire/block.go, internal/txpipe/txpipe.go). */
module VarInts {
  import opened Bytes

  /** A decoded integer and the number of bytes it took. */
  datatype VarInt = VarInt(value: nat, width: nat)

  /** The shortest encoding of a 64-bit value. */
  function Encode(v: nat): (b: seq<byte>)
    requires v < U64
    ensures |b| == (if v < 0xfd then 1 else if v <= 0xffff then 3 else if v <= 0xffff_ffff then 5 else 9)
    ensures v >= 1 ==> b[0] >= 1
  {
    if v < 0xfd then [v]
    else if v <= 0xffff then [0xfd] + ToLE(v, 2)
    else if v <= 0xffff_ffff then [0xfe] + ToLE(v, 4)
    else [0xff] + ToLE(v, 8)
  }

  function PayloadWidth(tag: byte): nat {
    if tag < 0xfd then 0 else if tag == 0xfd then 2 else if tag == 0xfe then 4 else 8
  }

  /** Decodes the integer at `off`; None when the buffer is too short. Any width is accepted. */
  function ReadAt(b: seq<byte>, off: nat): (r: Option<VarInt>)
    ensures r.Some? ==> 1 <= r.value.width && off + r.value.width <= |b| && r.value.value < U64
  {
    Widths();
    if off >= |b| then None
    else
      var w := PayloadWidth(b[off]);
      if w == 0 then Some(VarInt(b[off], 1))
      else if off + 1 + w > |b| then None
      else Some(VarInt(FromLE(b[off + 1..off + 1 + w]), 1 + w))
  }

  /** Decoding looks at the decoded bytes only. */
  lemma ReadIsLocal(b: seq<byte>, b': seq<byte>, off: nat, e: nat)
    requires Agree(b, b', e)
    requires ReadAt(b, off).Some? && off + ReadAt(b, off).value.width <= e
    ensures ReadAt(b', off) == ReadAt(b, off)
  {
    var n := ReadAt(b, off).value.width;
    assert b[off + 1..off + n] == b'[off + 1..off + n];
  }

  /** Decoding undoes encoding, wherever the encoding sits. */
  lemma ReadsEncoded(b: seq<byte>, off: nat, v: nat)
    requires v < U64 && At(b, off, Encode(v))
    ensures ReadAt(b, off) == Some(VarInt(v, |Encode(v)|))
  {
    Widths();
    hide ToLE, FromLE, Exp256;
    var e := Encode(v);
    AtSlice(b, off, e);
    assert b[off] == e[0];
    if |e| > 1 {
      var w := |e| - 1;
      LittleEndianReads(v, w);
      assert b[off + 1..off + 1 + w] == b[off..off + |e|][1..] == e[1..] == ToLE(v, w);
    }
  }

  /** The layout itself: the value in one byte below 0xfd, else a tag and the value in 2, 4 or 8 bytes, least
      significant first. */
  lemma EncodeLayout(v: nat)
    requires v < U64
    ensures v < 0xfd ==> Encode(v) == [v]
    ensures 0xfd <= v <= 0xffff ==> Encode(v) == [0xfd] + [v % 256, v / 256]
    ensures 0xffff < v <= 0xffff_ffff ==>
      Encode(v) == [0xfe] + [v % 256, v / 0x100 % 256, v / 0x1_0000 % 256, v / 0x100_0000]
    ensures 0xffff_ffff < v ==> Encode(v) == [0xff] + ([v % 256] + ToLE(v / 256, 7))
  {
    hide ToLE;
    if 0xfd <= v <= 0xffff {
      TwoBytes(v);
    } else if 0xffff < v <= 0xffff_ffff {
      FourBytes(v);
    } else if v > 0xffff_ffff {
      EightBytes(v);
    }
  }

  lemma TwoBytes(v: nat)
    requires v <= 0xffff
    ensures ToLE(v, 2) == [v % 256, v / 256]
  {
    var a := v / 256;
    assert ToLE(a, 1) == [a % 256] + ToLE(a / 256, 0) == [a % 256];
    assert ToLE(v, 2) == [v % 256] + ToLE(a, 1);
  }

  lemma EightBytes(v: nat)
    ensures ToLE(v, 8) == [v % 256] + ToLE(v / 256, 7)
  {
  }

  lemma FourBytes(v: nat)
    requires v <= 0xffff_ffff
    ensures ToLE(v, 4) == [v % 256, v / 0x100 % 256, v / 0x1_0000 % 256, v / 0x100_0000]
  {
    var a := v / 256;
    var b := a / 256;
    var c := b / 256;
    assert b == v / 0x1_0000 && c == v / 0x100_0000;
    assert ToLE(c, 1) == [c % 256] + ToLE(c / 256, 0) == [c % 256];
    assert ToLE(b, 2) == [b % 256] + ToLE(c, 1);
    assert ToLE(a, 3) == [a % 256] + ToLE(b, 2);
    assert ToLE(v, 4) == [v % 256] + ToLE(a, 3);
  }

  /** The bytes read are the shortest encoding exactly when they are as many as the shortest encoding. */
  lemma ShortestIsUnique(b: seq<byte>, off: nat)
    requires ReadAt(b, off).Some?
    ensures var r := ReadAt(b, off).value;
      |Encode(r.value)| <= r.width &&
      (At(b, off, Encode(r.value)) <==> r.width == |Encode(r.value)|)
  {
    Widths();
    var r := ReadAt(b, off).value;
    var s := b[off..off + r.width];
    AtSlice(b, off, Encode(r.value));
    assert s[0] == b[off];
    if At(b, off, Encode(r.value)) {
      ReadsEncoded(b, off, r.value);
    }
    if r.width > 1 {
      assert s[1..] == b[off + 1..off + r.width];
      LittleEndianWrites(s[1..]);
      assert s == [b[off]] + s[1..];
    } else {
      assert s == [b[off]];
    }
  }
}
