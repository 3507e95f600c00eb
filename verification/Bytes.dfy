/** Bytes, hashes and fixed-width integers shared by every codec of the bridge. */
module Bytes {
  type byte = x: int | 0 <= x < 0x100

  /** A hash in internal (wire) byte order, hashid/hashid.go:22. */
  type Hash = h: seq<byte> | |h| == 32 witness seq(32, _ => 0)

  /** Registries and caches are cut into 64 shards by the first key byte. */
  const SHARDS: nat := 64

  function ShardIndex(k: Hash): (i: nat)
    ensures i < SHARDS
  {
    k[0] % SHARDS
  }

  datatype Option<+T> = None | Some(value: T)

  /** The sequence with position `i` left out. */
  function Without<T>(s: seq<T>, i: nat): (r: seq<T>)
    requires i < |s|
    ensures |r| == |s| - 1
    ensures forall j :: 0 <= j < |r| ==> r[j] == s[if j < i then j else j + 1]
  {
    s[..i] + s[i + 1..]
  }

  /** Whether `t` occurs in `s` as a run. */
  predicate Contains<T(==)>(s: seq<T>, t: seq<T>) {
    t <= s || (s != [] && Contains(s[1..], t))
  }

  predicate OccursAt<T(==)>(s: seq<T>, t: seq<T>, i: nat) {
    i + |t| <= |s| && s[i..i + |t|] == t
  }

  lemma OccursInTail<T>(s: seq<T>, t: seq<T>, i: nat)
    requires s != []
    ensures OccursAt(s[1..], t, i) <==> OccursAt(s, t, i + 1)
  {
    if i + 1 + |t| <= |s| {
      assert s[1..][i..i + |t|] == s[i + 1..i + 1 + |t|];
    }
  }

  /** A run is contained exactly when it stands somewhere. */
  lemma {:induction false} ContainsIsOccurs<T>(s: seq<T>, t: seq<T>)
    ensures Contains(s, t) <==> exists i: nat :: OccursAt(s, t, i)
  {
    assert t <= s <==> OccursAt(s, t, 0);
    if s == [] {
      assert forall i: nat :: OccursAt(s, t, i) ==> i == 0;
    } else {
      hide OccursAt;
      ContainsIsOccurs(s[1..], t);
      if i: nat :| OccursAt(s[1..], t, i) {
        OccursInTail(s, t, i);
      }
      if i: nat :| OccursAt(s, t, i) {
        if i > 0 {
          OccursInTail(s, t, i - 1);
        }
      }
    }
  }

  const U64: nat := 0x1_0000_0000_0000_0000

  type u64 = x: int | 0 <= x < U64

  function Exp256(n: nat): (r: nat)
    ensures r >= 1
  {
    if n == 0 then 1 else 256 * Exp256(n - 1)
  }

  function ToLE(v: nat, n: nat): (b: seq<byte>)
    ensures |b| == n
    decreases n
  {
    if n == 0 then [] else [v % 256] + ToLE(v / 256, n - 1)
  }

  function FromLE(b: seq<byte>): (v: nat)
    ensures v < Exp256(|b|)
  {
    if b == [] then 0 else b[0] + 256 * FromLE(b[1..])
  }

  function ToBE(v: nat, n: nat): (b: seq<byte>)
    ensures |b| == n
    decreases n
  {
    if n == 0 then [] else ToBE(v / 256, n - 1) + [v % 256]
  }

  function FromBE(b: seq<byte>): (v: nat)
    ensures v < Exp256(|b|)
  {
    if b == [] then 0 else 256 * FromBE(b[..|b| - 1]) + b[|b| - 1]
  }

  /** The fixed widths in use: 2, 4 and 8 bytes. */
  lemma Widths()
    ensures Exp256(2) == 0x1_0000 && Exp256(4) == 0x1_0000_0000 && Exp256(8) == U64
  {
    assert Exp256(1) == 256;
    assert Exp256(3) == 256 * Exp256(2);
    assert Exp256(5) == 256 * Exp256(4);
    assert Exp256(6) == 256 * Exp256(5);
    assert Exp256(7) == 256 * Exp256(6);
  }

  lemma {:induction false} Exp256Grows(n: nat, m: nat)
    requires n <= m
    ensures Exp256(n) <= Exp256(m)
    decreases m - n
  {
    if n < m {
      Exp256Grows(n + 1, m);
    }
  }

  lemma {:induction false} LittleEndianReads(v: nat, n: nat)
    requires v < Exp256(n)
    ensures FromLE(ToLE(v, n)) == v
    decreases n
  {
    if n > 0 {
      LittleEndianReads(v / 256, n - 1);
      assert ToLE(v, n)[1..] == ToLE(v / 256, n - 1);
    }
  }

  lemma {:induction false} LittleEndianWrites(b: seq<byte>)
    ensures ToLE(FromLE(b), |b|) == b
  {
    if b != [] {
      LittleEndianWrites(b[1..]);
      assert FromLE(b) % 256 == b[0] && FromLE(b) / 256 == FromLE(b[1..]);
    }
  }

  lemma {:induction false} BigEndianReads(v: nat, n: nat)
    requires v < Exp256(n)
    ensures FromBE(ToBE(v, n)) == v
    decreases n
  {
    if n > 0 {
      BigEndianReads(v / 256, n - 1);
      assert ToBE(v, n)[..n - 1] == ToBE(v / 256, n - 1);
    }
  }

  lemma {:induction false} BigEndianWrites(b: seq<byte>)
    ensures ToBE(FromBE(b), |b|) == b
  {
    if b != [] {
      var h := b[..|b| - 1];
      BigEndianWrites(h);
      assert FromBE(b) % 256 == b[|b| - 1] && FromBE(b) / 256 == FromBE(h);
      assert b == h + [b[|b| - 1]];
    }
  }

  /** Eight big-endian bytes: how BRC-143 and BRC-144 frames write a count. */
  function U64BE(v: nat): (b: seq<byte>)
    ensures |b| == 8
  {
    ToBE(v, 8)
  }

  lemma {:induction false} ZeroBytes(n: nat)
    ensures ToBE(0, n) == seq(n, _ => 0)
  {
    if n > 0 {
      ZeroBytes(n - 1);
    }
  }

  /** The layout itself, most significant byte first: the last byte is the low one, and what is left of the
      value stands before it. */
  lemma BigEndianLayout(v: nat)
    ensures |U64BE(v)| == 8 && U64BE(v)[7] == v % 256 && U64BE(v)[..7] == ToBE(v / 256, 7)
    ensures v < 256 ==> U64BE(v) == [0, 0, 0, 0, 0, 0, 0, v]
  {
    LowByteIsLast(v, 7);
    ZeroBytes(7);
    hide ToBE;
  }

  lemma LowByteIsLast(v: nat, n: nat)
    ensures ToBE(v, n + 1) == ToBE(v / 256, n) + [v % 256]
  {
  }

  function ReadU64BE(b: seq<byte>, off: nat): (v: u64)
    requires off + 8 <= |b|
  {
    Widths();
    FromBE(b[off..off + 8])
  }

  /** The bytes `x` sit in `b` at offset `off`. */
  ghost predicate At(b: seq<byte>, off: nat, x: seq<byte>) {
    off + |x| <= |b| && forall i {:trigger x[i]} :: 0 <= i < |x| ==> b[off + i] == x[i]
  }

  lemma AtSlice(b: seq<byte>, off: nat, x: seq<byte>)
    ensures At(b, off, x) <==> off + |x| <= |b| && b[off..off + |x|] == x
  {
    if off + |x| <= |b| {
      var s := b[off..off + |x|];
      assert forall i :: 0 <= i < |x| ==> s[i] == b[off + i];
    }
  }

  lemma AtSplit(b: seq<byte>, off: nat, x: seq<byte>, y: seq<byte>)
    ensures At(b, off, x + y) <==> At(b, off, x) && At(b, off + |x|, y)
  {
    var z := x + y;
    if At(b, off, z) {
      forall i | 0 <= i < |x| ensures b[off + i] == x[i] { assert z[i] == x[i]; }
      forall i | 0 <= i < |y| ensures b[off + |x| + i] == y[i] { assert z[|x| + i] == y[i]; }
    }
    if At(b, off, x) && At(b, off + |x|, y) {
      forall i | 0 <= i < |z| ensures b[off + i] == z[i] {
        if i >= |x| { assert z[i] == y[i - |x|]; }
      }
    }
  }

  /** The two buffers have the same first `e` bytes. */
  ghost predicate Agree(b: seq<byte>, b': seq<byte>, e: nat) {
    e <= |b| && e <= |b'| && forall i {:trigger b[i]} {:trigger b'[i]} :: 0 <= i < e ==> b[i] == b'[i]
  }

  lemma AtU64BE(b: seq<byte>, off: nat, v: nat)
    requires v < U64 && off + 8 <= |b|
    ensures At(b, off, U64BE(v)) <==> ReadU64BE(b, off) == v
  {
    Widths();
    BigEndianReads(v, 8);
    BigEndianWrites(b[off..off + 8]);
    AtSlice(b, off, U64BE(v));
  }

  /** Hashes laid end to end. */
  function Concat(hs: seq<Hash>): (b: seq<byte>)
    ensures |b| == 32 * |hs|
  {
    if hs == [] then [] else hs[0] + Concat(hs[1..])
  }

  /** The `n` hashes that start at `off`. */
  function HashesAt(b: seq<byte>, off: nat, n: nat): (hs: seq<Hash>)
    requires off + 32 * n <= |b|
    ensures |hs| == n
    ensures forall i :: 0 <= i < n ==> hs[i] == b[off + 32 * i..off + 32 * i + 32]
    decreases n
  {
    if n == 0 then [] else [b[off..off + 32]] + HashesAt(b, off + 32, n - 1)
  }

  lemma {:induction false} HashesRead(b: seq<byte>, off: nat, hs: seq<Hash>)
    requires off + 32 * |hs| <= |b|
    ensures At(b, off, Concat(hs)) <==> HashesAt(b, off, |hs|) == hs
    decreases |hs|
  {
    if hs != [] {
      AtSplit(b, off, hs[0], Concat(hs[1..]));
      AtSlice(b, off, hs[0]);
      HashesRead(b, off + 32, hs[1..]);
      assert hs == [hs[0]] + hs[1..];
      var got := HashesAt(b, off, |hs|);
      assert got[1..] == HashesAt(b, off + 32, |hs| - 1);
    }
  }

  /** Concatenation of a list of byte strings. */
  function Flatten(parts: seq<seq<byte>>): seq<byte> {
    if parts == [] then [] else parts[0] + Flatten(parts[1..])
  }

  lemma {:induction false} FlattenAppend(a: seq<seq<byte>>, b: seq<seq<byte>>)
    ensures Flatten(a + b) == Flatten(a) + Flatten(b)
  {
    if a == [] {
      assert a + b == b;
    } else {
      assert (a + b)[1..] == a[1..] + b;
      FlattenAppend(a[1..], b);
    }
  }

  lemma FlattenSnoc(a: seq<seq<byte>>, x: seq<byte>)
    ensures Flatten(a + [x]) == Flatten(a) + x
  {
    FlattenAppend(a, [x]);
    assert Flatten([x]) == x + Flatten([]);
  }
}
