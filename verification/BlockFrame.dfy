/**
 Blocks in their two serializations (tnwire/block.go, encode/encode.go):

   BRC-144:  header[80] | txCount | size | subtreeCount | roots | coinbase | height | bumpLen | bump
   Teranode: the same fields in the same order

 BRC-144 writes the five counts as eight big-endian bytes, Teranode as CompactSize integers.
 */
module BlockFrames {
  import opened Bytes
  import VarInts
  import Transactions

  const PREFIX_SIZE: nat := 104

  predicate IsZero(h: Hash) {
    forall k :: 0 <= k < 32 ==> h[k] == 0
  }

  predicate NoneZero(roots: seq<Hash>) {
    forall i :: 0 <= i < |roots| ==> !IsZero(roots[i])
  }

  datatype Block = Block(header: seq<byte>, txCount: u64, size: u64, roots: seq<Hash>,
                         coinbase: seq<byte>, height: u64, bump: seq<byte>)

  /** What `Encode` checks before it builds, and what every parsed block satisfies except the last clause. */
  ghost predicate WellFormed(b: Block) {
    && |b.header| == 80 && |b.roots| < U64 && |b.bump| < U64
    && Transactions.TxSize(b.coinbase) == Some(|b.coinbase|)
  }

  // ---- BRC-144 -------------------------------------------------------------

  function Head144(b: Block): seq<byte> {
    b.header + (U64BE(b.txCount) + (U64BE(b.size) + U64BE(|b.roots|)))
  }

  function Tail144(b: Block): seq<byte> {
    U64BE(b.height) + (U64BE(|b.bump|) + b.bump)
  }

  function Layout144(b: Block): seq<byte> {
    Head144(b) + (Concat(b.roots) + (b.coinbase + Tail144(b)))
  }

  /** The layout itself: the header, three counts of eight bytes each in this order, the roots, the coinbase,
      the height, the length of the BUMP and the BUMP. */
  lemma FrameLayout(b: Block)
    requires |b.header| == 80
    ensures var f, n, c := Layout144(b), 104 + 32 * |b.roots|, |b.coinbase|;
      && |f| == n + c + 16 + |b.bump|
      && f[..80] == b.header && f[80..88] == U64BE(b.txCount) && f[88..96] == U64BE(b.size)
      && f[96..104] == U64BE(|b.roots|) && f[104..n] == Concat(b.roots) && f[n..n + c] == b.coinbase
      && f[n + c..n + c + 8] == U64BE(b.height) && f[n + c + 8..n + c + 16] == U64BE(|b.bump|)
      && f[n + c + 16..] == b.bump
  {
    hide U64BE, Concat;
    var f, n := Layout144(b), 104 + 32 * |b.roots|;
    assert f[..104] == Head144(b) && f[104..] == Concat(b.roots) + (b.coinbase + Tail144(b));
    assert f[104..n] == Concat(b.roots) && f[n..] == b.coinbase + Tail144(b);
    assert f[n + |b.coinbase|..] == Tail144(b);
  }

  /** Where the coinbase of a frame starts; None when the roots overrun the frame. */
  function CoinbaseAt(obj: seq<byte>): (r: Option<nat>)
    ensures r.Some? ==> |obj| >= PREFIX_SIZE && r.value <= |obj| && r.value == PREFIX_SIZE + 32 * ReadU64BE(obj, 96)
  {
    if |obj| < PREFIX_SIZE then None
    else
      var off := PREFIX_SIZE + 32 * ReadU64BE(obj, 96);
      if off > |obj| then None else Some(off)
  }

  /** Where the height of a frame starts: past the in-band coinbase. */
  function HeightAt(obj: seq<byte>): (r: Option<nat>)
    ensures r.Some? ==> CoinbaseAt(obj).Some? && CoinbaseAt(obj).value <= r.value <= |obj|
  {
    match CoinbaseAt(obj)
    case None => None
    case Some(off) =>
      match Transactions.TxSize(obj[off..])
      case None => None
      case Some(n) => Some(off + n)
  }

  /** The size a frame declares; the codec's own rule. */
  function BlockSize(obj: seq<byte>): Option<nat> {
    match HeightAt(obj)
    case None => None
    case Some(off) => if off + 16 > |obj| then None else Some(off + 16 + ReadU64BE(obj, off + 8))
  }

  /** The parts of a frame that is exactly as long as it declares. */
  function Parts144(obj: seq<byte>): Block
    requires BlockSize(obj) == Some(|obj|)
  {
    var cb, h := CoinbaseAt(obj).value, HeightAt(obj).value;
    Block(obj[..80], ReadU64BE(obj, 80), ReadU64BE(obj, 88), HashesAt(obj, PREFIX_SIZE, ReadU64BE(obj, 96)),
          obj[cb..h], ReadU64BE(obj, h), obj[h + 16..])
  }

  /** The BRC-144 frame of a block, or None where the encoder refuses it. */
  function Encode(b: Block): Option<seq<byte>> {
    if |b.header| != 80 || |b.coinbase| == 0 || Transactions.TxSize(b.coinbase) != Some(|b.coinbase|)
       || !NoneZero(b.roots) then None
    else
      var out := Layout144(b);
      if BlockSize(out) == Some(|out|) then Some(out) else None
  }

  function CoinbaseOf(obj: seq<byte>): Option<seq<byte>> {
    match HeightAt(obj)
    case None => None
    case Some(h) => Some(obj[CoinbaseAt(obj).value..h])
  }

  function SubtreeRootsOf(obj: seq<byte>): Option<seq<Hash>> {
    if |obj| < PREFIX_SIZE then None
    else
      var count := ReadU64BE(obj, 96);
      if count > |obj| / 32 || PREFIX_SIZE + 32 * count > |obj| then None
      else Some(HashesAt(obj, PREFIX_SIZE, count))
  }

  // ---- Teranode ------------------------------------------------------------

  function HeadTn(b: Block): seq<byte>
    requires |b.roots| < U64
  {
    b.header + (VarInts.Encode(b.txCount) + (VarInts.Encode(b.size) + VarInts.Encode(|b.roots|)))
  }

  function TailTn(b: Block): seq<byte>
    requires |b.bump| < U64
  {
    VarInts.Encode(b.height) + (VarInts.Encode(|b.bump|) + b.bump)
  }

  function LayoutTn(b: Block): seq<byte>
    requires |b.roots| < U64 && |b.bump| < U64
  {
    HeadTn(b) + (Concat(b.roots) + (b.coinbase + TailTn(b)))
  }

  /** The layout itself: as in the frame, with every count and length a CompactSize integer. */
  lemma TeranodeLayout(b: Block)
    requires |b.roots| < U64 && |b.bump| < U64
    ensures LayoutTn(b) ==
      b.header + VarInts.Encode(b.txCount) + VarInts.Encode(b.size) + VarInts.Encode(|b.roots|) + Concat(b.roots)
      + b.coinbase + VarInts.Encode(b.height) + VarInts.Encode(|b.bump|) + b.bump
  {
    hide VarInts.Encode, Concat;
  }

  /** The Teranode form of a frame, as the retrieval plane serves it. */
  function ToTeranode(obj: seq<byte>): Option<seq<byte>> {
    if BlockSize(obj) != Some(|obj|) then None
    else
      var b := Parts144(obj);
      if NoneZero(b.roots) then Some(LayoutTn(b)) else None
  }

  /** The integers and offsets the parser meets on its way through a Teranode block. */
  datatype Head = Head(txCount: VarInts.VarInt, size: VarInts.VarInt, count: VarInts.VarInt) {
    function End(): nat { 80 + txCount.width + size.width + count.width }
  }
  datatype Tail = Tail(height: VarInts.VarInt, bump: Option<VarInts.VarInt>, end: nat)

  function ReadHead(b: seq<byte>): (r: Option<Head>)
    ensures r.Some? ==> r.value.End() <= |b| && r.value.count.value < U64
    ensures r.Some? ==> r.value.txCount.value < U64 && r.value.size.value < U64
  {
    if |b| < 92 then None
    else match VarInts.ReadAt(b, 80)
    case None => None
    case Some(t) =>
      match VarInts.ReadAt(b, 80 + t.width)
      case None => None
      case Some(s) =>
        match VarInts.ReadAt(b, 80 + t.width + s.width)
        case None => None
        case Some(c) => Some(Head(t, s, c))
  }

  /** The block's end: a height, then optionally a BUMP. A body may stop right after the height. */
  function ReadTail(b: seq<byte>, off: nat): (r: Option<Tail>)
    ensures r.Some? ==> off < r.value.end <= |b| && r.value.height.value < U64
    ensures r.Some? && r.value.bump.Some? ==> r.value.bump.value.value < U64
    ensures r.Some? && r.value.bump.Some? ==>
      r.value.end == off + r.value.height.width + r.value.bump.value.width + r.value.bump.value.value
  {
    match VarInts.ReadAt(b, off)
    case None => None
    case Some(h) =>
      if off + h.width >= |b| then Some(Tail(h, None, |b|))
      else match VarInts.ReadAt(b, off + h.width)
      case None => None
      case Some(n) =>
        var end := off + h.width + n.width + n.value;
        if end > |b| then None else Some(Tail(h, Some(n), end))
  }

  datatype Shape = Shape(head: Head, coinbase: nat, height: nat, tail: Tail)

  function ShapeOf(b: seq<byte>): (r: Option<Shape>)
    ensures r.Some? ==> ReadHead(b) == Some(r.value.head) && Fits(b, r.value)
  {
    ShapeFrom(b, ReadHead(b))
  }

  function ShapeFrom(b: seq<byte>, head: Option<Head>): (r: Option<Shape>)
    ensures r.Some? ==> head == Some(r.value.head) && Fits(b, r.value)
  {
    match head
    case None => None
    case Some(h) => BodyShape(b, h, h.End() + 32 * h.count.value)
  }

  /** The shape from the coinbase on. */
  function BodyShape(b: seq<byte>, head: Head, cb: nat): (r: Option<Shape>)
    ensures r.Some? ==> r.value.head == head && r.value.coinbase == cb && cb <= r.value.height <= |b|
    ensures r.Some? ==> Transactions.TxSize(b[cb..]) == Some(r.value.height - cb)
    ensures r.Some? ==> ReadTail(b, r.value.height) == Some(r.value.tail)
  {
    if cb > |b| then None
    else match Transactions.TxSize(b[cb..])
      case None => None
      case Some(n) =>
        match ReadTail(b, cb + n)
        case None => None
        case Some(tail) => Some(Shape(head, cb, cb + n, tail))
  }

  /** Roots, coinbase and tail lie where the shape says. */
  predicate Fits(b: seq<byte>, s: Shape) {
    && s.coinbase == s.head.End() + 32 * s.head.count.value && s.coinbase <= s.height <= |b|
    && Transactions.TxSize(b[s.coinbase..]) == Some(s.height - s.coinbase) && ReadTail(b, s.height) == Some(s.tail)
  }

  function BlockOf(b: seq<byte>, s: Shape): Block
    requires ShapeOf(b) == Some(s)
  {
    var bump := if s.tail.bump.None? then [] else b[s.tail.end - s.tail.bump.value.value..s.tail.end];
    Block(b[..80], s.head.txCount.value, s.head.size.value, HashesAt(b, s.head.End(), s.head.count.value),
          b[s.coinbase..s.height], s.tail.height.value, bump)
  }

  function FromTeranode(b: seq<byte>): Option<Block> {
    match ShapeOf(b)
    case None => None
    case Some(s) => Some(BlockOf(b, s))
  }

  predicate Shortest(v: VarInts.VarInt) {
    v.value < U64 && v.width == |VarInts.Encode(v.value)|
  }

  /** A Teranode block written the one way the bridge writes it: shortest integers, a BUMP field,
      nothing after it. */
  predicate Canonical(b: seq<byte>, s: Shape) {
    && Shortest(s.head.txCount) && Shortest(s.head.size) && Shortest(s.head.count)
    && Shortest(s.tail.height) && s.tail.bump.Some? && Shortest(s.tail.bump.value) && s.tail.end == |b|
  }

  // ---- The in-band coinbase delimits itself ----------------------------------

  lemma CoinbaseReads(b: seq<byte>, off: nat, cb: seq<byte>)
    requires At(b, off, cb) && Transactions.TxSize(cb) == Some(|cb|)
    ensures Transactions.TxSize(b[off..]) == Some(|cb|) && b[off..off + |cb|] == cb
  {
    AtSlice(b, off, cb);
    assert Agree(cb, b[off..], |cb|);
    Transactions.TxSizeIsPrefixStable(cb, b[off..]);
  }

  lemma CoinbaseIsWhole(b: seq<byte>, off: nat, end: nat)
    requires off <= end <= |b| && Transactions.TxSize(b[off..]) == Some(end - off)
    ensures Transactions.TxSize(b[off..end]) == Some(end - off)
  {
    assert Agree(b[off..], b[off..end], end - off);
    Transactions.TxSizeIsPrefixStable(b[off..], b[off..end]);
  }

  // ---- BRC-144: layout and parse are inverse ---------------------------------

  lemma Head144Reads(obj: seq<byte>, b: Block)
    requires |obj| >= PREFIX_SIZE && |b.header| == 80 && |b.roots| < U64
    ensures At(obj, 0, Head144(b)) <==>
      && obj[..80] == b.header && ReadU64BE(obj, 80) == b.txCount && ReadU64BE(obj, 88) == b.size
      && ReadU64BE(obj, 96) == |b.roots|
  {
    hide U64BE, ReadU64BE;
    AtSplit(obj, 0, b.header, U64BE(b.txCount) + (U64BE(b.size) + U64BE(|b.roots|)));
    AtSlice(obj, 0, b.header);
    AtSplit(obj, 80, U64BE(b.txCount), U64BE(b.size) + U64BE(|b.roots|));
    AtSplit(obj, 88, U64BE(b.size), U64BE(|b.roots|));
    AtU64BE(obj, 80, b.txCount);
    AtU64BE(obj, 88, b.size);
    AtU64BE(obj, 96, |b.roots|);
  }

  lemma Tail144Reads(obj: seq<byte>, off: nat, b: Block)
    requires off + 16 + |b.bump| == |obj| && |b.bump| < U64
    ensures At(obj, off, Tail144(b)) <==>
      && ReadU64BE(obj, off) == b.height && ReadU64BE(obj, off + 8) == |b.bump| && obj[off + 16..] == b.bump
  {
    hide U64BE, ReadU64BE;
    AtSplit(obj, off, U64BE(b.height), U64BE(|b.bump|) + b.bump);
    AtSplit(obj, off + 8, U64BE(|b.bump|), b.bump);
    AtU64BE(obj, off, b.height);
    AtU64BE(obj, off + 8, |b.bump|);
    AtSlice(obj, off + 16, b.bump);
  }

  lemma Layout144Splits(obj: seq<byte>, b: Block)
    requires |b.header| == 80
    ensures |Layout144(b)| == PREFIX_SIZE + 32 * |b.roots| + |b.coinbase| + 16 + |b.bump|
    ensures At(obj, 0, Layout144(b)) <==>
      && At(obj, 0, Head144(b)) && At(obj, PREFIX_SIZE, Concat(b.roots))
      && At(obj, PREFIX_SIZE + 32 * |b.roots|, b.coinbase)
      && At(obj, PREFIX_SIZE + 32 * |b.roots| + |b.coinbase|, Tail144(b))
  {
    hide U64BE, Concat, At;
    AtSplit(obj, 0, Head144(b), Concat(b.roots) + (b.coinbase + Tail144(b)));
    AtSplit(obj, PREFIX_SIZE, Concat(b.roots), b.coinbase + Tail144(b));
    AtSplit(obj, PREFIX_SIZE + 32 * |b.roots|, b.coinbase, Tail144(b));
  }

  /** A laid-out block parses back to itself. */
  lemma ParsesLayout144(b: Block)
    requires WellFormed(b)
    ensures var obj := Layout144(b);
      BlockSize(obj) == Some(|obj|) && Parts144(obj) == b
  {
    hide Layout144, Head144, Tail144, Concat, At, ReadU64BE, Transactions.TxSize;
    var obj := Layout144(b);
    AtSlice(obj, 0, obj);
    Layout144Splits(obj, b);
    Head144Reads(obj, b);
    var cb := PREFIX_SIZE + 32 * |b.roots|;
    CoinbaseReads(obj, cb, b.coinbase);
    Tail144Reads(obj, cb + |b.coinbase|, b);
    HashesRead(obj, PREFIX_SIZE, b.roots);
  }

  /** A frame as long as it declares is the layout of its parts. */
  lemma IsLayout144(obj: seq<byte>)
    requires BlockSize(obj) == Some(|obj|)
    ensures WellFormed(Parts144(obj)) && Layout144(Parts144(obj)) == obj
  {
    hide Layout144, Head144, Tail144, Concat, At, ReadU64BE, Transactions.TxSize;
    var b := Parts144(obj);
    var cb, h := CoinbaseAt(obj).value, HeightAt(obj).value;
    CoinbaseIsWhole(obj, cb, h);
    Head144Reads(obj, b);
    HashesRead(obj, PREFIX_SIZE, b.roots);
    AtSlice(obj, cb, b.coinbase);
    Tail144Reads(obj, h, b);
    Layout144Splits(obj, b);
    AtSlice(obj, 0, Layout144(b));
  }

  // ---- Teranode: layout and parse --------------------------------------------

  lemma HeadTnReads(x: seq<byte>, b: Block)
    requires WellFormed(b) && At(x, 0, HeadTn(b)) && |x| >= 92
    ensures ReadHead(x) == Some(Head(Shorten(b.txCount), Shorten(b.size), Shorten(|b.roots|))) && x[..80] == b.header
  {
    hide VarInts.ReadAt, VarInts.Encode;
    var t, s, n := VarInts.Encode(b.txCount), VarInts.Encode(b.size), VarInts.Encode(|b.roots|);
    AtSplit(x, 0, b.header, t + (s + n));
    AtSlice(x, 0, b.header);
    AtSplit(x, 80, t, s + n);
    AtSplit(x, 80 + |t|, s, n);
    VarInts.ReadsEncoded(x, 80, b.txCount);
    VarInts.ReadsEncoded(x, 80 + |t|, b.size);
    VarInts.ReadsEncoded(x, 80 + |t| + |s|, |b.roots|);
  }

  lemma TailTnReads(x: seq<byte>, off: nat, b: Block)
    requires WellFormed(b) && At(x, off, TailTn(b)) && off + |TailTn(b)| == |x|
    ensures ReadTail(x, off) == Some(Tail(Shorten(b.height), Some(Shorten(|b.bump|)), |x|))
    ensures x[|x| - |b.bump|..] == b.bump
  {
    hide VarInts.ReadAt, VarInts.Encode;
    var h, n := VarInts.Encode(b.height), VarInts.Encode(|b.bump|);
    AtSplit(x, off, h, n + b.bump);
    AtSplit(x, off + |h|, n, b.bump);
    AtSlice(x, off + |h| + |n|, b.bump);
    VarInts.ReadsEncoded(x, off, b.height);
    VarInts.ReadsEncoded(x, off + |h|, |b.bump|);
  }

  lemma LayoutTnSplits(x: seq<byte>, b: Block)
    requires |b.header| == 80 && |b.roots| < U64 && |b.bump| < U64
    ensures |LayoutTn(b)| == |HeadTn(b)| + 32 * |b.roots| + |b.coinbase| + |TailTn(b)|
    ensures At(x, 0, LayoutTn(b)) <==>
      && At(x, 0, HeadTn(b)) && At(x, |HeadTn(b)|, Concat(b.roots))
      && At(x, |HeadTn(b)| + 32 * |b.roots|, b.coinbase)
      && At(x, |HeadTn(b)| + 32 * |b.roots| + |b.coinbase|, TailTn(b))
  {
    hide HeadTn, TailTn, Concat, At;
    var o := |HeadTn(b)|;
    AtSplit(x, 0, HeadTn(b), Concat(b.roots) + (b.coinbase + TailTn(b)));
    AtSplit(x, o, Concat(b.roots), b.coinbase + TailTn(b));
    AtSplit(x, o + 32 * |b.roots|, b.coinbase, TailTn(b));
  }

  function Shorten(v: u64): (r: VarInts.VarInt)
    ensures r.value == v
  {
    VarInts.VarInt(v, |VarInts.Encode(v)|)
  }

  /** The shape the parser finds in what the bridge writes. */
  function ShapeTn(b: Block): Shape
    requires |b.roots| < U64 && |b.bump| < U64
  {
    var cb := |HeadTn(b)| + 32 * |b.roots|;
    Shape(Head(Shorten(b.txCount), Shorten(b.size), Shorten(|b.roots|)), cb, cb + |b.coinbase|,
          Tail(Shorten(b.height), Some(Shorten(|b.bump|)), |LayoutTn(b)|))
  }

  lemma FindsShape(b: Block)
    requires WellFormed(b)
    ensures var x, s := LayoutTn(b), ShapeTn(b);
      && ShapeOf(x) == Some(s) && s.head.End() == |HeadTn(b)|
      && x[..80] == b.header && HashesAt(x, s.head.End(), |b.roots|) == b.roots
      && x[s.coinbase..s.height] == b.coinbase && x[|x| - |b.bump|..] == b.bump
  {
    hide LayoutTn, HeadTn, TailTn, Concat, At, HashesAt, Shorten, ReadHead, ReadTail, Transactions.TxSize;
    var x := LayoutTn(b);
    AtSlice(x, 0, x);
    LayoutTnSplits(x, b);
    HeadTnSize(b);
    var cb := |HeadTn(b)| + 32 * |b.roots|;
    HeadTnReads(x, b);
    HashesRead(x, |HeadTn(b)|, b.roots);
    CoinbaseReads(x, cb, b.coinbase);
    TailTnReads(x, cb + |b.coinbase|, b);
  }

  /** Whatever the bridge serves, a Teranode parser reads back: the same block, canonically written. */
  lemma ParsesLayoutTn(b: Block)
    requires WellFormed(b)
    ensures var x := LayoutTn(b);
      FromTeranode(x) == Some(b) && Canonical(x, ShapeOf(x).value)
  {
    hide LayoutTn, HeadTn, ShapeOf, HashesAt, Shorten, Transactions.TxSize;
    FindsShape(b);
    var got := BlockOf(LayoutTn(b), ShapeTn(b));
    assert got.bump == b.bump && got.coinbase == b.coinbase && got.roots == b.roots && got.header == b.header;
    ShortensAreShortest(b);
  }

  /** A block up to its coinbase, with some tail after it, is read as that block with that tail. */
  lemma BodyParses(x: seq<byte>, b: Block, tail: Tail)
    requires WellFormed(b) && |x| >= 92 && At(x, 0, HeadTn(b)) && At(x, |HeadTn(b)|, Concat(b.roots))
    requires At(x, |HeadTn(b)| + 32 * |b.roots|, b.coinbase)
    requires ReadTail(x, |HeadTn(b)| + 32 * |b.roots| + |b.coinbase|) == Some(tail) && tail.height.value == b.height
    ensures FromTeranode(x).Some?
    ensures FromTeranode(x).value ==
      b.(bump := if tail.bump.None? then [] else x[tail.end - tail.bump.value.value..tail.end])
  {
    hide HeadTn, TailTn, Concat, At, HashesAt, Shorten, ReadHead, ReadTail, Transactions.TxSize;
    HeadTnSize(b);
    var cb := |HeadTn(b)| + 32 * |b.roots|;
    HeadTnReads(x, b);
    HashesRead(x, |HeadTn(b)|, b.roots);
    CoinbaseReads(x, cb, b.coinbase);
  }

  /** A body that stops after the height. */
  function WithoutBump(b: Block): seq<byte>
    requires |b.roots| < U64
  {
    HeadTn(b) + (Concat(b.roots) + (b.coinbase + VarInts.Encode(b.height)))
  }

  /** What the parser puts up with: bytes after the BUMP, and a body that stops after the height, which is
      read as a block without a BUMP. */
  lemma ParserIsTolerant(b: Block, more: seq<byte>)
    requires WellFormed(b)
    ensures FromTeranode(LayoutTn(b) + more) == Some(b)
    ensures FromTeranode(WithoutBump(b)) == Some(b.(bump := []))
  {
    TrailingIsIgnored(b, more);
    BumpIsOptional(b);
  }

  lemma TrailingIsIgnored(b: Block, more: seq<byte>)
    requires WellFormed(b)
    ensures FromTeranode(LayoutTn(b) + more) == Some(b)
  {
    hide LayoutTn, HeadTn, Concat, VarInts.Encode, VarInts.ReadAt, FromTeranode, At;
    var x := LayoutTn(b) + more;
    assert x[0..|LayoutTn(b)|] == LayoutTn(b);
    AtSlice(x, 0, LayoutTn(b));
    LayoutTnSplits(x, b);
    HeadTnSize(b);
    var off := |HeadTn(b)| + 32 * |b.roots| + |b.coinbase|;
    var h, n := VarInts.Encode(b.height), VarInts.Encode(|b.bump|);
    AtSplit(x, off, h, n + b.bump);
    AtSplit(x, off + |h|, n, b.bump);
    AtSlice(x, off + |h| + |n|, b.bump);
    AtSlice(x, off + |h|, n);
    VarInts.ReadsEncoded(x, off, b.height);
    VarInts.ReadsEncoded(x, off + |h|, |b.bump|);
    EncodedIsSomething(|b.bump|);
    BodyParses(x, b, Tail(Shorten(b.height), Some(Shorten(|b.bump|)), off + |h| + |n| + |b.bump|));
  }

  lemma EncodedIsSomething(v: nat)
    requires v < U64
    ensures |VarInts.Encode(v)| >= 1
  {
  }

  lemma BumpIsOptional(b: Block)
    requires WellFormed(b)
    ensures FromTeranode(WithoutBump(b)) == Some(b.(bump := []))
  {
    hide HeadTn, Concat, VarInts.Encode, VarInts.ReadAt, FromTeranode, At;
    var h := VarInts.Encode(b.height);
    var x := HeadTn(b) + (Concat(b.roots) + (b.coinbase + h));
    HeadTnSize(b);
    EncodedIsSomething(b.height);
    var o := |HeadTn(b)|;
    AtSlice(x, 0, x);
    assert x[0..|x|] == x;
    AtSplit(x, 0, HeadTn(b), Concat(b.roots) + (b.coinbase + h));
    AtSplit(x, o, Concat(b.roots), b.coinbase + h);
    AtSplit(x, o + 32 * |b.roots|, b.coinbase, h);
    VarInts.ReadsEncoded(x, o + 32 * |b.roots| + |b.coinbase|, b.height);
    BodyParses(x, b, Tail(Shorten(b.height), None, |x|));
  }

  lemma ShortensAreShortest(b: Block)
    requires |b.roots| < U64 && |b.bump| < U64
    ensures Canonical(LayoutTn(b), ShapeTn(b))
  {
    hide LayoutTn, HeadTn, VarInts.Encode;
  }

  lemma HeadTnSize(b: Block)
    requires WellFormed(b)
    ensures |HeadTn(b)| == 80 + Shorten(b.txCount).width + Shorten(b.size).width + Shorten(|b.roots|).width
    ensures |b.coinbase| >= 10 && |TailTn(b)| >= 2
  {
  }

  lemma HeadIsShortest(x: seq<byte>, h: Head, b: Block)
    requires ReadHead(x) == Some(h) && Shortest(h.txCount) && Shortest(h.size) && Shortest(h.count)
    requires b.header == x[..80] && b.txCount == h.txCount.value && b.size == h.size.value && |b.roots| == h.count.value
    ensures At(x, 0, HeadTn(b)) && |HeadTn(b)| == h.End()
  {
    hide VarInts.ReadAt, VarInts.Encode, At;
    var t, s, n := VarInts.Encode(b.txCount), VarInts.Encode(b.size), VarInts.Encode(|b.roots|);
    VarInts.ShortestIsUnique(x, 80);
    VarInts.ShortestIsUnique(x, 80 + |t|);
    VarInts.ShortestIsUnique(x, 80 + |t| + |s|);
    AtSlice(x, 0, b.header);
    AtSplit(x, 80 + |t|, s, n);
    AtSplit(x, 80, t, s + n);
    AtSplit(x, 0, b.header, t + (s + n));
  }

  lemma TailIsShortest(x: seq<byte>, off: nat, t: Tail, b: Block)
    requires ReadTail(x, off) == Some(t) && Shortest(t.height) && t.bump.Some? && Shortest(t.bump.value) && t.end == |x|
    requires b.height == t.height.value && |b.bump| == t.bump.value.value && b.bump == x[|x| - |b.bump|..]
    ensures At(x, off, TailTn(b)) && off + |TailTn(b)| == |x|
  {
    hide VarInts.ReadAt, VarInts.Encode, At;
    var h, n := VarInts.Encode(b.height), VarInts.Encode(|b.bump|);
    VarInts.ShortestIsUnique(x, off);
    VarInts.ShortestIsUnique(x, off + |h|);
    AtSlice(x, off + |h| + |n|, b.bump);
    AtSplit(x, off + |h|, n, b.bump);
    AtSplit(x, off, h, n + b.bump);
  }

  /** Every parsed block is well formed. */
  lemma ParsedIsWellFormed(x: seq<byte>)
    requires FromTeranode(x).Some?
    ensures WellFormed(FromTeranode(x).value)
  {
    hide ReadHead, ReadTail, Transactions.TxSize;
    var s := ShapeOf(x).value;
    CoinbaseIsWhole(x, s.coinbase, s.height);
  }

  lemma CanonicalIsWritten(x: seq<byte>, s: Shape)
    requires ShapeOf(x) == Some(s) && Canonical(x, s)
    ensures WellFormed(BlockOf(x, s)) && LayoutTn(BlockOf(x, s)) == x
  {
    hide LayoutTn, HeadTn, TailTn, Concat, At, HashesAt, VarInts.Encode, ReadHead, ReadTail, Transactions.TxSize;
    var b := BlockOf(x, s);
    CoinbaseIsWhole(x, s.coinbase, s.height);
    HeadIsShortest(x, s.head, b);
    HashesRead(x, s.head.End(), b.roots);
    AtSlice(x, s.coinbase, b.coinbase);
    TailIsShortest(x, s.height, s.tail, b);
    LayoutTnSplits(x, b);
    AtSlice(x, 0, LayoutTn(b));
  }

  /** The canonical bodies are exactly the ones the bridge itself would write. */
  lemma CanonicalIsLayout(x: seq<byte>)
    requires FromTeranode(x).Some?
    ensures Canonical(x, ShapeOf(x).value) <==> LayoutTn(FromTeranode(x).value) == x
  {
    hide LayoutTn, ShapeOf, Canonical, BlockOf, Transactions.TxSize;
    ParsedIsWellFormed(x);
    if Canonical(x, ShapeOf(x).value) {
      CanonicalIsWritten(x, ShapeOf(x).value);
    }
    ParsesLayoutTn(FromTeranode(x).value);
  }

  // ---- The main results --------------------------------------------------------

  /** What the retrieval plane serves loses nothing: every frame it accepts comes back, byte for
      byte, when the served body is parsed and encoded again. */
  lemma BlockIsLossless(obj: seq<byte>)
    requires ToTeranode(obj).Some?
    ensures FromTeranode(ToTeranode(obj).value) == Some(Parts144(obj))
    ensures Encode(Parts144(obj)) == Some(obj)
  {
    hide LayoutTn, Layout144, Parts144, ShapeOf, BlockSize, Transactions.TxSize;
    IsLayout144(obj);
    ParsesLayoutTn(Parts144(obj));
    CoinbaseNotEmpty(Parts144(obj));
  }

  lemma CoinbaseNotEmpty(b: Block)
    requires WellFormed(b)
    ensures |b.coinbase| >= 10
  {
  }

  /** The other direction normalizes: publishing a cluster's block and serving it again gives the
      same block, and the same bytes exactly when the cluster's body was canonical. */
  lemma BlockIsNormalized(x: seq<byte>)
    requires FromTeranode(x).Some? && Encode(FromTeranode(x).value).Some?
    ensures var b := FromTeranode(x).value;
      var frame := Encode(b).value;
      && ToTeranode(frame).Some? && FromTeranode(ToTeranode(frame).value) == Some(b)
      && (ToTeranode(frame) == Some(x) <==> Canonical(x, ShapeOf(x).value))
  {
    hide LayoutTn, Layout144, Parts144, ShapeOf, BlockSize, Transactions.TxSize, Canonical;
    var b := FromTeranode(x).value;
    ParsedIsWellFormed(x);
    ParsesLayout144(b);
    ParsesLayoutTn(b);
    CanonicalIsLayout(x);
  }

  /** What the encoder accepts: an 80-byte header, a coinbase that is exactly one transaction, no zero root. */
  lemma EncodeAccepts(b: Block)
    requires |b.roots| < U64 && |b.bump| < U64
    ensures Encode(b).Some? <==>
      && |b.header| == 80 && |b.coinbase| > 0 && Transactions.TxSize(b.coinbase) == Some(|b.coinbase|)
      && NoneZero(b.roots)
    ensures Encode(b).Some? ==> Encode(b).value == Layout144(b)
    ensures NoneZero(b.roots) <==> forall i :: 0 <= i < |b.roots| ==> b.roots[i] != seq(32, _ => 0)
  {
    hide Layout144, Parts144, BlockSize, Transactions.TxSize;
    if |b.header| == 80 && Transactions.TxSize(b.coinbase) == Some(|b.coinbase|) {
      ParsesLayout144(b);
    }
    forall i | 0 <= i < |b.roots| ensures IsZero(b.roots[i]) <==> b.roots[i] == seq(32, _ => 0) {
      ZeroIsAllZero(b.roots[i]);
    }
  }

  lemma ZeroIsAllZero(h: Hash)
    ensures IsZero(h) <==> h == seq(32, _ => 0)
  {
  }

  /** What the readers of a frame refuse: a short prefix, roots that overrun it, and for the coinbase bytes
      that are no transaction. */
  lemma ReadersRefuse(obj: seq<byte>)
    ensures SubtreeRootsOf(obj).Some? <==> |obj| >= 104 && 104 + 32 * ReadU64BE(obj, 96) <= |obj|
    ensures CoinbaseOf(obj).Some? <==>
      && |obj| >= 104 && 104 + 32 * ReadU64BE(obj, 96) <= |obj|
      && Transactions.TxSize(obj[104 + 32 * ReadU64BE(obj, 96)..]).Some?
  {
    hide Transactions.TxSize;
  }

  /** The encoder refuses a parsed block only for an all-zero root. */
  lemma EncodeAcceptsParsed(x: seq<byte>)
    requires FromTeranode(x).Some?
    ensures Encode(FromTeranode(x).value).Some? <==> NoneZero(FromTeranode(x).value.roots)
  {
    hide Layout144, Parts144, ShapeOf, BlockSize, Transactions.TxSize;
    var b := FromTeranode(x).value;
    ParsedIsWellFormed(x);
    CoinbaseNotEmpty(b);
    ParsesLayout144(b);
  }

  /** The two readers of a frame report the coinbase and the roots of the block it was built from. */
  lemma ReadersAgree(b: Block)
    requires Encode(b).Some? && |b.roots| < U64 && |b.bump| < U64
    ensures CoinbaseOf(Encode(b).value) == Some(b.coinbase) && SubtreeRootsOf(Encode(b).value) == Some(b.roots)
  {
    hide Layout144, Transactions.TxSize;
    ParsesLayout144(b);
    SizedFrameNamesRoots(Encode(b).value);
  }

  /** A frame the retrieval plane can serve names its roots to the origin filter: the same roots the
      cluster will find in the served block. */
  lemma SizedFrameNamesRoots(obj: seq<byte>)
    requires BlockSize(obj) == Some(|obj|)
    ensures SubtreeRootsOf(obj) == Some(Parts144(obj).roots)
    ensures CoinbaseOf(obj) == Some(Parts144(obj).coinbase)
  {
  }

  // ---- The codecs as they run --------------------------------------------------

  lemma Associative(a: seq<byte>, b: seq<byte>, c: seq<byte>)
    ensures (a + b) + c == a + (b + c)
  {
  }

  method IsZero32(h: Hash) returns (zero: bool)
    ensures zero == IsZero(h)
  {
    for k := 0 to 32
      invariant forall i :: 0 <= i < k ==> h[i] == 0
    {
      if h[k] != 0 {
        return false;
      }
    }
    return true;
  }

  method CheckRoots(roots: seq<Hash>) returns (ok: bool)
    ensures ok == NoneZero(roots)
  {
    for i := 0 to |roots|
      invariant forall j :: 0 <= j < i ==> !IsZero(roots[j])
    {
      var zero := IsZero32(roots[i]);
      if zero {
        return false;
      }
    }
    return true;
  }

  method AppendRoots(prefix: seq<byte>, roots: seq<Hash>) returns (out: seq<byte>)
    ensures out == prefix + Concat(roots)
  {
    out := prefix;
    for i := 0 to |roots|
      invariant out + Concat(roots[i..]) == prefix + Concat(roots)
    {
      assert roots[i..][1..] == roots[i + 1..];
      out := out + roots[i];
    }
  }

  method CopyRoots(b: seq<byte>, start: nat, n: nat) returns (roots: seq<Hash>)
    requires start + 32 * n <= |b|
    ensures roots == HashesAt(b, start, n)
  {
    roots := [];
    var off := start;
    for i := 0 to n
      invariant off == start + 32 * i && |roots| == i
      invariant forall k :: 0 <= k < i ==> roots[k] == b[start + 32 * k..start + 32 * k + 32]
    {
      roots := roots + [b[off..off + 32]];
      off := off + 32;
    }
    assert roots == HashesAt(b, start, n);
  }

  method EncodeFrame(b: Block) returns (r: Option<seq<byte>>)
    ensures r == Encode(b)
  {
    hide Transactions.TxSize, BlockSize, U64BE, Concat;
    if |b.header| != 80 || |b.coinbase| == 0 || Transactions.TxSize(b.coinbase) != Some(|b.coinbase|) {
      return None;
    }
    var ok := CheckRoots(b.roots);
    if !ok {
      return None;
    }
    var out := b.header + (U64BE(b.txCount) + (U64BE(b.size) + U64BE(|b.roots|)));
    out := AppendRoots(out, b.roots);
    out := out + (b.coinbase + (U64BE(b.height) + (U64BE(|b.bump|) + b.bump)));
    Associative(Head144(b), Concat(b.roots), b.coinbase + Tail144(b));
    return if BlockSize(out) == Some(|out|) then Some(out) else None;
  }

  /** One pass over a frame. Once the size check has passed, no later field can overrun. */
  method Transcode(obj: seq<byte>) returns (r: Option<seq<byte>>)
    ensures r == ToTeranode(obj)
  {
    hide Transactions.TxSize, VarInts.Encode, ReadU64BE, HashesAt, Concat;
    if BlockSize(obj) != Some(|obj|) {
      return None;
    }
    var txCount, size, count := ReadU64BE(obj, 80), ReadU64BE(obj, 88), ReadU64BE(obj, 96);
    var off: nat := PREFIX_SIZE;
    var roots := CopyRoots(obj, off, count);
    var ok := CheckRoots(roots);
    if !ok {
      return None;
    }
    off := off + 32 * |roots|;
    var cbLen := Transactions.TxSize(obj[off..]).value;
    var coinbase := obj[off..off + cbLen];
    off := off + cbLen;
    var height := ReadU64BE(obj, off);
    off := off + 16;
    var bump := obj[off..];
    var out := obj[..80] + (VarInts.Encode(txCount) + (VarInts.Encode(size) + VarInts.Encode(count)));
    out := AppendRoots(out, roots);
    out := out + (coinbase + (VarInts.Encode(height) + (VarInts.Encode(|bump|) + bump)));
    ghost var b := Parts144(obj);
    Associative(HeadTn(b), Concat(b.roots), b.coinbase + TailTn(b));
    return Some(out);
  }

  method ParseTeranode(b: seq<byte>) returns (r: Option<Block>)
    ensures r == FromTeranode(b)
  {
    hide Transactions.TxSize, VarInts.ReadAt;
    if |b| < 92 {
      return None;
    }
    var off := 80;
    var txCount := VarInts.ReadAt(b, off);
    if txCount.None? { return None; }
    off := off + txCount.value.width;
    var size := VarInts.ReadAt(b, off);
    if size.None? { return None; }
    off := off + size.value.width;
    var count := VarInts.ReadAt(b, off);
    if count.None? { return None; }
    off := off + count.value.width;
    ghost var head := Head(txCount.value, size.value, count.value);
    assert ReadHead(b) == Some(head);
    if off + 32 * count.value.value > |b| { return None; }
    var roots := CopyRoots(b, off, count.value.value);
    off := off + 32 * count.value.value;
    var cbLen := Transactions.TxSize(b[off..]);
    if cbLen.None? { return None; }
    var coinbase := b[off..off + cbLen.value];
    off := off + cbLen.value;
    var tail := ParseTail(b, off);
    if tail.None? { return None; }
    var bump := if tail.value.bump.None? then [] else b[tail.value.end - tail.value.bump.value.value..tail.value.end];
    return Some(Block(b[..80], txCount.value.value, size.value.value, roots, coinbase, tail.value.height.value, bump));
  }

  method ParseTail(b: seq<byte>, start: nat) returns (r: Option<Tail>)
    ensures r == ReadTail(b, start)
  {
    hide VarInts.ReadAt;
    var off := start;
    var height := VarInts.ReadAt(b, off);
    if height.None? { return None; }
    off := off + height.value.width;
    if off >= |b| {
      return Some(Tail(height.value, None, |b|));
    }
    var bumpLen := VarInts.ReadAt(b, off);
    if bumpLen.None? { return None; }
    off := off + bumpLen.value.width + bumpLen.value.value;
    if off > |b| { return None; }
    return Some(Tail(height.value, bumpLen, off));
  }
}
