/** BRC-143 subtree push frames: root[32] | node count u64 BE | nodes (encode/encode.go). */
module SubtreeFrames {
  import opened Bytes

  const HEADER_SIZE: nat := 40

  /** The size a frame declares; the codec's own rule. */
  function SubtreeSize(b: seq<byte>): Option<nat> {
    if |b| < HEADER_SIZE then None else Some(HEADER_SIZE + 32 * ReadU64BE(b, 32))
  }

  /** The frame for a root and its nodes; an empty node list is refused. */
  function Frame(root: Hash, nodes: seq<Hash>): Option<seq<byte>> {
    if nodes == [] then None
    else
      var out := root + (U64BE(|nodes|) + Concat(nodes));
      if SubtreeSize(out) == Some(|out|) then Some(out) else None
  }

  method Encode(root: Hash, nodes: seq<Hash>) returns (r: Option<seq<byte>>)
    ensures r == Frame(root, nodes)
  {
    if |nodes| == 0 {
      return None;
    }
    var out: seq<byte> := root + U64BE(|nodes|);
    for i := 0 to |nodes|
      invariant out + Concat(nodes[i..]) == root + (U64BE(|nodes|) + Concat(nodes))
    {
      assert nodes[i..][1..] == nodes[i + 1..];
      out := out + nodes[i];
    }
    assert out == root + (U64BE(|nodes|) + Concat(nodes));
    r := if SubtreeSize(out) == Some(|out|) then Some(out) else None;
  }

  /** What the retrieval plane serves for a frame: the node hashes alone. */
  function Served(frame: seq<byte>): seq<byte>
    requires |frame| >= HEADER_SIZE
  {
    frame[HEADER_SIZE..]
  }

  /** What the reverse path builds from a served body and the announced hash. */
  function Rebuilt(hash: Hash, body: seq<byte>): Option<seq<byte>> {
    if |body| == 0 || |body| % 32 != 0 then None else Frame(hash, HashesAt(body, 0, |body| / 32))
  }

  method BuildSubtree(hash: Hash, body: seq<byte>) returns (r: Option<seq<byte>>)
    ensures r == Rebuilt(hash, body)
  {
    if |body| == 0 || |body| % 32 != 0 {
      return None;
    }
    var nodes: seq<Hash> := [];
    var i := 0;
    while i + 32 <= |body|
      invariant 0 <= i <= |body| && i % 32 == 0
      invariant |nodes| == i / 32 && forall k :: 0 <= k < |nodes| ==> nodes[k] == body[32 * k..32 * k + 32]
    {
      nodes := nodes + [body[i..i + 32]];
      i := i + 32;
    }
    assert nodes == HashesAt(body, 0, |body| / 32);
    r := Encode(hash, nodes);
  }

  /** A frame is its header and its nodes: it parses back to what it was built from. */
  lemma FrameParses(root: Hash, nodes: seq<Hash>)
    ensures Frame(root, nodes).Some? <==> nodes != [] && |nodes| < U64
    ensures Frame(root, nodes).Some? ==>
      var f := Frame(root, nodes).value;
      |f| == HEADER_SIZE + 32 * |nodes| && SubtreeSize(f) == Some(|f|) && f[..32] == root && Served(f) == Concat(nodes)
  {
    hide Concat, U64BE, ReadU64BE;
    var out := root + (U64BE(|nodes|) + Concat(nodes));
    assert out[..32] == root && out[32..40] == U64BE(|nodes|) && out[40..] == Concat(nodes);
    AtSlice(out, 32, U64BE(|nodes|));
    if |nodes| < U64 {
      AtU64BE(out, 32, |nodes|);
    }
  }

  /** A served body is rebuilt exactly when it is a whole number of hashes, and not none. */
  lemma RebuildAccepts(hash: Hash, body: seq<byte>)
    requires |body| < U64
    ensures Rebuilt(hash, body).Some? <==> |body| > 0 && |body| % 32 == 0
  {
    if |body| > 0 && |body| % 32 == 0 {
      FrameParses(hash, HashesAt(body, 0, |body| / 32));
    }
  }

  /** Serving a frame and rebuilding it from what was served loses nothing, for every well-sized
      frame with at least one node. */
  lemma SubtreeIsLossless(f: seq<byte>)
    requires SubtreeSize(f) == Some(|f|) && |f| > HEADER_SIZE
    ensures Rebuilt(f[..32], Served(f)) == Some(f)
  {
    hide Concat, HashesAt, FromBE, ToBE, ReadU64BE, U64BE;
    var n := ReadU64BE(f, 32);
    var body := Served(f);
    var nodes := HashesAt(body, 0, n);
    HashesRead(body, 0, nodes);
    AtSlice(body, 0, Concat(nodes));
    assert body == Concat(nodes);
    AtU64BE(f, 32, n);
    AtSlice(f, 32, U64BE(n));
    assert f == f[..32] + (f[32..40] + f[40..]);
  }
}
