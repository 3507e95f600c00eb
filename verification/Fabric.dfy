/**
 Many bridges, one per cluster, around one fabric: no object loops. The fabric may deliver anything,
 in any order, to any bridge, any number of times, and a cluster may pull anything at any time.
 */
module Fabrics {
  import opened Bytes
  import opened Registries
  import R = Registries
  import opened Bridges
  import B = Bridges
  import C = ObjectCaches
  import BridgeRuns
  import BlockFrames

  /** A cluster: the objects it made, and those it knows of through its bridge. */
  datatype Cluster = Cluster(made: set<Hash>, told: set<Hash>)

  /** A bridge and a hash it sent up. */
  datatype Up = Up(bridge: nat, hash: Hash)

  datatype Fabric = Fabric(nodes: seq<Node>, clusters: seq<Cluster>, sent: seq<Up>)

  /** A cluster makes an object, a bridge takes a step, or a cluster pulls a block from its bridge and takes
      what it got, or rejects it. */
  datatype Event = Make(c: nat, h: Hash) | At(c: nat, e: B.Event) | Pull(c: nat, h: Hash, now: int, takes: bool)

  /** The roots a cluster finds in a frame its bridge serves as a block. */
  function ServedRoots(obj: seq<byte>): set<Hash> {
    match BlockFrames.ToTeranode(obj)
    case None => {}
    case Some(x) =>
      match BlockFrames.FromTeranode(x)
      case None => {}
      case Some(b) => set r | r in b.roots
  }

  /** The roots a pull of `h` shows the cluster: those of the copy the bridge holds, whatever brought it. */
  function PulledRoots(n: Node, h: Hash, now: int): set<Hash> {
    match C.Held(n.b.objects, h, now)
    case None => {}
    case Some(e) => ServedRoots(e.body)
  }

  /** What an announce, successful or not, may have told the cluster. */
  function ToldBy(a: Action): set<Hash> {
    if a.Announce? then {a.hash} else {}
  }

  /** New objects are new everywhere; a cluster notifies of what it made or knows through its bridge. */
  predicate Enabled(f: Fabric, ev: Event) {
    match ev
    case Make(c, h) => c < |f.clusters| && forall k :: 0 <= k < |f.clusters| ==> h !in f.clusters[k].made
    case At(c, e) =>
      && c < |f.nodes| && c < |f.clusters|
      && (e.Notify? && |e.raw| >= 32 ==> e.raw[..32] in f.clusters[c].made + f.clusters[c].told)
    case Pull(c, _, _, _) => c < |f.nodes| && c < |f.clusters|
  }

  function Step(setups: seq<Setup>, f: Fabric, ev: Event): Fabric
    requires |setups| == |f.nodes| == |f.clusters|
  {
    if !Enabled(f, ev) then f
    else match ev
      case Make(c, h) => f.(clusters := f.clusters[c := f.clusters[c].(made := f.clusters[c].made + {h})])
      case At(c, e) =>
        var r := B.Step(setups[c], f.nodes[c], e);
        var cl := Tell(f.clusters[c], ToldBy(r.1));
        Fabric(f.nodes[c := r.0], f.clusters[c := cl], if r.1.Send? then f.sent + [Up(c, r.1.hash)] else f.sent)
      case Pull(c, h, now, takes) =>
        f.(nodes := f.nodes[c := Serve(f.nodes[c], h, now)],
           clusters := f.clusters[c := Tell(f.clusters[c], if takes then PulledRoots(f.nodes[c], h, now) else {})])
  }

  function Tell(cl: Cluster, hs: set<Hash>): Cluster {
    cl.(told := cl.told + hs)
  }

  /** A pull touches the copy it serves, and drops an expired one. */
  function Serve(n: Node, h: Hash, now: int): Node {
    n.(b := n.b.(objects := C.Get(n.b.objects, h, now)))
  }

  function Run(setups: seq<Setup>, f: Fabric, evs: seq<Event>): (r: Fabric)
    requires |setups| == |f.nodes| == |f.clusters|
    ensures |r.nodes| == |r.clusters| == |setups|
  {
    if evs == [] then f else Step(setups, Run(setups, f, evs[..|evs| - 1]), evs[|evs| - 1])
  }

  // ---- What is assumed of the world ---------------------------------------------------------------

  /** The frame's header hashes to `h`. */
  predicate HashesTo(setup: Setup, obj: seq<byte>, h: Hash) {
    |obj| >= 80 && setup.blockId(obj[..80]) == h
  }

  /** No header hashes to its own first 32 bytes. */
  ghost predicate NoFixedPoint(setup: Setup) {
    forall x: seq<byte> :: |x| == 80 ==> setup.blockId(x) != x[..32]
  }

  /** What a cluster hands out for publication: a block naming only roots it made or was told of, a
      subtree frame that begins with its root. */
  predicate BuiltHonestly(p: Pub, frame: seq<byte>, cl: Cluster) {
    if p.block then ServedRoots(frame) <= cl.made + cl.told else |frame| >= 32 && frame[..32] == p.hash
  }

  /** The roots of a frame built from a cluster's block are the roots that block names, so honesty is about
      what the cluster serves, not about how the frame is built. */
  lemma BuiltServesItsRoots(x: seq<byte>)
    requires BlockFrames.FromTeranode(x).Some? && BlockFrames.Encode(BlockFrames.FromTeranode(x).value).Some?
    ensures var b := BlockFrames.FromTeranode(x).value;
      ServedRoots(BlockFrames.Encode(b).value) == set r | r in b.roots
  {
    hide BlockFrames.FromTeranode, BlockFrames.Encode, BlockFrames.ToTeranode;
    BlockFrames.BlockIsNormalized(x);
  }

  /** A cluster takes nothing from a pulled block whose header does not hash to the id it asked for, and
      serves its own objects honestly. */
  predicate Trusted(setups: seq<Setup>, f: Fabric, ev: Event)
    requires |setups| == |f.nodes| == |f.clusters|
  {
    match ev
    case Make(_, _) => true
    case At(c, e) =>
      c < |f.nodes| && e.Finish? && f.nodes[c].pending.Some? && e.env.build.Built? ==>
        BuiltHonestly(f.nodes[c].pending.value, e.env.build.frame, f.clusters[c])
    case Pull(c, h, now, takes) =>
      c < |f.nodes| && takes && PulledRoots(f.nodes[c], h, now) != {} ==>
        HashesTo(setups[c], C.Held(f.nodes[c].b.objects, h, now).value.body, h)
  }

  /** No seen-registry forgets anything at this event. */
  ghost predicate Remembering(setups: seq<Setup>, f: Fabric, ev: Event)
    requires |setups| == |f.nodes| == |f.clusters|
  {
    ev.At? && Enabled(f, ev) ==> Remembers(f.nodes[ev.c].b.seen, SeenOps(setups[ev.c], f.nodes[ev.c], ev.e))
  }

  // ---- The invariant ----------------------------------------------------------------------------

  /** Every root in a copy that could be served as the block it is filed under is registered, or the
      cluster's own. */
  ghost predicate Covered(setup: Setup, n: Node, cl: Cluster) {
    forall h, r :: C.Stored(n.b.objects, h).Some? && CoveredBy(setup, C.Stored(n.b.objects, h).value.body, h, r) ==>
      Known(n.b.seen, r) || r in cl.made
  }

  predicate CoveredBy(setup: Setup, obj: seq<byte>, h: Hash, r: Hash) {
    HashesTo(setup, obj, h) && r in ServedRoots(obj)
  }

  /** One bridge and its cluster: what the cluster was told is registered or its own, what went up is
      both, and what is being published was made here and has not gone up. */
  ghost predicate Local(n: Node, cl: Cluster, sent: set<Hash>) {
    && B.Ok(n.b)
    && (forall h :: h in cl.told ==> Known(n.b.seen, h) || h in cl.made)
    && (forall h :: h in sent ==> h in cl.made && Known(n.b.seen, h))
    && (n.pending.Some? ==> n.pending.value.hash in cl.made && n.pending.value.hash !in sent)
  }

  /** The hashes bridge `c` sent up. */
  ghost function SentBy(sent: seq<Up>, c: nat): set<Hash> {
    set u | u in sent && u.bridge == c :: u.hash
  }

  ghost predicate Inv(setups: seq<Setup>, f: Fabric) {
    && |setups| == |f.nodes| == |f.clusters|
    && (forall c :: 0 <= c < |f.nodes| ==> Local(f.nodes[c], f.clusters[c], SentBy(f.sent, c)))
    && (forall c :: 0 <= c < |f.nodes| ==> Covered(setups[c], f.nodes[c], f.clusters[c]))
    && (forall i :: 0 <= i < |f.sent| ==> f.sent[i].bridge < |f.nodes|)
    && (forall i, j :: 0 <= i < j < |f.sent| ==> f.sent[i] != f.sent[j])
    && (forall c, k :: 0 <= c < k < |f.clusters| ==> f.clusters[c].made !! f.clusters[k].made)
  }

  /** The roots a frame is served with are the roots the delivery handler marks. */
  lemma ServedRootsAreNamed(d: Delivery, h: Hash)
    requires d.block && h in ServedRoots(d.obj)
    ensures h in d.Roots()
  {
    hide BlockFrames.ToTeranode, BlockFrames.FromTeranode, BlockFrames.SubtreeRootsOf, BlockFrames.Parts144,
      BlockFrames.Encode;
    BlockFrames.BlockIsLossless(d.obj);
    SizedWhenServed(d.obj);
    BlockFrames.SizedFrameNamesRoots(d.obj);
  }

  lemma SizedWhenServed(obj: seq<byte>)
    requires BlockFrames.ToTeranode(obj).Some?
    ensures BlockFrames.BlockSize(obj) == Some(|obj|)
  {
  }

  /** Marks a step makes in the seen-registry. */
  ghost predicate MarksKey(setup: Setup, n: Node, e: B.Event, h: Hash) {
    exists i :: 0 <= i < |SeenOps(setup, n, e)| && SeenOps(setup, n, e)[i].key == h
  }

  /** Marks come before announces: whatever a step tells the cluster, and every root of a block it
      delivers in a form that can be served, is marked in the same step. */
  lemma ToldIsMarked(setup: Setup, n: Node, e: B.Event, h: Hash)
    requires B.Ok(n.b)
    requires || h in ToldBy(B.Step(setup, n, e).1)
             || (e.Lane? && e.d.block && e.d.Id(setup).Some? && h in ServedRoots(e.d.obj))
    ensures MarksKey(setup, n, e, h)
  {
    hide B.Step, ServedRoots, RootOps, B.Ok;
    var ops := SeenOps(setup, n, e);
    if h in ToldBy(B.Step(setup, n, e).1) {
      BridgeRuns.AnnounceFacts(setup, n, e);
      assert ops[|ops| - 1].key == h;
    } else {
      ServedRootsAreNamed(e.d, h);
      var i :| 0 <= i < |e.d.Roots()| && e.d.Roots()[i] == h;
      assert ops[i].key == h;
    }
  }

  lemma KnownStays(setup: Setup, n: Node, e: B.Event, h: Hash)
    requires B.Ok(n.b) && Remembers(n.b.seen, SeenOps(setup, n, e))
    requires Known(n.b.seen, h) || MarksKey(setup, n, e, h)
    ensures Known(B.Step(setup, n, e).0.b.seen, h)
  {
    hide B.Step, SeenOps, R.Run, RemembersKey, R.Lookup, R.Ok;
    StepRegistries(setup, n, e);
    var ops := SeenOps(setup, n, e);
    assert RemembersKey(n.b.seen, ops, h);
    if Known(n.b.seen, h) {
      DirectionsPersist(n.b.seen, ops, h);
    } else {
      var i :| 0 <= i < |ops| && ops[i].key == h;
      MarkedIsKnown(n.b.seen, ops, i);
    }
  }

  /** What one bridge step may do to its own cluster's facts. */
  lemma LocalStep(setup: Setup, n: Node, e: B.Event, cl: Cluster, sent: set<Hash>)
    requires Local(n, cl, sent) && Remembers(n.b.seen, SeenOps(setup, n, e))
    requires e.Notify? && |e.raw| >= 32 ==> e.raw[..32] in cl.made + cl.told
    ensures var (n', a) := B.Step(setup, n, e);
      && Local(n', Tell(cl, ToldBy(a)), sent + if a.Send? then {a.hash} else {})
      && (a.Send? ==> a.hash in cl.made && a.hash !in sent)
  {
    hide B.Step, SeenOps, ToldBy, Known, Remembers, B.Ok, MarksKey;
    var (n', a) := B.Step(setup, n, e);
    StepOk(setup, n, e);
    forall h | Known(n.b.seen, h) ensures Known(n'.b.seen, h) { KnownStays(setup, n, e, h); }
    forall h | h in ToldBy(a) ensures Known(n'.b.seen, h) {
      ToldIsMarked(setup, n, e, h);
      KnownStays(setup, n, e, h);
    }
    if a.Send? {
      BridgeRuns.SendMarks(setup, n, e);
      SendIsKnown(n', a.hash);
    }
    PendingAfter(setup, n, e);
  }

  // ---- What the cache can serve -------------------------------------------------------------------

  /** The step files `obj` under `h`. */
  predicate Files(setup: Setup, n: Node, e: B.Event, h: Hash, obj: seq<byte>) {
    match e
    case Lane(d) => d.Id(setup) == Some(h) && obj == d.obj
    case Notify(_, _) => false
    case Finish(env) =>
      n.pending.Some? && n.pending.value.hash == h && Publishes(setup, n.pending.value, env) && obj == env.build.frame
  }

  lemma PutBody(c: C.Cache, e: C.Entry, h: Hash)
    requires C.Ok(c)
    ensures C.Ok(C.Put(c, e))
    ensures var s := C.Stored(C.Put(c, e), h);
      s.Some? ==> BridgeRuns.HoldsBody(c, h, s.value.body) || (h == e.key && s.value.body == e.body)
  {
    hide C.Stored, C.Put, C.Ok;
    C.CachePut(c, e, h);
  }

  lemma GetBody(c: C.Cache, k: Hash, now: int, h: Hash)
    requires C.Ok(c)
    ensures C.Ok(C.Get(c, k, now))
    ensures var s := C.Stored(C.Get(c, k, now), h); s.Some? ==> BridgeRuns.HoldsBody(c, h, s.value.body)
  {
    hide C.Stored, C.Get, C.Ok, C.Held;
    C.CacheGet(c, k, now, h);
    BridgeRuns.HeldIsStored(c, h, now);
  }

  /** After a step, the copy under `h` is the one that was there, or the one the step filed. */
  lemma StepBody(setup: Setup, n: Node, e: B.Event, h: Hash)
    requires C.Ok(n.b.objects)
    ensures var s := C.Stored(B.Step(setup, n, e).0.b.objects, h);
      s.Some? ==> BridgeRuns.HoldsBody(n.b.objects, h, s.value.body) || Files(setup, n, e, h, s.value.body)
  {
    hide C.Stored, C.Put, C.Get, C.Ok, C.Held, BridgeRuns.HoldsBody, R.Mark, R.Run, MarkResult, Known, R.Lookup,
      Contains;
    StoredIsHeld(n.b.objects, h);
    match e
    case Lane(d) =>
      if d.Id(setup).Some? {
        LaneBody(setup, n, d, h);
      }
    case Notify(_, _) =>
    case Finish(env) =>
      if n.pending.Some? && Publishes(setup, n.pending.value, env) {
        var p := n.pending.value;
        PutBody(n.b.objects, BridgeRuns.PublishedEntry(p, env), h);
      }
  }

  lemma StoredIsHeld(c: C.Cache, h: Hash)
    ensures C.Stored(c, h).Some? ==> BridgeRuns.HoldsBody(c, h, C.Stored(c, h).value.body)
  {
  }

  lemma LaneObjects(setup: Setup, n: Node, d: Delivery)
    requires d.Id(setup).Some?
    ensures var k, c := d.Id(setup).value, n.b.objects;
      B.Step(setup, n, Lane(d)).0.b.objects in
        {C.Put(c, C.Entry(k, d.obj, d.Class(), d.now)), C.Put(C.Get(c, k, d.now), C.Entry(k, d.obj, d.Class(), d.now))}
  {
    hide C.Put, C.Get, C.Held, R.Mark, R.Run, MarkResult, Known, R.Lookup;
  }

  lemma LaneBody(setup: Setup, n: Node, d: Delivery, h: Hash)
    requires C.Ok(n.b.objects) && d.Id(setup).Some?
    ensures var s := C.Stored(B.Step(setup, n, Lane(d)).0.b.objects, h);
      s.Some? ==>
        BridgeRuns.HoldsBody(n.b.objects, h, s.value.body) || (d.Id(setup) == Some(h) && s.value.body == d.obj)
  {
    hide C.Put, C.Get, C.Ok, C.Stored, B.Step;
    var k := d.Id(setup).value;
    var entry := C.Entry(k, d.obj, d.Class(), d.now);
    LaneObjects(setup, n, d);
    GetBody(n.b.objects, k, d.now, h);
    PutBody(n.b.objects, entry, h);
    PutBody(C.Get(n.b.objects, k, d.now), entry, h);
  }

  /** Whatever a step files, its roots are registered or the cluster's own: a delivered block's are marked
      with it, a built block's are known to the cluster, and a subtree frame is no block by its name. */
  lemma FiledIsCovered(setup: Setup, n: Node, e: B.Event, cl: Cluster, h: Hash, obj: seq<byte>, r: Hash)
    requires B.Ok(n.b) && Remembers(n.b.seen, SeenOps(setup, n, e)) && NoFixedPoint(setup)
    requires forall t :: t in cl.told ==> Known(n.b.seen, t) || t in cl.made
    requires e.Finish? && n.pending.Some? && e.env.build.Built? ==>
      BuiltHonestly(n.pending.value, e.env.build.frame, cl)
    requires Files(setup, n, e, h, obj) && CoveredBy(setup, obj, h, r)
    ensures Known(B.Step(setup, n, e).0.b.seen, r) || r in cl.made
  {
    hide B.Step, SeenOps, Known, Remembers, ServedRoots, B.Ok, MarksKey;
    var header := obj[..80];
    assert setup.blockId(header) == h;
    if header[..32] == h {
      assert false;
    } else {
      assert header[..32] == obj[..32];
      match e
      case Lane(d) =>
        ToldIsMarked(setup, n, e, r);
        KnownStays(setup, n, e, r);
      case Finish(_) =>
        if r !in cl.made {
          KnownStays(setup, n, e, r);
        }
    }
  }

  lemma CoveredStep(setup: Setup, n: Node, e: B.Event, cl: Cluster, sent: set<Hash>)
    requires Local(n, cl, sent) && Covered(setup, n, cl) && NoFixedPoint(setup)
    requires Remembers(n.b.seen, SeenOps(setup, n, e))
    requires e.Finish? && n.pending.Some? && e.env.build.Built? ==>
      BuiltHonestly(n.pending.value, e.env.build.frame, cl)
    ensures var (n', a) := B.Step(setup, n, e); Covered(setup, n', Tell(cl, ToldBy(a)))
  {
    hide B.Step, SeenOps, Known, Remembers, ServedRoots, B.Ok, MarksKey, Files, CoveredBy, BuiltHonestly, NoFixedPoint,
      C.Stored;
    var n' := B.Step(setup, n, e).0;
    BridgeRuns.OkParts(n.b);
    forall h, r | C.Stored(n'.b.objects, h).Some? && CoveredBy(setup, C.Stored(n'.b.objects, h).value.body, h, r)
      ensures Known(n'.b.seen, r) || r in cl.made
    {
      StepBody(setup, n, e, h);
      var obj := C.Stored(n'.b.objects, h).value.body;
      if Files(setup, n, e, h, obj) {
        FiledIsCovered(setup, n, e, cl, h, obj, r);
      } else if r !in cl.made {
        assert C.Stored(n.b.objects, h).Some? && CoveredBy(setup, C.Stored(n.b.objects, h).value.body, h, r);
        KnownStays(setup, n, e, r);
      }
    }
  }

  /** A pull tells the cluster nothing but what is registered or its own: nothing at all if the cluster
      rejects what it got. */
  lemma PullStep(setup: Setup, n: Node, h: Hash, now: int, takes: bool, cl: Cluster, sent: set<Hash>)
    requires Local(n, cl, sent) && Covered(setup, n, cl)
    requires takes && PulledRoots(n, h, now) != {} ==> HashesTo(setup, C.Held(n.b.objects, h, now).value.body, h)
    ensures var n', cl' := Serve(n, h, now), Tell(cl, if takes then PulledRoots(n, h, now) else {});
      Local(n', cl', sent) && Covered(setup, n', cl')
  {
    hide Known, ServedRoots, C.Stored, C.Get, C.Ok, C.Held, R.Ok;
    var n' := Serve(n, h, now);
    BridgeRuns.HeldIsStored(n.b.objects, h, now);
    C.CacheGet(n.b.objects, h, now, h);
    forall r | takes && r in PulledRoots(n, h, now) ensures Known(n.b.seen, r) || r in cl.made {
      assert CoveredBy(setup, C.Stored(n.b.objects, h).value.body, h, r);
    }
    forall k, r | C.Stored(n'.b.objects, k).Some? && CoveredBy(setup, C.Stored(n'.b.objects, k).value.body, k, r)
      ensures Known(n.b.seen, r) || r in cl.made
    {
      GetBody(n.b.objects, h, now, k);
      assert CoveredBy(setup, C.Stored(n.b.objects, k).value.body, k, r);
    }
  }

  lemma SendIsKnown(n: Node, h: Hash)
    requires h in ShardOf(n.b.seen, h).cur
    ensures Known(n.b.seen, h)
  {
  }

  /** A step leaves the pending publication alone, clears it, or takes one the registry does not know. */
  lemma PendingAfter(setup: Setup, n: Node, e: B.Event)
    ensures var n' := B.Step(setup, n, e).0;
      n'.pending.Some? ==>
        || (n'.pending == n.pending && !B.Step(setup, n, e).1.Send?)
        || (e.Notify? && |e.raw| >= 32 && n'.pending.value.hash == e.raw[..32] && !Known(n.b.seen, e.raw[..32]))
  {
    hide Known, Publish;
    BridgeRuns.LanesDoNotSend(setup, n, e);
  }

  lemma SentBySnoc(sent: seq<Up>, u: Up, c: nat)
    ensures SentBy(sent + [u], c) == SentBy(sent, c) + if u.bridge == c then {u.hash} else {}
  {
    assert forall x :: x in sent + [u] <==> x in sent || x == u;
  }

  lemma StepInv(setups: seq<Setup>, f: Fabric, ev: Event)
    requires Inv(setups, f) && Remembering(setups, f, ev) && Trusted(setups, f, ev)
    requires forall c :: 0 <= c < |setups| ==> NoFixedPoint(setups[c])
    ensures Inv(setups, Step(setups, f, ev))
  {
    hide B.Step, SeenOps, ToldBy, Remembers, NoFixedPoint, BuiltHonestly, HashesTo, PulledRoots, Local, Covered;
    if Enabled(f, ev) {
      match ev
      case Make(c, h) =>
        MakeInv(setups, f, c, h);
      case At(c, e) =>
        assert Local(f.nodes[c], f.clusters[c], SentBy(f.sent, c)) && Covered(setups[c], f.nodes[c], f.clusters[c]);
        LocalStep(setups[c], f.nodes[c], e, f.clusters[c], SentBy(f.sent, c));
        CoveredStep(setups[c], f.nodes[c], e, f.clusters[c], SentBy(f.sent, c));
        BridgeInv(setups, f, c, e);
      case Pull(c, h, now, takes) =>
        assert Local(f.nodes[c], f.clusters[c], SentBy(f.sent, c)) && Covered(setups[c], f.nodes[c], f.clusters[c]);
        PullStep(setups[c], f.nodes[c], h, now, takes, f.clusters[c], SentBy(f.sent, c));
    }
  }

  lemma MakeInv(setups: seq<Setup>, f: Fabric, c: nat, h: Hash)
    requires Inv(setups, f) && c < |f.clusters| && forall k :: 0 <= k < |f.clusters| ==> h !in f.clusters[k].made
    ensures Inv(setups, f.(clusters := f.clusters[c := f.clusters[c].(made := f.clusters[c].made + {h})]))
  {
    hide Known, B.Ok, SentBy, CoveredBy, C.Stored;
    var cl := f.clusters[c].(made := f.clusters[c].made + {h});
    assert Covered(setups[c], f.nodes[c], f.clusters[c]);
    assert Local(f.nodes[c], f.clusters[c], SentBy(f.sent, c));
    assert Covered(setups[c], f.nodes[c], cl) && Local(f.nodes[c], cl, SentBy(f.sent, c));
    hide Covered, Local;
  }

  lemma BridgeInv(setups: seq<Setup>, f: Fabric, c: nat, e: B.Event)
    requires Inv(setups, f) && c < |f.nodes| && Enabled(f, At(c, e))
    requires var (n', a) := B.Step(setups[c], f.nodes[c], e);
      && Local(n', Tell(f.clusters[c], ToldBy(a)), SentBy(f.sent, c) + if a.Send? then {a.hash} else {})
      && Covered(setups[c], n', Tell(f.clusters[c], ToldBy(a)))
      && (a.Send? ==> a.hash in f.clusters[c].made && a.hash !in SentBy(f.sent, c))
    ensures Inv(setups, Step(setups, f, At(c, e)))
  {
    hide B.Step, ToldBy, Local, Covered, SentBy;
    var (n', a) := B.Step(setups[c], f.nodes[c], e);
    var f' := Step(setups, f, At(c, e));
    forall k | 0 <= k < |f.nodes| ensures Local(f'.nodes[k], f'.clusters[k], SentBy(f'.sent, k)) {
      if a.Send? {
        SentBySnoc(f.sent, Up(c, a.hash), k);
      }
      assert Local(f.nodes[k], f.clusters[k], SentBy(f.sent, k));
      assert SentBy(f.sent, k) + {} == SentBy(f.sent, k);
    }
    if a.Send? {
      NotYetSent(f.sent, c, a.hash);
    }
  }

  lemma NotYetSent(sent: seq<Up>, c: nat, h: Hash)
    requires h !in SentBy(sent, c)
    ensures Up(c, h) !in sent
  {
    assert forall u :: u in sent && u.bridge == c ==> u.hash in SentBy(sent, c);
  }

  /** The start: bridges with consistent registries and empty caches, nothing made, told, pending or sent. */
  ghost predicate Start(f: Fabric) {
    && |f.nodes| == |f.clusters| && f.sent == []
    && (forall c :: 0 <= c < |f.nodes| ==> B.Ok(f.nodes[c].b) && f.nodes[c].pending.None?)
    && (forall c, h :: 0 <= c < |f.nodes| ==> C.Stored(f.nodes[c].b.objects, h).None?)
    && (forall c :: 0 <= c < |f.clusters| ==> f.clusters[c] == Cluster({}, {}))
  }

  /** No registry forgets anywhere in the run. */
  ghost predicate NeverForgets(setups: seq<Setup>, f: Fabric, evs: seq<Event>)
    requires |setups| == |f.nodes| == |f.clusters|
  {
    forall i :: 0 <= i < |evs| ==> Remembering(setups, Run(setups, f, evs[..i]), evs[i])
  }

  /** What is assumed of hashes, pulls and builds, throughout the run. */
  ghost predicate TrustedRun(setups: seq<Setup>, f: Fabric, evs: seq<Event>)
    requires |setups| == |f.nodes| == |f.clusters|
  {
    && (forall c :: 0 <= c < |setups| ==> NoFixedPoint(setups[c]))
    && forall i :: 0 <= i < |evs| ==> Trusted(setups, Run(setups, f, evs[..i]), evs[i])
  }

  lemma {:induction false} RunInv(setups: seq<Setup>, f: Fabric, evs: seq<Event>)
    requires |setups| == |f.nodes| == |f.clusters| && Start(f)
    requires NeverForgets(setups, f, evs) && TrustedRun(setups, f, evs)
    ensures Inv(setups, Run(setups, f, evs))
  {
    hide Step, Remembering, Trusted, Inv, NoFixedPoint;
    if evs == [] {
      StartInv(setups, f);
    } else {
      var n := |evs| - 1;
      assert forall i :: 0 <= i < n ==> evs[..n][..i] == evs[..i];
      RunInv(setups, f, evs[..n]);
      assert Remembering(setups, Run(setups, f, evs[..n]), evs[n]);
      StepInv(setups, Run(setups, f, evs[..n]), evs[n]);
    }
  }

  lemma StartInv(setups: seq<Setup>, f: Fabric)
    requires |setups| == |f.nodes| && Start(f)
    ensures Inv(setups, f)
  {
    hide B.Ok, C.Stored, CoveredBy;
  }

  /** Each bridge sent up only what its own cluster made, and no object went up twice, counting all
      bridges together. */
  predicate LoopFree(r: Fabric) {
    && (forall i :: 0 <= i < |r.sent| ==>
          r.sent[i].bridge < |r.clusters| && r.sent[i].hash in r.clusters[r.sent[i].bridge].made)
    && (forall i, j :: 0 <= i < j < |r.sent| ==> r.sent[i].hash != r.sent[j].hash)
  }

  /** Loop freedom, in every run in which no registry forgets. */
  lemma LoopFreedom(setups: seq<Setup>, f: Fabric, evs: seq<Event>)
    requires |setups| == |f.nodes| == |f.clusters| && Start(f)
    requires NeverForgets(setups, f, evs) && TrustedRun(setups, f, evs)
    ensures LoopFree(Run(setups, f, evs))
  {
    hide Run, B.Ok, Known, Covered;
    RunInv(setups, f, evs);
    var r := Run(setups, f, evs);
    forall i | 0 <= i < |r.sent|
      ensures r.sent[i].bridge < |r.clusters| && r.sent[i].hash in r.clusters[r.sent[i].bridge].made
    {
      var u := r.sent[i];
      assert u in r.sent && u.hash in SentBy(r.sent, u.bridge);
      assert Local(r.nodes[u.bridge], r.clusters[u.bridge], SentBy(r.sent, u.bridge));
    }
  }

  // ---- A hypothesis an operator can check ---------------------------------------------------------

  /** The marks bridge `c` makes in its seen-registry over a run. */
  function MarksOf(setups: seq<Setup>, f: Fabric, evs: seq<Event>, c: nat): seq<Op>
    requires |setups| == |f.nodes| == |f.clusters|
  {
    if evs == [] then []
    else
      var init, ev := evs[..|evs| - 1], evs[|evs| - 1];
      MarksOf(setups, f, init, c) + MarksAt(setups, Run(setups, f, init), ev, c)
  }

  function MarksAt(setups: seq<Setup>, f: Fabric, ev: Event, c: nat): seq<Op>
    requires |setups| == |f.nodes| == |f.clusters|
  {
    if ev.At? && ev.c == c && Enabled(f, ev) then SeenOps(setups[c], f.nodes[c], ev.e) else []
  }

  lemma {:induction false} RunMarks(setups: seq<Setup>, f: Fabric, evs: seq<Event>, c: nat)
    requires |setups| == |f.nodes| == |f.clusters| && c < |f.nodes|
    ensures Run(setups, f, evs).nodes[c].b.seen == R.Run(f.nodes[c].b.seen, MarksOf(setups, f, evs, c))
  {
    hide B.Step, SeenOps, R.Run, Enabled, ToldBy;
    if evs == [] {
      EmptyRun(f.nodes[c].b.seen);
    } else {
      var init, ev := evs[..|evs| - 1], evs[|evs| - 1];
      var m := Run(setups, f, init);
      RunMarks(setups, f, init, c);
      RunAppend(f.nodes[c].b.seen, MarksOf(setups, f, init, c), MarksAt(setups, m, ev, c));
      if ev.At? && ev.c == c && Enabled(m, ev) {
        StepRegistries(setups[c], m.nodes[c], ev.e);
      } else {
        EmptyRun(m.nodes[c].b.seen);
      }
    }
  }

  lemma {:induction false} MarksPrefix(setups: seq<Setup>, f: Fabric, evs: seq<Event>, c: nat, i: nat)
    requires |setups| == |f.nodes| == |f.clusters| && i <= |evs|
    ensures MarksOf(setups, f, evs[..i], c) <= MarksOf(setups, f, evs, c)
    decreases |evs|
  {
    hide Run, MarksAt;
    if i == |evs| {
      assert evs[..i] == evs;
    } else {
      MarksPrefix(setups, f, evs[..|evs| - 1], c, i);
      assert evs[..|evs| - 1][..i] == evs[..i];
    }
  }

  /** No shard of any seen-registry rotates twice in the run, and each starts with no old entries. */
  ghost predicate RotatesAtMostOnce(setups: seq<Setup>, f: Fabric, evs: seq<Event>)
    requires |setups| == |f.nodes| == |f.clusters|
  {
    forall c, x :: 0 <= c < |f.nodes| && 0 <= x < SHARDS ==>
      var r := f.nodes[c].b.seen;
      r.shards[x].prev == map[] && !RotatesTwice(r.shards[x], Project(MarksOf(setups, f, evs, c), x), r.ttl / 2)
  }

  lemma StepRemembers(setups: seq<Setup>, f: Fabric, evs: seq<Event>, i: nat, k: Hash)
    requires |setups| == |f.nodes| == |f.clusters| && Start(f) && RotatesAtMostOnce(setups, f, evs)
    requires i < |evs| && evs[i].At? && Enabled(Run(setups, f, evs[..i]), evs[i])
    ensures var m, c := Run(setups, f, evs[..i]), evs[i].c;
      RemembersKey(m.nodes[c].b.seen, SeenOps(setups[c], m.nodes[c], evs[i].e), k)
  {
    hide Run, SeenOps, R.Run, RemembersKey, RotatesTwice, Project, R.Ok;
    var m, c := Run(setups, f, evs[..i]), evs[i].c;
    var r := f.nodes[c].b.seen;
    var all, a := MarksOf(setups, f, evs, c), MarksOf(setups, f, evs[..i], c);
    var b := SeenOps(setups[c], m.nodes[c], evs[i].e);
    assert ShardIndex(k) < SHARDS && r.shards[ShardIndex(k)].prev == map[];
    RemembersUntilSecondRotation(r, all, k);
    MarksPrefix(setups, f, evs, c, i + 1);
    assert evs[..i + 1][..i] == evs[..i];
    assert a + b <= all;
    RemembersPrefix(r, all, |a + b|, k);
    assert all[..|a + b|] == a + b;
    RemembersSegment(r, a, b, k);
    RunMarks(setups, f, evs[..i], c);
  }

  /** Loop freedom without the hypothesis on memory: from fresh registries it holds in every run in which
      no shard has rotated for the second time. */
  lemma LoopFreedomUntilSecondRotation(setups: seq<Setup>, f: Fabric, evs: seq<Event>)
    requires |setups| == |f.nodes| == |f.clusters| && Start(f)
    requires RotatesAtMostOnce(setups, f, evs) && TrustedRun(setups, f, evs)
    ensures LoopFree(Run(setups, f, evs))
  {
    hide Run, SeenOps, RemembersKey, RotatesAtMostOnce, Start, TrustedRun, LoopFree;
    forall i | 0 <= i < |evs| ensures Remembering(setups, Run(setups, f, evs[..i]), evs[i]) {
      var m := Run(setups, f, evs[..i]);
      if evs[i].At? && Enabled(m, evs[i]) {
        var c := evs[i].c;
        forall k ensures RemembersKey(m.nodes[c].b.seen, SeenOps(setups[c], m.nodes[c], evs[i].e), k) {
          StepRemembers(setups, f, evs, i, k);
        }
      }
    }
    LoopFreedom(setups, f, evs);
  }
}
