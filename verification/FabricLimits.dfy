/**
 What the hypotheses of loop freedom are for: exactly when a foreign object can go up, and, for each
 hypothesis, a run that loops without it.
 */
module FabricLimits {
  import opened Bytes
  import opened Registries
  import R = Registries
  import C = ObjectCaches
  import opened Bridges
  import B = Bridges
  import BridgeRuns
  import opened Fabrics
  import F = Fabrics

  /** An open publishing path for a built subtree frame. */
  function Open(frame: seq<byte>): Env {
    Env(true, true, true, Built(frame), true, 0)
  }

  /** The frame of a subtree of one node. */
  function OneNode(h: Hash): seq<byte> {
    h + (U64BE(1) + h)
  }

  lemma One(setups: seq<Setup>, f: Fabric, ev: F.Event)
    requires |setups| == |f.nodes| == |f.clusters|
    ensures F.Run(setups, f, [ev]) == F.Step(setups, f, ev)
  {
    assert [ev][..0] == [];
  }

  lemma {:induction false} Then(setups: seq<Setup>, f: Fabric, a: seq<F.Event>, b: seq<F.Event>)
    requires |setups| == |f.nodes| == |f.clusters|
    ensures F.Run(setups, f, a + b) == F.Run(setups, F.Run(setups, f, a), b)
    decreases |b|
  {
    hide F.Step;
    if b == [] {
      assert a + b == a;
    } else {
      Then(setups, f, a, b[..|b| - 1]);
      assert (a + b)[..|a + b| - 1] == a + b[..|b| - 1];
    }
  }

  // ---- Forgetting -----------------------------------------------------------------------------------

  /** A notification that meets an open publishing path goes up if and only if the registry does not know
      its hash, whoever made the object. */
  lemma SentUpExactlyWhenUnknown(setup: Setup, n: Node, block: bool, h: Hash, env: Env)
    requires n.pending.None? && Publishes(setup, Pub(block, h), env)
    ensures var n1 := B.Step(setup, n, Notify(if block then BLOCK_KIND else SUBTREE_KIND, h)).0;
      B.Step(setup, n1, Finish(env)).1 == Send(h, env.build.frame, env.sendOk) <==> !Known(n.b.seen, h)
  {
    hide Known, Publishes, R.Mark;
    assert h[..32] == h;
  }

  /** One notification and its publication send up something the cluster did not make. */
  predicate SendsForeign(setups: seq<Setup>, f: Fabric, c: nat, kind: int, raw: seq<byte>, env: Env)
    requires |setups| == |f.nodes| == |f.clusters| && c < |f.nodes|
  {
    var r := F.Run(setups, f, [At(c, Notify(kind, raw)), At(c, Finish(env))]);
    |r.sent| == |f.sent| + 1 && r.sent[|f.sent|].hash !in r.clusters[c].made
  }

  lemma TwoSteps(setups: seq<Setup>, f: Fabric, e1: F.Event, e2: F.Event)
    requires |setups| == |f.nodes| == |f.clusters|
    ensures F.Run(setups, f, [e1, e2]) == F.Step(setups, F.Run(setups, f, [e1]), e2)
    ensures F.Run(setups, f, [e1]) == F.Step(setups, f, e1)
  {
    hide F.Step;
    assert [e1, e2][..1] == [e1];
    One(setups, f, e1);
  }

  lemma TellNothing(cl: Cluster)
    ensures Tell(cl, {}) == cl
  {
    assert cl.told + {} == cl.told;
  }

  lemma FirstOf(h: Hash)
    ensures var none: set<Hash> := {}; none + {h} == {h}
  {
  }

  /** A told hash that is neither registered nor the cluster's own goes up as a subtree. */
  lemma UnregisteredGoesUp(setups: seq<Setup>, f: Fabric, c: nat, h: Hash, frame: seq<byte>)
    requires |setups| == |f.nodes| == |f.clusters| && c < |f.nodes| && f.nodes[c].pending.None?
    requires h in f.clusters[c].told && !Known(f.nodes[c].b.seen, h)
    ensures var r := F.Run(setups, f, [At(c, Notify(SUBTREE_KIND, h)), At(c, Finish(Open(frame)))]);
      r.sent == f.sent + [Up(c, h)] && r.clusters == f.clusters
  {
    hide B.Step, Known, F.Run;
    var e1, e2 := At(c, Notify(SUBTREE_KIND, h)), At(c, Finish(Open(frame)));
    TwoSteps(setups, f, e1, e2);
    assert h[..32] == h;
    BridgeRuns.NotifyStep(setups[c], f.nodes[c], false, h);
    var f1 := F.Step(setups, f, e1);
    TellNothing(f.clusters[c]);
    assert f1.clusters == f.clusters;
    BridgeRuns.FinishStep(setups[c], f1.nodes[c], Open(frame));
    var f2 := F.Step(setups, f1, e2);
    assert f2.clusters == f1.clusters;
  }

  /** What two such steps send up was notified, unknown to the registry. */
  lemma SentWasUnknown(setups: seq<Setup>, f: Fabric, c: nat, kind: int, raw: seq<byte>, env: Env)
    requires |setups| == |f.nodes| == |f.clusters| && c < |f.nodes| && f.nodes[c].pending.None?
    requires SendsForeign(setups, f, c, kind, raw, env)
    ensures |raw| >= 32 && raw[..32] in f.clusters[c].told && raw[..32] !in f.clusters[c].made
    ensures !Known(f.nodes[c].b.seen, raw[..32])
  {
    hide B.Step, Known, F.Run;
    var e1, e2 := At(c, Notify(kind, raw)), At(c, Finish(env));
    TwoSteps(setups, f, e1, e2);
    var f1 := F.Step(setups, f, e1);
    QuietNotify(setups[c], f.nodes[c], kind, raw);
    SendNeedsPending(setups[c], f1.nodes[c], env);
  }

  lemma QuietNotify(setup: Setup, n: Node, kind: int, raw: seq<byte>)
    requires n.pending.None?
    ensures var (n', a) := B.Step(setup, n, Notify(kind, raw));
      && a == Quiet
      && (n'.pending.Some? ==> |raw| >= 32 && n'.pending.value.hash == raw[..32] && !Known(n.b.seen, raw[..32]))
  {
    hide Known;
  }

  lemma SendNeedsPending(setup: Setup, n: Node, env: Env)
    ensures var a := B.Step(setup, n, Finish(env)).1; a.Send? ==> n.pending.Some? && a.hash == n.pending.value.hash
    ensures !B.Step(setup, n, Finish(env)).1.Announce?
  {
    hide Publishes, R.Mark, C.Put;
  }

  /** Memory is exactly what stands between a cluster and a loop: an idle bridge can be made to send up an
      object its cluster did not make, by one notification, if and only if its registry does not know
      something the cluster was told. */
  lemma LoopsExactlyWhenForgotten(setups: seq<Setup>, f: Fabric, c: nat)
    requires |setups| == |f.nodes| == |f.clusters| && c < |f.nodes| && f.nodes[c].pending.None?
    ensures (exists kind, raw, env :: SendsForeign(setups, f, c, kind, raw, env)) <==>
      exists h :: h in f.clusters[c].told && h !in f.clusters[c].made && !Known(f.nodes[c].b.seen, h)
  {
    hide SendsForeign, Known;
    if kind, raw, env :| SendsForeign(setups, f, c, kind, raw, env) {
      SentWasUnknown(setups, f, c, kind, raw, env);
    }
    if h :| h in f.clusters[c].told && h !in f.clusters[c].made && !Known(f.nodes[c].b.seen, h) {
      UnregisteredGoesUp(setups, f, c, h, OneNode(h));
      ForeignOne(setups, f, c, h, OneNode(h));
    }
  }

  lemma ForeignOne(setups: seq<Setup>, f: Fabric, c: nat, h: Hash, frame: seq<byte>)
    requires |setups| == |f.nodes| == |f.clusters| && c < |f.nodes| && h !in f.clusters[c].made
    requires var r := F.Run(setups, f, [At(c, Notify(SUBTREE_KIND, h)), At(c, Finish(Open(frame)))]);
      r.sent == f.sent + [Up(c, h)] && r.clusters == f.clusters
    ensures SendsForeign(setups, f, c, SUBTREE_KIND, h, Open(frame))
  {
    hide F.Run;
  }

  /** A fabric of one forgetful bridge, before anything happened. */
  function Alone(objects: C.Cache): Fabric {
    Fabric([BridgeRuns.Forgetful(objects)], [Cluster({}, {})], [])
  }

  /** Three subtrees of one shard, a tick apart, then the first one's notification and publication. */
  function Forgetting(h: Hash, o1: Hash, o2: Hash, frame: seq<byte>): (evs: seq<F.Event>)
    ensures |evs| == 5
  {
    [At(0, BridgeRuns.Subtree(h, true, 0)), At(0, BridgeRuns.Subtree(o1, true, 1)),
     At(0, BridgeRuns.Subtree(o2, true, 2)), At(0, Notify(SUBTREE_KIND, h)), At(0, Finish(Open(frame)))]
  }

  /** Two marks of its shard, a tick apart, make a registry of one tick's memory forget a hash. */
  lemma AgedOut(objects: C.Cache, h: Hash, o1: Hash, o2: Hash)
    requires h !in {o1, o2} && o1 != o2 && ShardIndex(h) == ShardIndex(o1) == ShardIndex(o2)
    ensures var r := BridgeRuns.Forgetful(objects).b.seen;
      var r2 := R.Mark(R.Mark(r, Op(h, Delivered, 0)), Op(o1, Delivered, 1));
      !Known(R.Mark(r2, Op(o2, Delivered, 2)), h)
  {
    var s1 := Empty(0, 4).(cur := map[h := Delivered], adds := 1);
    assert MarkShard(Empty(0, 4), Op(h, Delivered, 0), 1) == s1;
    var s2 := Shard(map[o1 := Delivered], map[h := Delivered], 1, 4, 0, 2, 0);
    assert MarkShard(s1, Op(o1, Delivered, 1), 1) == s2;
    assert MarkShard(s2, Op(o2, Delivered, 2), 1) == Shard(map[o2 := Delivered], map[o1 := Delivered], 2, 4, 0, 3, 1);
  }

  /** What the first three events leave behind: the cluster was told `h`, the registry does not know it. */
  lemma ToldAndForgotten(setup: Setup, objects: C.Cache, h: Hash, o1: Hash, o2: Hash, frame: seq<byte>)
    requires setup.announces && h !in {o1, o2} && o1 != o2 && ShardIndex(h) == ShardIndex(o1) == ShardIndex(o2)
    ensures var r := F.Run([setup], Alone(objects), Forgetting(h, o1, o2, frame)[..3]);
      && h in r.clusters[0].told && r.clusters[0].made == {} && r.sent == []
      && r.nodes[0].pending.None? && !Known(r.nodes[0].b.seen, h)
  {
    hide B.Step, R.Mark, Known, BridgeRuns.Subtree, BridgeRuns.Forgetful, MarkResult, F.Run;
    var f, evs := Alone(objects), Forgetting(h, o1, o2, frame);
    BridgeRuns.FreshKnowsNothing(objects, h);
    assert evs[..0] == [];
    Next([setup], f, evs, 0);
    Next([setup], f, evs, 1);
    Next([setup], f, evs, 2);
    var f1, f2 := F.Run([setup], f, evs[..1]), F.Run([setup], f, evs[..2]);
    assert F.Run([setup], f, []) == f by { Nothing([setup], f); }
    BridgeRuns.SubtreeStep(setup, f.nodes[0], h, true, 0);
    BridgeRuns.SubtreeStep(setup, f1.nodes[0], o1, true, 1);
    BridgeRuns.SubtreeStep(setup, f2.nodes[0], o2, true, 2);
    LanesDoNotSend(setup, f.nodes[0], evs[0].e);
    LanesDoNotSend(setup, f1.nodes[0], evs[1].e);
    LanesDoNotSend(setup, f2.nodes[0], evs[2].e);
    AgedOut(objects, h, o1, o2);
  }

  lemma LanesDoNotSend(setup: Setup, n: Node, e: B.Event)
    requires exists h, ok, now :: e == BridgeRuns.Subtree(h, ok, now)
    ensures e.Lane? && !B.Step(setup, n, e).1.Send?
  {
    BridgeRuns.LanesDoNotSend(setup, n, e);
  }

  lemma Nothing(setups: seq<Setup>, f: Fabric)
    requires |setups| == |f.nodes| == |f.clusters|
    ensures F.Run(setups, f, []) == f
  {
  }

  lemma Next(setups: seq<Setup>, f: Fabric, evs: seq<F.Event>, i: nat)
    requires |setups| == |f.nodes| == |f.clusters| && i < |evs|
    ensures F.Run(setups, f, evs[..i + 1]) == F.Step(setups, F.Run(setups, f, evs[..i]), evs[i])
  {
    assert evs[..i + 1][..i] == evs[..i];
  }

  /** Without memory: from a start, with every other hypothesis met, a bridge that forgets what it delivered
      sends up an object that its cluster did not make. */
  lemma ForgettingLoops(setup: Setup, objects: C.Cache, h: Hash, o1: Hash, o2: Hash, frame: seq<byte>)
    requires setup.announces && NoFixedPoint(setup) && C.Ok(objects) && forall k :: C.Stored(objects, k).None?
    requires h !in {o1, o2} && o1 != o2 && ShardIndex(h) == ShardIndex(o1) == ShardIndex(o2)
    requires |frame| >= 32 && frame[..32] == h
    ensures var f, evs := Alone(objects), Forgetting(h, o1, o2, frame);
      && Start(f) && TrustedRun([setup], f, evs)
      && F.Run([setup], f, evs).sent == [Up(0, h)] && F.Run([setup], f, evs).clusters[0].made == {}
  {
    hide F.Run, Known, C.Ok, C.Stored, NoFixedPoint, BridgeRuns.Subtree;
    var f, evs := Alone(objects), Forgetting(h, o1, o2, frame);
    ToldAndForgotten(setup, objects, h, o1, o2, frame);
    var f3 := F.Run([setup], f, evs[..3]);
    UnregisteredGoesUp([setup], f3, 0, h, frame);
    Then([setup], f, evs[..3], evs[3..]);
    assert evs[..3] + evs[3..] == evs;
    assert evs[3..] == [At(0, Notify(SUBTREE_KIND, h)), At(0, Finish(Open(frame)))];
    assert Start(f) by { AloneStarts(objects); }
    ForgettingIsTrusted(setup, f, f3, h, o1, o2, frame);
  }

  lemma AloneStarts(objects: C.Cache)
    requires C.Ok(objects) && forall k :: C.Stored(objects, k).None?
    ensures Start(Alone(objects))
  {
    hide C.Ok, C.Stored;
  }

  /** The run keeps the other hypotheses: it pulls nothing and builds the frame of the subtree it notifies. */
  lemma ForgettingIsTrusted(setup: Setup, f: Fabric, f3: Fabric, h: Hash, o1: Hash, o2: Hash, frame: seq<byte>)
    requires |f.nodes| == 1 == |f.clusters| && NoFixedPoint(setup) && |frame| >= 32 && frame[..32] == h
    requires f3 == F.Run([setup], f, Forgetting(h, o1, o2, frame)[..3])
    requires f3.nodes[0].pending.None? && h in f3.clusters[0].told && !Known(f3.nodes[0].b.seen, h)
    ensures TrustedRun([setup], f, Forgetting(h, o1, o2, frame))
  {
    hide F.Run, F.Step, Known, NoFixedPoint, Trusted, TrustedRun, BridgeRuns.Subtree;
    var evs := Forgetting(h, o1, o2, frame);
    Next([setup], f, evs, 3);
    var f4 := F.Run([setup], f, evs[..4]);
    NotifiedForeign(setup, f3, h);
    HonestIsTrusted(setup, f4, h, frame);
    SubtreeIsLane(h, 0);
    SubtreeIsLane(o1, 1);
    SubtreeIsLane(o2, 2);
    OnlyLastBuilds(setup, f, evs);
  }

  lemma SubtreeIsLane(h: Hash, now: int)
    ensures BridgeRuns.Subtree(h, true, now).Lane?
  {
  }

  /** A run in which only the last event can build anything is trusted if that event is. */
  lemma OnlyLastBuilds(setup: Setup, f: Fabric, evs: seq<F.Event>)
    requires |f.nodes| == 1 == |f.clusters| && NoFixedPoint(setup) && evs != []
    requires forall i :: 0 <= i < |evs| - 1 ==> evs[i].At? && !evs[i].e.Finish?
    requires Trusted([setup], F.Run([setup], f, evs[..|evs| - 1]), evs[|evs| - 1])
    ensures TrustedRun([setup], f, evs)
  {
    hide F.Run, NoFixedPoint, Trusted;
    forall i | 0 <= i < |evs| ensures Trusted([setup], F.Run([setup], f, evs[..i]), evs[i]) {
      if i < |evs| - 1 {
        NoBuildIsTrusted([setup], F.Run([setup], f, evs[..i]), evs[i]);
      }
    }
  }

  lemma NotifiedForeign(setup: Setup, f: Fabric, h: Hash)
    requires |f.nodes| == 1 == |f.clusters| && f.nodes[0].pending.None?
    requires h in f.clusters[0].told && !Known(f.nodes[0].b.seen, h)
    ensures F.Step([setup], f, At(0, Notify(SUBTREE_KIND, h))).nodes[0].pending == Some(Pub(false, h))
  {
    hide B.Step, Known;
    assert h[..32] == h;
    BridgeRuns.NotifyStep(setup, f.nodes[0], false, h);
  }

  lemma NoBuildIsTrusted(setups: seq<Setup>, f: Fabric, ev: F.Event)
    requires |setups| == |f.nodes| == |f.clusters| && ev.At? && !ev.e.Finish?
    ensures Trusted(setups, f, ev)
  {
  }

  lemma HonestIsTrusted(setup: Setup, f: Fabric, h: Hash, frame: seq<byte>)
    requires |f.nodes| == 1 == |f.clusters| && f.nodes[0].pending == Some(Pub(false, h))
    requires |frame| >= 32 && frame[..32] == h
    ensures Trusted([setup], f, At(0, Finish(Open(frame))))
  {
  }

  // ---- Pulls ------------------------------------------------------------------------------------------

  /** A pull that shows the cluster a root that is neither registered nor its own makes the root go up. */
  lemma UncoveredGoesUp(setups: seq<Setup>, f: Fabric, c: nat, h: Hash, now: int, root: Hash, frame: seq<byte>)
    requires |setups| == |f.nodes| == |f.clusters| && c < |f.nodes| && f.nodes[c].pending.None?
    requires root in PulledRoots(f.nodes[c], h, now) && !Known(f.nodes[c].b.seen, root)
    ensures var evs := [Pull(c, h, now, true), At(c, Notify(SUBTREE_KIND, root)), At(c, Finish(Open(frame)))];
      F.Run(setups, f, evs).sent == f.sent + [Up(c, root)]
  {
    hide F.Run, Known, PulledRoots;
    var a, b := [Pull(c, h, now, true)], [At(c, Notify(SUBTREE_KIND, root)), At(c, Finish(Open(frame)))];
    One(setups, f, a[0]);
    Then(setups, f, a, b);
    assert a + b == [Pull(c, h, now, true), At(c, Notify(SUBTREE_KIND, root)), At(c, Finish(Open(frame)))];
    UnregisteredGoesUp(setups, F.Run(setups, f, a), c, root, frame);
  }

  /** One bridge that has seen nothing yet, with a cache that keeps what fits. */
  ghost predicate Newborn(setup: Setup, f: Fabric) {
    && Start(f) && |f.nodes| == 1 && setup.announces
    && (forall h :: !Known(f.nodes[0].b.seen, h) && !Known(f.nodes[0].b.announced, h))
    && forall x :: 0 <= x < SHARDS ==> f.nodes[0].b.objects[x].ttl >= 0
  }

  /** What the delivery of a new object leaves: told, and held if it fits. */
  lemma FirstDelivery(setup: Setup, n: Node, d: Delivery, h: Hash)
    requires B.Ok(n.b) && setup.announces && d.Id(setup) == Some(h) && h !in d.Roots()
    requires !Known(n.b.announced, h) && !Known(n.b.seen, h) && C.Stored(n.b.objects, h).None?
    ensures var (n', a) := B.Step(setup, n, Lane(d));
      && a == Announce(h, d.announceOk) && n'.pending == n.pending && B.Ok(n'.b)
      && C.Stored(n'.b.objects, h) ==
           (if |d.obj| <= n.b.objects[ShardIndex(h)].maxBytes then Some(C.Entry(h, d.obj, d.Class(), d.now)) else None)
      && n'.b.objects[ShardIndex(h)].maxBytes == n.b.objects[ShardIndex(h)].maxBytes
      && n'.b.objects[ShardIndex(h)].ttl == n.b.objects[ShardIndex(h)].ttl
  {
    hide B.Ok, C.Put, C.Stored, R.Lookup, RemembersKey, SeenOps;
    StepOk(setup, n, Lane(d));
    BridgeRuns.GateIsExact(setup, n, d, h);
    BridgeRuns.OkParts(n.b);
    NewIsPut(setup, n, d, h);
    C.CachePut(n.b.objects, C.Entry(h, d.obj, d.Class(), d.now), h);
    PutKeepsSizes(n.b.objects, C.Entry(h, d.obj, d.Class(), d.now));
  }

  lemma PutKeepsSizes(c: C.Cache, e: C.Entry)
    ensures var x := ShardIndex(e.key); C.Put(c, e)[x].maxBytes == c[x].maxBytes && C.Put(c, e)[x].ttl == c[x].ttl
  {
  }

  lemma NewIsPut(setup: Setup, n: Node, d: Delivery, h: Hash)
    requires d.Id(setup) == Some(h) && !Known(n.b.seen, h)
    ensures var n' := B.Step(setup, n, Lane(d)).0;
      n'.pending == n.pending && n'.b.objects == C.Put(n.b.objects, C.Entry(h, d.obj, d.Class(), d.now))
  {
    hide R.Mark, R.Run, MarkResult, C.Put, C.Get, C.Held;
  }

  /** A delivery marks nothing but its hash and its roots. */
  lemma OthersStayUnknown(setup: Setup, n: Node, e: B.Event, h: Hash)
    requires B.Ok(n.b) && !Known(n.b.seen, h)
    requires forall i :: 0 <= i < |SeenOps(setup, n, e)| ==> SeenOps(setup, n, e)[i].key != h
    ensures !Known(B.Step(setup, n, e).0.b.seen, h)
  {
    hide B.Step, SeenOps, R.Run, R.Lookup, R.Ok;
    StepRegistries(setup, n, e);
    OthersDoNotMark(n.b.seen, SeenOps(setup, n, e), h);
  }

  lemma HeldRoots(n: Node, h: Hash, e: C.Entry, now: int)
    requires C.Stored(n.b.objects, h) == Some(e) && now - e.stored <= n.b.objects[ShardIndex(h)].ttl
    ensures PulledRoots(n, h, now) == ServedRoots(e.body)
  {
    hide ServedRoots;
  }

  /** Without the check on pulled headers, or with a header that hashes to its own first 32 bytes: a frame
      that arrives as a subtree and can be served as a block lets a cluster learn, and its bridge send up,
      a root that nobody registered. */
  lemma UncheckedPullLoops(setup: Setup, f: Fabric, obj: seq<byte>, h: Hash, root: Hash, frame: seq<byte>)
    requires Newborn(setup, f) && |obj| >= 40 && obj[..32] == h && root in ServedRoots(obj) && root != h
    requires |obj| <= f.nodes[0].b.objects[ShardIndex(h)].maxBytes
    ensures var a := [At(0, Lane(Delivery(false, obj, true, 0)))];
      var b := [Pull(0, h, 0, true), At(0, Notify(SUBTREE_KIND, root)), At(0, Finish(Open(frame)))];
      && F.Run([setup], f, a).clusters == [Cluster({}, {h})]
      && F.Run([setup], f, a + b).sent == [Up(0, root)]
  {
    hide F.Run, ServedRoots, PulledRoots, Known, C.Stored, B.Ok, B.Step;
    var d := Delivery(false, obj, true, 0);
    var a, b := [At(0, Lane(d))], [Pull(0, h, 0, true), At(0, Notify(SUBTREE_KIND, root)), At(0, Finish(Open(frame)))];
    One([setup], f, a[0]);
    FirstDelivery(setup, f.nodes[0], d, h);
    OthersStayUnknown(setup, f.nodes[0], Lane(d), root);
    var f1 := F.Run([setup], f, a);
    FirstOf(h);
    assert f1.clusters == [Cluster({}, {h})];
    HeldRoots(f1.nodes[0], h, C.Entry(h, obj, d.Class(), 0), 0);
    UncoveredGoesUp([setup], f1, 0, h, 0, root, frame);
    Then([setup], f, a, b);
  }

  /** A block made here and notified, then delivered in a form the cache cannot keep, then published: the
      copy the bridge ends up serving is the published one. */
  lemma PublishedIsServed(setup: Setup, f: Fabric, d: Delivery, h: Hash, env: Env, root: Hash)
    requires Newborn(setup, f) && d.block && d.Id(setup) == Some(h) && d.announceOk && h !in d.Roots()
    requires root != h && root !in d.Roots() && |d.obj| > f.nodes[0].b.objects[ShardIndex(h)].maxBytes
    requires Publishes(setup, Pub(true, h), env) && |env.build.frame| <= f.nodes[0].b.objects[ShardIndex(h)].maxBytes
    ensures var evs := [Make(0, h), At(0, Notify(BLOCK_KIND, h)), At(0, Lane(d)), At(0, Finish(env))];
      var r := F.Run([setup], f, evs);
      && r.sent == [Up(0, h)] && r.clusters == [Cluster({h}, {h})] && r.nodes[0].pending.None?
      && PulledRoots(r.nodes[0], h, env.now) == ServedRoots(env.build.frame) && !Known(r.nodes[0].b.seen, root)
  {
    hide F.Run, ServedRoots, Known, C.Stored, B.Ok, B.Step, Publishes, F.Step, C.Put, PulledRoots, R.Mark;
    var n := f.nodes[0];
    var a, b := [Make(0, h), At(0, Notify(BLOCK_KIND, h))], [At(0, Lane(d)), At(0, Finish(env))];
    Then([setup], f, a, b);
    assert a + b == [Make(0, h), At(0, Notify(BLOCK_KIND, h)), At(0, Lane(d)), At(0, Finish(env))];
    TwoSteps([setup], f, a[0], a[1]);
    var f2 := F.Run([setup], f, a);
    NotifiedOwn(setup, f, h);
    TwoSteps([setup], f2, b[0], b[1]);
    var n2 := n.(pending := Some(Pub(true, h)));
    FirstDelivery(setup, n2, d, h);
    OthersStayUnknown(setup, n2, Lane(d), root);
    var n3 := B.Step(setup, n2, Lane(d)).0;
    BridgeRuns.FinishStep(setup, n3, env);
    OthersStayUnknown(setup, n3, Finish(env), root);
    var n4 := B.Step(setup, n3, Finish(env)).0;
    assert env.build.Built? by { PublishesBuilt(setup, Pub(true, h), env); }
    PublishedIsHeld(n3, n4, Pub(true, h), env);
    LastTwo(setup, f2, d, h, env);
  }

  lemma PublishesBuilt(setup: Setup, p: Pub, env: Env)
    requires Publishes(setup, p, env)
    ensures env.build.Built?
  {
  }

  lemma NotifiedOwn(setup: Setup, f: Fabric, h: Hash)
    requires Newborn(setup, f)
    ensures F.Step([setup], F.Step([setup], f, Make(0, h)), At(0, Notify(BLOCK_KIND, h))) ==
      Fabric([f.nodes[0].(pending := Some(Pub(true, h)))], [Cluster({h}, {})], [])
  {
    hide B.Step, Known, B.Ok, C.Stored;
    BridgeRuns.NotifyStep(setup, f.nodes[0], true, h);
    assert h[..32] == h;
    FirstOf(h);
    TellNothing(Cluster({h}, {}));
    var f1 := F.Step([setup], f, Make(0, h));
    assert f1.clusters == [Cluster({h}, {})];
    var f2 := F.Step([setup], f1, At(0, Notify(BLOCK_KIND, h)));
    assert f2.clusters == [Cluster({h}, {})] && f2.nodes == [f.nodes[0].(pending := Some(Pub(true, h)))];
  }

  lemma LastTwo(setup: Setup, f: Fabric, d: Delivery, h: Hash, env: Env)
    requires |f.nodes| == 1 == |f.clusters| && f.clusters[0] == Cluster({h}, {}) && f.sent == []
    requires B.Step(setup, f.nodes[0], Lane(d)).1 == Announce(h, true)
    requires var n := B.Step(setup, f.nodes[0], Lane(d)).0;
      B.Step(setup, n, Finish(env)).1.Send? && B.Step(setup, n, Finish(env)).1.hash == h
    ensures var r := F.Step([setup], F.Step([setup], f, At(0, Lane(d))), At(0, Finish(env)));
      && r.nodes == [B.Step(setup, B.Step(setup, f.nodes[0], Lane(d)).0, Finish(env)).0]
      && r.clusters == [Cluster({h}, {h})] && r.sent == [Up(0, h)]
  {
    hide B.Step;
    FirstOf(h);
    TellNothing(Cluster({h}, {h}));
    var f1 := F.Step([setup], f, At(0, Lane(d)));
    assert f1.clusters == [Cluster({h}, {h})] && f1.nodes[0] == B.Step(setup, f.nodes[0], Lane(d)).0;
    var r := F.Step([setup], f1, At(0, Finish(env)));
    assert r.clusters == [Cluster({h}, {h})];
  }

  lemma PublishedIsHeld(n: Node, n': Node, p: Pub, env: Env)
    requires B.Ok(n.b) && C.Stored(n.b.objects, p.hash).None? && env.build.Built?
    requires |env.build.frame| <= n.b.objects[ShardIndex(p.hash)].maxBytes && n.b.objects[ShardIndex(p.hash)].ttl >= 0
    requires n'.b.objects == C.Put(n.b.objects, BridgeRuns.PublishedEntry(p, env))
    ensures PulledRoots(n', p.hash, env.now) == ServedRoots(env.build.frame)
  {
    hide ServedRoots, C.Stored, C.Put, C.Ok, PulledRoots;
    var e := BridgeRuns.PublishedEntry(p, env);
    C.CachePut(n.b.objects, e, p.hash);
    PutKeepsSizes(n.b.objects, e);
    HeldRoots(n', p.hash, e, env.now);
  }

  /** Without honest builds: a cluster that serves, for a block of its own, a body naming a root it never
      made nor was told of gets that root back from its own bridge, and the bridge sends it up. The
      header check does not help: the body's header may well hash to the block's id. */
  lemma ForeignBuildLoops(setup: Setup, f: Fabric, d: Delivery, h: Hash, env: Env, root: Hash, frame: seq<byte>)
    requires Newborn(setup, f) && d.block && d.Id(setup) == Some(h) && d.announceOk && h !in d.Roots()
    requires root != h && root !in d.Roots() && |d.obj| > f.nodes[0].b.objects[ShardIndex(h)].maxBytes
    requires Publishes(setup, Pub(true, h), env) && |env.build.frame| <= f.nodes[0].b.objects[ShardIndex(h)].maxBytes
    requires root in ServedRoots(env.build.frame)
    ensures var a := [Make(0, h), At(0, Notify(BLOCK_KIND, h)), At(0, Lane(d)), At(0, Finish(env))];
      var b := [Pull(0, h, env.now, true), At(0, Notify(SUBTREE_KIND, root)), At(0, Finish(Open(frame)))];
      && F.Run([setup], f, a).clusters == [Cluster({h}, {h})]
      && F.Run([setup], f, a + b).sent == [Up(0, h), Up(0, root)]
  {
    hide F.Run, ServedRoots, PulledRoots, Known, Newborn, Publishes;
    var a := [Make(0, h), At(0, Notify(BLOCK_KIND, h)), At(0, Lane(d)), At(0, Finish(env))];
    var b := [Pull(0, h, env.now, true), At(0, Notify(SUBTREE_KIND, root)), At(0, Finish(Open(frame)))];
    assert |f.nodes| == 1 == |f.clusters| by { OneBridge(setup, f); }
    PublishedIsServed(setup, f, d, h, env, root);
    Then([setup], f, a, b);
    UncoveredGoesUp([setup], F.Run([setup], f, a), 0, h, env.now, root, frame);
  }

  lemma OneBridge(setup: Setup, f: Fabric)
    requires Newborn(setup, f)
    ensures |f.nodes| == 1 == |f.clusters|
  {
  }
}
