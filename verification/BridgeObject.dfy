/** The bridge as it runs: handlers that update one cache and two registries in sequence. */
module BridgeObjects {
  import opened Bytes
  import opened Registries
  import R = Registries
  import C = ObjectCaches
  import RegistryObjects
  import ObjectCacheObjects
  import opened Bridges
  import BlockFrames
  import SubtreeFrames

  class BridgeObject {
    const setup: Setup
    const objects: ObjectCacheObjects.CacheObject
    const seen: RegistryObjects.RegistryObject
    const announced: RegistryObjects.RegistryObject
    var verified: nat
    var mismatch: nat

    ghost predicate Valid()
      reads objects.s
    {
      && objects.Valid() && seen.Valid() && announced.Valid()
      && forall x :: x in seen.s ==> x !in announced.s
    }

    ghost function Value(): Bridge
      requires Valid()
      reads this, objects.s, seen.s, announced.s
    {
      Bridge(objects.Value(), seen.Value(), announced.Value(), verified, mismatch)
    }

    constructor (setup: Setup, objects: ObjectCacheObjects.CacheObject, seen: RegistryObjects.RegistryObject,
                 announced: RegistryObjects.RegistryObject)
      requires objects.Valid() && seen.Valid() && announced.Valid()
      requires forall x :: x in seen.s ==> x !in announced.s
      ensures Valid() && this.setup == setup
      ensures Value() == Bridge(objects.Value(), seen.Value(), announced.Value(), 0, 0)
    {
      this.setup, this.objects, this.seen, this.announced := setup, objects, seen, announced;
      verified, mismatch := 0, 0;
    }

    method MarkSeen(op: Op) returns (known: Option<Direction>)
      requires Valid()
      modifies seen.s
      ensures Valid() && Value() == old(Value()).(seen := R.Mark(old(Value()).seen, op))
      ensures known == MarkResult(old(Value()).seen, op)
    {
      hide R.Mark, MarkResult;
      assert forall i :: 0 <= i < SHARDS ==> announced.s[i] !in seen.s;
      known := seen.Mark(op);
      assert forall i :: 0 <= i < SHARDS ==> announced.s[i].Value() == old(announced.s[i].Value());
      assert announced.Value() == old(announced.Value());
    }

    method MarkAnnounced(op: Op)
      requires Valid()
      modifies announced.s
      ensures Valid() && Value() == old(Value()).(announced := R.Mark(old(Value()).announced, op))
    {
      hide R.Mark, MarkResult;
      assert forall i :: 0 <= i < SHARDS ==> seen.s[i] !in announced.s;
      var known := announced.Mark(op);
      assert forall i :: 0 <= i < SHARDS ==> seen.s[i].Value() == old(seen.s[i].Value());
      assert seen.Value() == old(seen.Value());
    }

    method PutObject(h: Hash, class_: string, obj: seq<byte>, now: int)
      requires Valid()
      modifies objects.s
      ensures Valid() && Value() == Store(old(Value()), h, class_, obj, now)
    {
      hide C.Put;
      objects.Put(h, class_, obj, now);
    }

    method GetObject(h: Hash, now: int) returns (e: Option<C.Entry>)
      requires Valid()
      modifies objects.s
      ensures Valid() && Value() == old(Value()).(objects := C.Get(old(Value()).objects, h, now))
      ensures e == C.Held(old(Value()).objects, h, now)
    {
      hide C.Get, C.Held;
      e := objects.Get(h, now);
    }

    method CheckEcho(h: Hash, obj: seq<byte>, now: int)
      requires Valid()
      modifies this, objects.s
      ensures Valid() && Value() == VerifyEcho(old(Value()), h, obj, now)
    {
      hide C.Get, C.Held, R.Lookup;
      var dir := seen.Lookup(h);
      if dir != Some(Submitted) {
        return;
      }
      var sent := GetObject(h, now);
      if sent.None? {
        return;
      }
      CountEcho(sent.value.body == obj);
    }

    method CountEcho(same: bool)
      requires Valid()
      modifies `verified, `mismatch
      ensures Valid()
      ensures Value() == old(Value())
        .(verified := old(verified) + (if same then 1 else 0), mismatch := old(mismatch) + (if same then 0 else 1))
    {
      if !same {
        mismatch := mismatch + 1;
        return;
      }
      verified := verified + 1;
    }

    /** The end of both handlers: mark, check the announce gate, announce, remember a success. */
    method Finish(h: Hash, announceOk: bool, now: int) returns (a: Action)
      requires Valid()
      modifies seen.s, announced.s
      ensures Valid() && (Value(), a) == Gate(setup, old(Value()), h, announceOk, now)
    {
      hide R.Mark, MarkResult, R.Lookup;
      var op := Op(h, Delivered, now);
      var known := MarkSeen(op);
      if known == Some(Submitted) {
        return Quiet;
      }
      var done := announced.Lookup(h);
      if done.Some? || !setup.announces {
        MarkAnnounced(op);
        return Quiet;
      }
      if !announceOk {
        return Announce(h, false);
      }
      MarkAnnounced(op);
      return Announce(h, true);
    }

    method HandleSubtree(obj: seq<byte>, announceOk: bool, now: int) returns (a: Action)
      requires Valid()
      modifies this, objects.s, seen.s, announced.s
      ensures Valid() && (Value(), a) == Deliver(setup, old(Value()), Delivery(false, obj, announceOk, now))
    {
      hide VerifyEcho, Store, Gate, R.Run;
      ghost var d := Delivery(false, obj, announceOk, now);
      if |obj| < SubtreeFrames.HEADER_SIZE {
        return Quiet;
      }
      var root: Hash := obj[..32];
      CheckEcho(root, obj, now);
      PutObject(root, "subtree", obj, now);
      NoRoots(Value());
      assert BeforeGate(setup, old(Value()), d) == Value();
      a := Finish(root, announceOk, now);
    }

    method MarkBlockRoots(roots: seq<Hash>, now: int)
      requires Valid()
      modifies seen.s, announced.s
      ensures Valid() && Value() == MarkRoots(old(Value()), RootOps(roots, now))
    {
      hide R.Mark, MarkResult;
      ghost var was := Value();
      NoRoots(was);
      for i := 0 to |roots|
        invariant Valid() && Value() == MarkRoots(was, RootOps(roots[..i], now))
      {
        assert roots[..i + 1][..i] == roots[..i];
        var op := Op(roots[i], Delivered, now);
        RootOpsSnoc(was, roots[..i], op);
        var known := MarkSeen(op);
        MarkAnnounced(op);
      }
      assert roots[..|roots|] == roots;
    }

    method HandleBlock(obj: seq<byte>, announceOk: bool, now: int) returns (a: Action)
      requires Valid()
      modifies this, objects.s, seen.s, announced.s
      ensures Valid() && (Value(), a) == Deliver(setup, old(Value()), Delivery(true, obj, announceOk, now))
    {
      hide VerifyEcho, Store, Gate, MarkRoots, BlockFrames.SubtreeRootsOf;
      ghost var d := Delivery(true, obj, announceOk, now);
      if |obj| < BlockFrames.PREFIX_SIZE {
        return Quiet;
      }
      var id := setup.blockId(obj[..80]);
      CheckEcho(id, obj, now);
      PutObject(id, "block", obj, now);
      var roots := BlockFrames.SubtreeRootsOf(obj);
      MarkBlockRoots(if roots.None? then [] else roots.value, now);
      assert BeforeGate(setup, old(Value()), d) == Value();
      a := Finish(id, announceOk, now);
    }

    /** One notification, handled to the end: filter, build, check the tag, register, store, send. */
    method Handle(kind: int, raw: seq<byte>, env: Env) returns (a: Action)
      requires Valid()
      modifies this, objects.s, seen.s
      ensures Valid()
      ensures match Filter(old(Value()), kind, raw)
        case None => Value() == old(Value()) && a == Quiet
        case Some(p) => (Value(), a) == Publish(setup, old(Value()), p, env)
    {
      hide R.Mark, MarkResult, R.Lookup, C.Put, Publishes;
      if (kind != SUBTREE_KIND && kind != BLOCK_KIND) || |raw| < 32 {
        return Quiet;
      }
      var h: Hash := raw[..32];
      var known := seen.Lookup(h);
      if known.Some? {
        return Quiet;
      }
      a := PublishFrame(Pub(kind == BLOCK_KIND, h), env);
    }

    method PublishFrame(p: Pub, env: Env) returns (a: Action)
      requires Valid()
      modifies this, objects.s, seen.s
      ensures Valid() && (Value(), a) == Publish(setup, old(Value()), p, env)
    {
      hide R.Mark, MarkResult, C.Put, Contains, BlockFrames.CoinbaseOf;
      if !env.publisher || !env.active || !env.ready || !env.build.Built? {
        return Quiet;
      }
      var frame := env.build.frame;
      if p.block && |setup.mineTag| > 0 {
        var cb := BlockFrames.CoinbaseOf(frame);
        if cb.None? || !Contains(cb.value, setup.mineTag) {
          return Quiet;
        }
      }
      var known := MarkSeen(Op(p.hash, Submitted, env.now));
      PutObject(p.hash, if p.block then "block" else "subtree", frame, env.now);
      return Send(p.hash, frame, env.sendOk);
    }
  }

  lemma NoRoots(b: Bridge)
    ensures MarkRoots(b, []) == b
  {
  }

  lemma RootOpsSnoc(b: Bridge, roots: seq<Hash>, op: Op)
    requires op.dir == Delivered
    ensures var ops, all := RootOps(roots, op.now), RootOps(roots + [op.key], op.now);
      && all == ops + [op]
      && MarkRoots(b, all).seen == R.Mark(MarkRoots(b, ops).seen, op)
      && MarkRoots(b, all).announced == R.Mark(MarkRoots(b, ops).announced, op)
  {
    hide R.Mark;
    var ops := RootOps(roots, op.now);
    assert (roots + [op.key])[..|roots|] == roots;
    assert (ops + [op])[..|ops|] == ops;
  }
}
