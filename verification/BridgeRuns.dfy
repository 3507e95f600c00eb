/** What one bridge guarantees over every run: sends, announces and echoes. */
module BridgeRuns {
  import opened Bytes
  import opened Registries
  import R = Registries
  import C = ObjectCaches
  import opened Bridges
  import B = Bridges
  import BlockFrames

  lemma Middle(setup: Setup, n: Node, es: seq<Event>, i: nat, j: nat)
    requires i <= j <= |es|
    ensures B.Run(setup, n, es[..j]) == B.Run(setup, B.Run(setup, n, es[..i]), es[i..j])
  {
    hide B.Run;
    RunSplits(setup, n, es[..i], es[i..j]);
    assert es[..i] + es[i..j] == es[..j];
  }

  lemma Next(setup: Setup, n: Node, es: seq<Event>, i: nat)
    requires i < |es|
    ensures B.Run(setup, n, es[..i + 1]) == B.Step(setup, B.Run(setup, n, es[..i]), es[i]).0
  {
    assert es[..i + 1][..i] == es[..i];
  }

  // ---- Sends ---------------------------------------------------------------------------------

  /** A pending publication passed the origin filter since the last time nothing was pending. */
  lemma {:induction false} PendingOrigin(setup: Setup, n: Node, es: seq<Event>) returns (m: nat)
    requires n.pending.None? && B.Run(setup, n, es).pending.Some?
    ensures m < |es| && es[m].Notify?
    ensures !Known(B.Run(setup, n, es[..m]).b.seen, B.Run(setup, n, es).pending.value.hash)
  {
    hide Deliver, Publish;
    var k := |es| - 1;
    var init := es[..k];
    if B.Run(setup, n, init).pending.Some? {
      m := PendingOrigin(setup, n, init);
      assert init[..m] == es[..m];
    } else {
      m := k;
    }
  }

  lemma SendMarks(setup: Setup, n: Node, e: Event)
    requires B.Step(setup, n, e).1.Send?
    ensures e.Finish? && n.pending == Some(Pub(n.pending.value.block, B.Step(setup, n, e).1.hash))
    ensures var (n', a) := B.Step(setup, n, e);
      n'.pending.None? && a.hash in ShardOf(n'.b.seen, a.hash).cur
  {
    hide R.Mark, Deliver, ShardOf;
    assert e.Finish? by { LanesDoNotSend(setup, n, e); }
    RegistryIsFlat(n.b.seen, Op(n.pending.value.hash, Submitted, e.env.now), n.pending.value.hash);
  }

  /** An idle subscriber takes up a notification exactly when the registry does not know its hash. */
  lemma NotifyStep(setup: Setup, n: Node, block: bool, h: Hash)
    requires n.pending.None?
    ensures B.Step(setup, n, Notify(if block then BLOCK_KIND else SUBTREE_KIND, h)) ==
      (n.(pending := if Known(n.b.seen, h) then None else Some(Pub(block, h))), Quiet)
  {
    hide Known;
    assert h[..32] == h;
  }

  function PublishedEntry(p: Pub, env: Env): C.Entry
    requires env.build.Built?
  {
    C.Entry(p.hash, env.build.frame, if p.block then "block" else "subtree", env.now)
  }

  /** A publication that meets an open path is marked, stored and sent. */
  lemma FinishStep(setup: Setup, n: Node, env: Env)
    requires n.pending.Some? && Publishes(setup, n.pending.value, env)
    ensures var (n', a) := B.Step(setup, n, Finish(env));
      && a == Send(n.pending.value.hash, env.build.frame, env.sendOk) && n'.pending.None?
      && n'.b.seen == R.Mark(n.b.seen, Op(n.pending.value.hash, Submitted, env.now))
      && n'.b.objects == C.Put(n.b.objects, PublishedEntry(n.pending.value, env))
  {
    hide R.Mark, C.Put, Publishes;
  }

  lemma LanesDoNotSend(setup: Setup, n: Node, e: Event)
    ensures e.Lane? ==> !B.Step(setup, n, e).1.Send?
  {
  }

  /** From a state where `h` was just marked and nothing is pending: by the time `h` is pending again
      its memory window has closed. */
  lemma PendingAgain(setup: Setup, after: Node, mid: seq<Event>, h: Hash) returns (k: nat)
    requires B.Ok(after.b) && after.pending.None? && h in ShardOf(after.b.seen, h).cur
    requires B.Run(setup, after, mid).pending.Some? && B.Run(setup, after, mid).pending.value.hash == h
    ensures k < |mid| && mid[k].Notify? && !Known(B.Run(setup, after, mid[..k]).b.seen, h)
    ensures WindowClosed(after.b.seen, SeenMarks(setup, after, mid[..k]), h)
  {
    hide B.Run, SeenMarks, WindowClosed, Known, ShardOf, B.Ok;
    k := PendingOrigin(setup, after, mid);
    RunRegistries(setup, after, mid[..k]);
    OkParts(after.b);
    ForgettingClosesWindow(after.b.seen, SeenMarks(setup, after, mid[..k]), h);
  }

  /** One send attempt per memory window: between two sends of a hash, successful or not, the
      registry forgot it, and its shard rotated twice, far enough apart, to do so. */
  lemma OneSendPerWindow(setup: Setup, n: Node, es: seq<Event>, i: nat, j: nat) returns (m: nat)
    requires B.Ok(n.b) && i < j < |es| && ActionAt(setup, n, es, i).Send? && ActionAt(setup, n, es, j).Send?
    requires ActionAt(setup, n, es, i).hash == ActionAt(setup, n, es, j).hash
    ensures i < m < j && es[m].Notify? && !Known(B.Run(setup, n, es[..m]).b.seen, ActionAt(setup, n, es, i).hash)
    ensures var after := B.Run(setup, n, es[..i + 1]);
      WindowClosed(after.b.seen, SeenMarks(setup, after, es[i + 1..m]), ActionAt(setup, n, es, i).hash)
  {
    hide B.Run, B.Step, SeenMarks, WindowClosed, Known, ShardOf, B.Ok;
    var after := B.Run(setup, n, es[..i + 1]);
    SendMarks(setup, B.Run(setup, n, es[..i]), es[i]);
    SendMarks(setup, B.Run(setup, n, es[..j]), es[j]);
    Next(setup, n, es, i);
    Middle(setup, n, es, i + 1, j);
    B.RunKeepsOk(setup, n, es[..i + 1]);
    var mid := es[i + 1..j];
    var k := PendingAgain(setup, after, mid, ActionAt(setup, n, es, i).hash);
    m := i + 1 + k;
    assert mid[..k] == es[i + 1..m];
    Middle(setup, n, es, i + 1, m);
  }

  lemma OkParts(b: Bridge)
    requires B.Ok(b)
    ensures C.Ok(b.objects) && R.Ok(b.seen) && R.Ok(b.announced)
  {
  }

  /** When a publication is sent, on the fields: a notification is pending, there is a publisher, this bridge
      holds the submitter role, it is ready, the frame was built, and a block carries the cluster's tag when
      there is one. Otherwise nothing at all is marked, stored or sent. */
  lemma SendsExactly(setup: Setup, n: Node, env: Env)
    ensures var (n', a) := B.Step(setup, n, Finish(env));
      && (a.Send? <==>
            && n.pending.Some? && env.publisher && env.active && env.ready && env.build.Built?
            && (n.pending.value.block && setup.mineTag != [] ==>
                  var cb := BlockFrames.CoinbaseOf(env.build.frame);
                  cb.Some? && exists i: nat :: OccursAt(cb.value, setup.mineTag, i)))
      && (a.Send? ==> a == Send(n.pending.value.hash, env.build.frame, env.sendOk))
      && (!a.Send? ==> a == Quiet && n'.b == n.b) && n'.pending.None?
  {
    hide R.Mark, C.Put, BlockFrames.CoinbaseOf, Contains, OccursAt;
    if env.build.Built? && BlockFrames.CoinbaseOf(env.build.frame).Some? {
      ContainsIsOccurs(BlockFrames.CoinbaseOf(env.build.frame).value, setup.mineTag);
    }
  }

  /** Over every run: whatever goes up went up from a bridge that held the role and was ready, and a standby
      or unready bridge changes nothing by publishing. */
  lemma OnlyTheSubmitterSends(setup: Setup, n: Node, es: seq<Event>, i: nat)
    requires i < |es|
    ensures ActionAt(setup, n, es, i).Send? ==> es[i].Finish? && es[i].env.active && es[i].env.ready
    ensures es[i].Finish? && !(es[i].env.active && es[i].env.ready) ==>
      ActionAt(setup, n, es, i) == Quiet && B.Run(setup, n, es[..i + 1]).b == B.Run(setup, n, es[..i]).b
  {
    hide B.Run, B.Step;
    Next(setup, n, es, i);
    LanesDoNotSend(setup, B.Run(setup, n, es[..i]), es[i]);
    NotificationsAreQuiet(setup, B.Run(setup, n, es[..i]), es[i]);
    if es[i].Finish? {
      SendsExactly(setup, B.Run(setup, n, es[..i]), es[i].env);
    }
  }

  lemma NotificationsAreQuiet(setup: Setup, n: Node, e: Event)
    ensures e.Notify? ==> B.Step(setup, n, e).1 == Quiet && B.Step(setup, n, e).0.b == n.b
  {
  }

  /** Which notifications are taken up: subtrees, of kind 1, and blocks, of kind 2, with a whole hash that the
      registry does not know; one at a time. */
  lemma NotifyIsExact(setup: Setup, n: Node, kind: int, raw: seq<byte>)
    ensures var n' := B.Step(setup, n, Notify(kind, raw)).0;
      if n.pending.Some? then n' == n
      else if (kind == 1 || kind == 2) && |raw| >= 32 && !Known(n.b.seen, raw[..32])
      then n'.pending == Some(Pub(kind == 2, raw[..32]))
      else n'.pending.None?
  {
    hide Known;
  }

  // ---- Announces -------------------------------------------------------------------------------

  /** Under which hash an object is handled: a block, of at least 104 bytes, under the hash of its 80-byte
      header, a subtree, of at least 40, under its first 32 bytes; anything shorter changes nothing. */
  lemma DeliveryIsExact(setup: Setup, n: Node, d: Delivery)
    ensures var (n', a) := B.Step(setup, n, Lane(d));
      if |d.obj| < (if d.block then 104 else 40) then n' == n && a == Quiet
      else
        var h := if d.block then setup.blockId(d.obj[..80]) else d.obj[..32];
        && Known(n'.b.seen, h) && (a.Announce? ==> a == Announce(h, d.announceOk)) && !a.Send?
        && (!setup.announces ==> a == Quiet)
  {
    hide R.Mark, BeforeGate, R.Lookup, MarkResult;
    if d.Id(setup).Some? {
      DeliveredIsSeen(setup, n, d);
    }
  }

  /** A bridge with nobody to tell records what it delivers as told, so that redelivery stays quiet. */
  lemma SinkRemembers(setup: Setup, n: Node, d: Delivery)
    requires B.Ok(n.b) && !setup.announces && d.Id(setup).Some?
    ensures var n' := B.Step(setup, n, Lane(d)).0;
      Known(n'.b.announced, d.Id(setup).value) || R.Lookup(n'.b.seen, d.Id(setup).value) == Some(Submitted)
  {
    hide R.Mark, BeforeGate, R.Lookup, AgedFor, R.Ok;
    var h := d.Id(setup).value;
    var b, op := BeforeGate(setup, n.b, d), Op(h, Delivered, d.now);
    RegistryIsFlat(b.announced, op, h);
    RegistryIsFlat(b.seen, op, h);
  }

  /** What a delivery that announced must have looked like. */
  lemma AnnounceFacts(setup: Setup, n: Node, e: Event)
    requires B.Ok(n.b) && B.Step(setup, n, e).1.Announce?
    ensures e.Lane? && e.d.Id(setup) == Some(B.Step(setup, n, e).1.hash) && setup.announces
    ensures var (n', a) := B.Step(setup, n, e);
      && a.ok == e.d.announceOk
      && !Known(BeforeGate(setup, n.b, e.d).announced, a.hash)
      && R.Lookup(n'.b.seen, a.hash) == Some(Delivered)
      && (a.ok ==> a.hash in ShardOf(n'.b.announced, a.hash).cur)
      && (!a.ok ==> !Known(n'.b.announced, a.hash))
  {
    hide R.Mark, ShardOf, BeforeGate, Publish, AgedFor;
    assert e.Lane? by { FinishDoesNotAnnounce(setup, n, e); }
    var h := e.d.Id(setup).value;
    var b := BeforeGate(setup, n.b, e.d);
    var op := Op(h, Delivered, e.d.now);
    RegistryIsFlat(b.seen, op, h);
    RegistryIsFlat(b.announced, op, h);
    var (n', a) := B.Step(setup, n, e);
    assert n'.b.seen == R.Mark(b.seen, op) && a.hash == h && MarkResult(b.seen, op) != Some(Submitted);
    match MarkResult(b.seen, op)
    case None =>
    case Some(d) => assert d.Delivered? || d.Submitted?;
  }

  lemma FinishDoesNotAnnounce(setup: Setup, n: Node, e: Event)
    ensures e.Finish? ==> !B.Step(setup, n, e).1.Announce?
  {
  }

  /** The registry the gate looks into at a delivery: the state before it, with the block's roots marked. */
  lemma GateRegistries(setup: Setup, n: Node, d: Delivery)
    requires d.Id(setup).Some?
    ensures BeforeGate(setup, n.b, d).announced == R.Run(n.b.announced, RootOps(d.Roots(), d.now))
    ensures BeforeGate(setup, n.b, d).seen == R.Run(n.b.seen, RootOps(d.Roots(), d.now))
  {
    hide R.Run, RootOps;
  }

  /** Between two successful announces of a hash the announce registry forgot it, and its shard rotated
      twice, far enough apart, to do so. */
  lemma AnnouncesAreApart(setup: Setup, n: Node, es: seq<Event>, i: nat, j: nat)
    requires B.Ok(n.b) && i < j < |es|
    requires ActionAt(setup, n, es, i) == ActionAt(setup, n, es, j) && ActionAt(setup, n, es, i).Announce?
    requires ActionAt(setup, n, es, i).ok
    ensures es[j].Lane?
    ensures var after, h := B.Run(setup, n, es[..i + 1]), ActionAt(setup, n, es, i).hash;
      var ops := AnnouncedMarks(setup, after, es[i + 1..j]) + RootOps(es[j].d.Roots(), es[j].d.now);
      Known(after.b.announced, h) && !Known(R.Run(after.b.announced, ops), h) && WindowClosed(after.b.announced, ops, h)
  {
    hide B.Run, B.Step, AnnouncedMarks, WindowClosed, Known, ShardOf, B.Ok, RootOps, R.Run, BeforeGate;
    var h := ActionAt(setup, n, es, i).hash;
    var after := B.Run(setup, n, es[..i + 1]);
    var before := B.Run(setup, n, es[..j]);
    B.RunKeepsOk(setup, n, es[..i]);
    B.RunKeepsOk(setup, n, es[..j]);
    B.RunKeepsOk(setup, n, es[..i + 1]);
    AnnounceFacts(setup, B.Run(setup, n, es[..i]), es[i]);
    AnnounceFacts(setup, before, es[j]);
    Next(setup, n, es, i);
    Middle(setup, n, es, i + 1, j);
    RunRegistries(setup, after, es[i + 1..j]);
    GateRegistries(setup, before, es[j].d);
    var marks, roots := AnnouncedMarks(setup, after, es[i + 1..j]), RootOps(es[j].d.Roots(), es[j].d.now);
    RunAppend(after.b.announced, marks, roots);
    OkParts(after.b);
    ForgettingClosesWindow(after.b.announced, marks + roots, h);
    CurrentIsKnown(after.b.announced, h);
  }

  lemma CurrentIsKnown(r: Registry, h: Hash)
    requires h in ShardOf(r, h).cur
    ensures Known(r, h)
  {
  }

  /** A hash remembered as our own is never announced: whatever a step announces is, after the step,
      remembered as delivered. */
  lemma OwnEchoIsNeverAnnounced(setup: Setup, n: Node, e: Event)
    requires B.Ok(n.b) && B.Step(setup, n, e).1.Announce?
    ensures R.Lookup(B.Step(setup, n, e).0.b.seen, B.Step(setup, n, e).1.hash) == Some(Delivered)
  {
    AnnounceFacts(setup, n, e);
  }

  /** Every delivered hash is in `seen` afterwards, whatever the announce did. */
  lemma DeliveredIsSeen(setup: Setup, n: Node, d: Delivery)
    requires d.Id(setup).Some?
    ensures Known(B.Step(setup, n, Lane(d)).0.b.seen, d.Id(setup).value)
  {
    hide R.Mark, BeforeGate, R.Lookup;
    var h := d.Id(setup).value;
    RegistryIsFlat(BeforeGate(setup, n.b, d).seen, Op(h, Delivered, d.now), h);
  }

  /** A delivery of `h`, or of a block that names it. */
  predicate Brings(setup: Setup, e: Event, h: Hash) {
    e.Lane? && (e.d.Id(setup) == Some(h) || h in e.d.Roots())
  }

  /** A publication that registers `h` as ours because the registry has forgotten that it was delivered. */
  predicate Reclaims(setup: Setup, n: Node, e: Event, h: Hash) {
    && e.Finish? && n.pending.Some? && n.pending.value.hash == h && Publishes(setup, n.pending.value, e.env)
    && MarkResult(n.b.seen, Op(h, Submitted, e.env.now)).None?
  }

  lemma NotAnnouncedByOthers(setup: Setup, n: Node, e: Event, h: Hash)
    requires !Brings(setup, e, h)
    ensures forall i :: 0 <= i < |AnnouncedOps(setup, n, e)| ==> AnnouncedOps(setup, n, e)[i].key != h
  {
    hide Remembered, BeforeGate, Publishes;
  }

  /** Events that do not bring `h` leave the announce registry's word on it, or make it forget. */
  lemma {:induction false} AnnouncedStays(setup: Setup, n: Node, es: seq<Event>, h: Hash)
    requires B.Ok(n.b) && forall i :: 0 <= i < |es| ==> !Brings(setup, es[i], h)
    ensures R.Lookup(B.Run(setup, n, es).b.announced, h) in {None, R.Lookup(n.b.announced, h)}
  {
    hide B.Step, AnnouncedOps, R.Run, R.Lookup, Brings, B.Ok;
    if es != [] {
      var k := |es| - 1;
      AnnouncedStays(setup, n, es[..k], h);
      var m := B.Run(setup, n, es[..k]);
      B.RunKeepsOk(setup, n, es[..k]);
      OkParts(m.b);
      StepRegistries(setup, m, es[k]);
      NotAnnouncedByOthers(setup, m, es[k], h);
      OthersDoNotMark(m.b.announced, AnnouncedOps(setup, m, es[k]), h);
    }
  }

  lemma SeenByOthers(setup: Setup, n: Node, e: Event, h: Hash)
    requires !Brings(setup, e, h)
    requires e.Finish? ==> n.pending.None? || n.pending.value.hash != h || !Publishes(setup, n.pending.value, e.env)
    ensures forall i :: 0 <= i < |SeenOps(setup, n, e)| ==> SeenOps(setup, n, e)[i].key != h
  {
    hide Publishes;
  }

  /** What is known as ours after an event that neither brings nor reclaims it was known so before. */
  lemma StillSubmitted(setup: Setup, n: Node, e: Event, h: Hash)
    requires B.Ok(n.b) && !Brings(setup, e, h) && !Reclaims(setup, n, e, h)
    requires R.Lookup(B.Step(setup, n, e).0.b.seen, h) == Some(Submitted)
    ensures R.Lookup(n.b.seen, h) == Some(Submitted) && RemembersKey(n.b.seen, SeenOps(setup, n, e), h)
  {
    hide B.Step, R.Run, R.Lookup, Brings, Publishes, R.Mark, AgedFor, R.Ok, RemembersKey;
    StepRegistries(setup, n, e);
    var ops := SeenOps(setup, n, e);
    if e.Finish? && n.pending.Some? && n.pending.value.hash == h && Publishes(setup, n.pending.value, e.env) {
      KnownMarkRemembers(n.b.seen, Op(h, Submitted, e.env.now));
    } else {
      SeenByOthers(setup, n, e, h);
      OthersRemember(n.b.seen, ops, h);
    }
  }

  /** If `h` came to be known as ours, some publication reclaimed it and it was not forgotten since. */
  lemma {:induction false} SubmittedWasReclaimed(setup: Setup, n: Node, es: seq<Event>, h: Hash) returns (k: nat)
    requires B.Ok(n.b) && R.Lookup(n.b.seen, h) != Some(Submitted)
    requires forall i :: 0 <= i < |es| ==> !Brings(setup, es[i], h)
    requires R.Lookup(B.Run(setup, n, es).b.seen, h) == Some(Submitted)
    ensures k < |es| && Reclaims(setup, B.Run(setup, n, es[..k]), es[k], h)
    ensures var after := B.Run(setup, n, es[..k + 1]);
      RemembersKey(after.b.seen, SeenMarks(setup, after, es[k + 1..]), h)
  {
    hide B.Step, SeenOps, R.Lookup, Reclaims, Brings, B.Ok, RemembersKey;
    var last := |es| - 1;
    var init, e := es[..last], es[last];
    var m := B.Run(setup, n, init);
    B.RunKeepsOk(setup, n, init);
    if Reclaims(setup, m, e, h) {
      k := last;
      assert es[k + 1..] == [];
      NothingToForget(B.Run(setup, n, es[..k + 1]).b.seen, h);
    } else {
      StillSubmitted(setup, m, e, h);
      k := SubmittedWasReclaimed(setup, n, init, h);
      assert init[..k] == es[..k] && init[..k + 1] == es[..k + 1];
      var after, rest := B.Run(setup, n, es[..k + 1]), es[k + 1..];
      assert rest[..|rest| - 1] == init[k + 1..];
      RemembersOneMore(setup, n, init, k, e, h);
    }
  }

  /** The marks of one more event, remembered, extend a memory that lasts. */
  lemma RemembersOneMore(setup: Setup, n: Node, es: seq<Event>, k: nat, e: Event, h: Hash)
    requires k < |es|
    requires var after := B.Run(setup, n, es[..k + 1]);
      RemembersKey(after.b.seen, SeenMarks(setup, after, es[k + 1..]), h)
    requires var m := B.Run(setup, n, es); RemembersKey(m.b.seen, SeenOps(setup, m, e), h)
    ensures var after := B.Run(setup, n, es[..k + 1]);
      RemembersKey(after.b.seen, SeenMarks(setup, after, es[k + 1..]) + SeenOps(setup, B.Run(setup, n, es), e), h)
    ensures B.Run(setup, B.Run(setup, n, es[..k + 1]), es[k + 1..]) == B.Run(setup, n, es)
  {
    hide B.Run, SeenMarks, SeenOps, RemembersKey;
    var after, rest := B.Run(setup, n, es[..k + 1]), es[k + 1..];
    Middle(setup, n, es, k + 1, |es|);
    assert es[k + 1..|es|] == rest && es[..|es|] == es;
    RunRegistries(setup, after, rest);
    RemembersJoin(after.b.seen, SeenMarks(setup, after, rest), SeenOps(setup, B.Run(setup, n, es), e), h);
  }

  /** The event at `k` reclaimed `h`, and the seen-registry has not forgotten that by the time `d` has
      marked it again. */
  ghost predicate Reclaimed(setup: Setup, n: Node, es: seq<Event>, d: Delivery, k: nat, h: Hash)
    requires k < |es|
  {
    var after, last := B.Run(setup, n, es[..k + 1]), SeenOps(setup, B.Run(setup, n, es), Lane(d));
    && Reclaims(setup, B.Run(setup, n, es[..k]), es[k], h)
    && RemembersKey(after.b.seen, SeenMarks(setup, after, es[k + 1..]) + last, h)
  }

  /** What the gate says of a hash that was not announced: quiet exactly when it is known as ours. */
  lemma GateIsExact(setup: Setup, n: Node, d: Delivery, h: Hash)
    requires B.Ok(n.b) && setup.announces && d.Id(setup) == Some(h) && h !in d.Roots() && !Known(n.b.announced, h)
    ensures var a := B.Step(setup, n, Lane(d)).1;
      if R.Lookup(n.b.seen, h) == Some(Submitted) && RemembersKey(n.b.seen, SeenOps(setup, n, Lane(d)), h)
      then a == Quiet else a == Announce(h, d.announceOk)
  {
    hide R.Mark, R.Run, BeforeGate, R.Lookup, AgedFor, R.Ok, RemembersKey;
    var roots, op := RootOps(d.Roots(), d.now), Op(h, Delivered, d.now);
    GateRegistries(setup, n, d);
    OkParts(n.b);
    OthersDoNotMark(n.b.announced, roots, h);
    MarkResultAfter(n.b.seen, roots, op);
  }

  /** After a failed announce of `h`, and with no block naming it since, the next delivery of `h` announces
      it again unless a publication in between found it forgotten, claimed it as ours, and that is still
      remembered: then, and only then, the delivery is taken for our own echo. */
  lemma RetryIsExact(setup: Setup, n: Node, e: Event, mid: seq<Event>, d: Delivery, h: Hash)
    requires B.Ok(n.b) && B.Step(setup, n, e).1 == Announce(h, false)
    requires forall k :: 0 <= k < |mid| ==> !Brings(setup, mid[k], h)
    requires d.Id(setup) == Some(h) && h !in d.Roots()
    ensures var after := B.Step(setup, n, e).0;
      B.Step(setup, B.Run(setup, after, mid), Lane(d)).1 ==
        if exists k :: 0 <= k < |mid| && Reclaimed(setup, after, mid, d, k, h) then Quiet else Announce(h, d.announceOk)
  {
    hide B.Run, B.Step, B.Ok, R.Lookup, Brings, BeforeGate, Reclaims, RemembersKey, SeenOps;
    var after := B.Step(setup, n, e).0;
    var m := B.Run(setup, after, mid);
    AnnounceFacts(setup, n, e);
    StepOk(setup, n, e);
    B.RunKeepsOk(setup, after, mid);
    AnnouncedStays(setup, after, mid, h);
    GateIsExact(setup, m, d, h);
    if R.Lookup(m.b.seen, h) == Some(Submitted) && RemembersKey(m.b.seen, SeenOps(setup, m, Lane(d)), h) {
      var k := SubmittedWasReclaimed(setup, after, mid, h);
      RemembersOneMore(setup, after, mid, k, Lane(d), h);
      assert Reclaimed(setup, after, mid, d, k, h);
    } else if k :| 0 <= k < |mid| && Reclaimed(setup, after, mid, d, k, h) {
      ReclaimLasts(setup, after, mid, d, k, h);
    }
  }

  lemma ReclaimedReclaims(setup: Setup, n: Node, es: seq<Event>, d: Delivery, k: nat, h: Hash)
    requires k < |es|
    ensures Reclaimed(setup, n, es, d, k, h) ==> Reclaims(setup, B.Run(setup, n, es[..k]), es[k], h)
  {
  }

  lemma ReclaimMarks(setup: Setup, n: Node, e: Event, h: Hash)
    requires Reclaims(setup, n, e, h)
    ensures R.Lookup(B.Step(setup, n, e).0.b.seen, h) == Some(Submitted)
  {
    hide R.Mark, AgedFor, R.Lookup, Publishes;
    RegistryIsFlat(n.b.seen, Op(h, Submitted, e.env.now), h);
  }

  lemma ReclaimLasts(setup: Setup, n: Node, es: seq<Event>, d: Delivery, k: nat, h: Hash)
    requires B.Ok(n.b) && k < |es| && Reclaimed(setup, n, es, d, k, h)
    ensures var m := B.Run(setup, n, es);
      R.Lookup(m.b.seen, h) == Some(Submitted) && RemembersKey(m.b.seen, SeenOps(setup, m, Lane(d)), h)
  {
    hide B.Run, B.Step, SeenMarks, SeenOps, R.Lookup, Reclaims, B.Ok, RemembersKey;
    var after, rest, m := B.Run(setup, n, es[..k + 1]), es[k + 1..], B.Run(setup, n, es);
    var marks, ops := SeenMarks(setup, after, rest), SeenOps(setup, m, Lane(d));
    Next(setup, n, es, k);
    ReclaimMarks(setup, B.Run(setup, n, es[..k]), es[k], h);
    B.RunKeepsOk(setup, n, es[..k + 1]);
    OkParts(after.b);
    Middle(setup, n, es, k + 1, |es|);
    assert es[k + 1..|es|] == rest && es[..|es|] == es;
    RunRegistries(setup, after, rest);
    RemembersPrefix(after.b.seen, marks + ops, |marks|, h);
    assert (marks + ops)[..|marks|] == marks;
    DirectionsPersist(after.b.seen, marks, h);
    RemembersSegment(after.b.seen, marks, ops, h);
  }

  /** A bridge whose seen-registry ages by the clock every tick, and has room. */
  function Forgetful(objects: C.Cache): Node {
    var fresh_ := Table(seq(SHARDS, _ => Empty(0, 4)), 2);
    Node(Bridge(objects, fresh_, fresh_, 0, 0), None)
  }

  /** A subtree frame on its lane. */
  function Subtree(h: Hash, announceOk: bool, now: int): Event {
    Lane(Delivery(false, h + seq(8, _ => 0), announceOk, now))
  }

  /** A notification of `h`, its delivery, another one's, the publication of `h`, its redelivery. */
  function Unlucky(h: Hash, other: Hash, frame: seq<byte>): (es: seq<Event>)
    ensures |es| == 5
  {
    [Notify(SUBTREE_KIND, h), Subtree(h, false, 0), Subtree(other, true, 1),
     Finish(Env(true, true, true, Built(frame), true, 2)), Subtree(h, true, 2)]
  }

  /** A subtree delivery, by what the registries say of it. */
  lemma SubtreeStep(setup: Setup, n: Node, h: Hash, announceOk: bool, now: int)
    requires setup.announces
    ensures var (n', a) := B.Step(setup, n, Subtree(h, announceOk, now));
      var op := Op(h, Delivered, now);
      && n'.b.seen == R.Mark(n.b.seen, op) && n'.pending == n.pending
      && (MarkResult(n.b.seen, op) == Some(Submitted) ==> a == Quiet)
      && (MarkResult(n.b.seen, op).None? && !Known(n.b.announced, h) ==> a == Announce(h, announceOk))
  {
    hide R.Mark, MarkResult, Known, C.Put, C.Get, C.Held, R.Lookup;
    var d := Delivery(false, h + seq(8, _ => 0), announceOk, now);
    assert d.obj[..32] == h;
    assert RootOps(d.Roots(), now) == [];
    EmptyRun(n.b.seen);
    EmptyRun(n.b.announced);
  }

  /** Three marks of one shard, a tick apart, make the first forgotten and the third ours. */
  lemma AgedOutAndReclaimed(h: Hash, other: Hash)
    requires h != other && ShardIndex(h) == ShardIndex(other)
    ensures var r := Forgetful(C.New(0, 0, 0)).b.seen;
      var r1 := R.Mark(r, Op(h, Delivered, 0));
      var r2 := R.Mark(r1, Op(other, Delivered, 1));
      MarkResult(R.Mark(r2, Op(h, Submitted, 2)), Op(h, Delivered, 2)) == Some(Submitted)
  {
    var x := ShardIndex(h);
    var s1 := Empty(0, 4).(cur := map[h := Delivered], adds := 1);
    assert MarkShard(Empty(0, 4), Op(h, Delivered, 0), 1) == s1;
    var s2 := Shard(map[other := Delivered], map[h := Delivered], 1, 4, 0, 2, 0);
    assert MarkShard(s1, Op(other, Delivered, 1), 1) == s2;
    assert MarkShard(s2, Op(h, Submitted, 2), 1) == Shard(map[h := Submitted], map[other := Delivered], 2, 4, 0, 3, 1);
  }

  /** The case is real, with no block in sight: the announce of `h` fails, another subtree and then the
      publication of `h` itself, whatever its frame, age the delivery out, and the redelivery is taken for
      our own echo. */
  lemma FailedAnnounceIsLost(setup: Setup, objects: C.Cache, h: Hash, other: Hash, frame: seq<byte>)
    requires setup.announces && h != other && ShardIndex(h) == ShardIndex(other)
    ensures var n, es := Forgetful(objects), Unlucky(h, other, frame);
      ActionAt(setup, n, es, 1) == Announce(h, false) && ActionAt(setup, n, es, 4) == Quiet
  {
    hide R.Mark, Subtree, B.Run, B.Step, MarkResult, Forgetful, Known;
    var es := Unlucky(h, other, frame);
    var n := Forgetful(objects);
    FreshKnowsNothing(objects, h);
    assert es[..0] == [];
    NothingHappened(setup, n);
    Next(setup, n, es, 0);
    Next(setup, n, es, 1);
    Next(setup, n, es, 2);
    Next(setup, n, es, 3);
    NotifyStep(setup, n, false, h);
    SubtreeStep(setup, B.Run(setup, n, es[..1]), h, false, 0);
    SubtreeStep(setup, B.Run(setup, n, es[..2]), other, true, 1);
    FinishStep(setup, B.Run(setup, n, es[..3]), es[3].env);
    SubtreeStep(setup, B.Run(setup, n, es[..4]), h, true, 2);
    AgedOutAndReclaimed(h, other);
  }

  lemma FreshKnowsNothing(objects: C.Cache, h: Hash)
    ensures var b := Forgetful(objects).b;
      && Forgetful(objects).pending.None? && b.seen == Forgetful(C.New(0, 0, 0)).b.seen
      && !Known(b.seen, h) && !Known(b.announced, h) && MarkResult(b.seen, Op(h, Delivered, 0)).None?
  {
  }

  /** A failed announce is retried: its next delivery announces the hash again, as long as no block named
      it and no publication claimed it, forgotten, as ours in between. */
  lemma FailedAnnounceIsRetried(setup: Setup, n: Node, es: seq<Event>, i: nat, j: nat)
    requires B.Ok(n.b) && i < j < |es|
    requires ActionAt(setup, n, es, i).Announce? && !ActionAt(setup, n, es, i).ok
    requires forall k :: i < k < j ==> !Brings(setup, es[k], ActionAt(setup, n, es, i).hash)
    requires forall k :: i < k < j ==>
      !Reclaims(setup, B.Run(setup, n, es[..k]), es[k], ActionAt(setup, n, es, i).hash)
    requires es[j].Lane? && es[j].d.Id(setup) == Some(ActionAt(setup, n, es, i).hash)
    requires ActionAt(setup, n, es, i).hash !in es[j].d.Roots()
    ensures ActionAt(setup, n, es, j) == Announce(ActionAt(setup, n, es, i).hash, es[j].d.announceOk)
  {
    hide B.Run, B.Step, B.Ok, Reclaims, Reclaimed, Brings;
    var h := ActionAt(setup, n, es, i).hash;
    var after, mid := B.Run(setup, n, es[..i + 1]), es[i + 1..j];
    B.RunKeepsOk(setup, n, es[..i]);
    Next(setup, n, es, i);
    Middle(setup, n, es, i + 1, j);
    forall k | 0 <= k < |mid| ensures !Reclaimed(setup, after, mid, es[j].d, k, h) {
      Middle(setup, n, es, i + 1, i + 1 + k);
      assert mid[..k] == es[i + 1..i + 1 + k];
      ReclaimedReclaims(setup, after, mid, es[j].d, k, h);
    }
    RetryIsExact(setup, B.Run(setup, n, es[..i]), es[i], mid, es[j].d, h);
  }

  /** A hash the announce registry knows is not announced. */
  lemma KnownIsNotAnnounced(setup: Setup, n: Node, d: Delivery, h: Hash)
    requires d.Id(setup) == Some(h) && !d.block && Known(n.b.announced, h)
    ensures B.Step(setup, n, Lane(d)).1 == Quiet
  {
    hide R.Mark, MarkResult, R.Lookup, BeforeGate, R.Run;
    assert d.Roots() == [] && RootOps([], d.now) == [];
    GateRegistries(setup, n, d);
    EmptyRun(n.b.announced);
  }

  /** A block silences its subtrees: once a block naming a root was delivered, and until the announce
      registry forgets the root, a copy of the subtree on its own lane is not announced. */
  lemma BlockSilencesItsSubtrees(setup: Setup, n: Node, es: seq<Event>, i: nat, j: nat, root: Hash)
    requires B.Ok(n.b) && i < j < |es|
    requires es[i].Lane? && es[i].d.Id(setup).Some? && root in es[i].d.Roots()
    requires es[j].Lane? && !es[j].d.block && es[j].d.Id(setup) == Some(root)
    requires var from := B.Run(setup, n, es[..i]);
      RemembersKey(from.b.announced, AnnouncedMarks(setup, from, es[i..j]), root)
    ensures ActionAt(setup, n, es, j) == Quiet
  {
    hide B.Run, B.Step, AnnouncedMarks, B.Ok, RemembersKey, R.Lookup;
    var from := B.Run(setup, n, es[..i]);
    var marks := AnnouncedMarks(setup, from, es[i..j]);
    B.RunKeepsOk(setup, n, es[..i]);
    OkParts(from.b);
    var k := NamedInMarks(setup, from, es[i..j], root);
    RunRegistries(setup, from, es[i..j]);
    MarkedIsKnown(from.b.announced, marks, k);
    Middle(setup, n, es, i, j);
    KnownIsNotAnnounced(setup, B.Run(setup, n, es[..j]), es[j].d, root);
  }

  lemma NamedInOps(setup: Setup, n: Node, e: Event, root: Hash) returns (k: nat)
    requires e.Lane? && e.d.Id(setup).Some? && root in e.d.Roots()
    ensures k < |AnnouncedOps(setup, n, e)| && AnnouncedOps(setup, n, e)[k].key == root
  {
    hide Remembered, BeforeGate;
    var roots := e.d.Roots();
    k :| 0 <= k < |roots| && roots[k] == root;
    assert RootOps(roots, e.d.now)[k].key == root;
  }

  lemma {:induction false} NamedInMarks(setup: Setup, n: Node, es: seq<Event>, root: Hash) returns (k: nat)
    requires es != [] && es[0].Lane? && es[0].d.Id(setup).Some? && root in es[0].d.Roots()
    ensures k < |AnnouncedMarks(setup, n, es)| && AnnouncedMarks(setup, n, es)[k].key == root
  {
    hide B.Run, AnnouncedOps;
    var last := |es| - 1;
    if last == 0 {
      assert es[..0] == [] && AnnouncedMarks(setup, n, []) == [];
      NothingHappened(setup, n);
      k := NamedInOps(setup, n, es[0], root);
    } else {
      k := NamedInMarks(setup, n, es[..last], root);
    }
  }

  /** With a mine tag set, a block goes up only if the coinbase of the block the cluster served carries
      the tag. */
  lemma SentBlockCarriesTag(setup: Setup, n: Node, env: Env, x: seq<byte>)
    requires n.pending.Some? && n.pending.value.block && setup.mineTag != []
    requires B.Step(setup, n, Finish(env)).1.Send?
    requires env.build.Built? && BlockFrames.FromTeranode(x).Some?
    requires BlockFrames.Encode(BlockFrames.FromTeranode(x).value) == Some(env.build.frame)
    ensures Contains(BlockFrames.FromTeranode(x).value.coinbase, setup.mineTag)
  {
    hide BlockFrames.FromTeranode, BlockFrames.Encode, BlockFrames.CoinbaseOf, Contains, R.Mark, C.Put;
    BlockFrames.ParsedIsWellFormed(x);
    BlockFrames.ReadersAgree(BlockFrames.FromTeranode(x).value);
  }

  // ---- Echoes ------------------------------------------------------------------------------------

  predicate Delivers(setup: Setup, e: Event, h: Hash) {
    e.Lane? && e.d.Id(setup) == Some(h)
  }

  /** The copy held under `h` has these bytes. */
  predicate HoldsBody(c: C.Cache, h: Hash, frame: seq<byte>) {
    C.Stored(c, h).Some? && C.Stored(c, h).value.body == frame
  }

  lemma PutKeepsBody(c: C.Cache, e: C.Entry, h: Hash, frame: seq<byte>)
    requires C.Ok(c) && HoldsBody(c, h, frame)
    ensures C.Stored(C.Put(c, e), h).Some? ==> HoldsBody(C.Put(c, e), h, frame)
    ensures e.key == h ==> HoldsBody(C.Put(c, e), h, frame)
  {
    hide C.Stored, C.Put, C.Ok;
    C.CachePut(c, e, h);
  }

  lemma HeldIsStored(c: C.Cache, h: Hash, now: int)
    ensures C.Held(c, h, now) in {None, C.Stored(c, h)}
  {
  }

  lemma GetKeepsBody(c: C.Cache, k: Hash, now: int, h: Hash, frame: seq<byte>)
    requires C.Ok(c) && HoldsBody(c, h, frame) && (k == h ==> C.Held(c, h, now).Some?)
    ensures C.Ok(C.Get(c, k, now)) && HoldsBody(C.Get(c, k, now), h, frame)
  {
    hide C.Stored, C.Get, C.Ok, C.Held;
    C.CacheGet(c, k, now, h);
    HeldIsStored(c, h, now);
  }

  /** No step replaces a held copy: it keeps its bytes or is evicted, unless it had expired. */
  lemma StepKeepsBody(setup: Setup, n: Node, e: Event, h: Hash, frame: seq<byte>)
    requires C.Ok(n.b.objects) && HoldsBody(n.b.objects, h, frame)
    requires Delivers(setup, e, h) ==> C.Held(n.b.objects, h, e.d.now).Some?
    ensures var c := B.Step(setup, n, e).0.b.objects;
      (C.Stored(c, h).Some? || Delivers(setup, e, h)) ==> HoldsBody(c, h, frame)
  {
    hide C.Stored, C.Put, C.Get, C.Ok, C.Held, HoldsBody, R.Mark, R.Run, MarkResult, Known, R.Lookup, Contains;
    match e
    case Lane(d) =>
      if d.Id(setup).Some? {
        var k := d.Id(setup).value;
        var entry := C.Entry(k, d.obj, d.Class(), d.now);
        GetKeepsBody(n.b.objects, k, d.now, h, frame);
        PutKeepsBody(n.b.objects, entry, h, frame);
        PutKeepsBody(C.Get(n.b.objects, k, d.now), entry, h, frame);
      }
    case Notify(_, _) =>
    case Finish(env) =>
      if n.pending.Some? && Publishes(setup, n.pending.value, env) {
        var p := n.pending.value;
        PutKeepsBody(n.b.objects, PublishedEntry(p, env), h, frame);
      }
  }

  /** The copy is neither evicted nor expired when it is needed. */
  predicate Retained(setup: Setup, n: Node, es: seq<Event>, h: Hash, m: nat)
    requires m < |es|
  {
    var c := B.Run(setup, n, es[..m]).b.objects;
    C.Stored(c, h).Some? && (Delivers(setup, es[m], h) ==> C.Held(c, h, es[m].d.now).Some?)
  }

  lemma {:induction false} CopySurvives(setup: Setup, n: Node, es: seq<Event>, h: Hash, frame: seq<byte>, m: nat)
    requires B.Ok(n.b) && HoldsBody(n.b.objects, h, frame) && m < |es|
    requires forall k :: 0 <= k <= m ==> Retained(setup, n, es, h, k)
    ensures HoldsBody(B.Run(setup, n, es[..m]).b.objects, h, frame)
  {
    hide B.Run, B.Step, HoldsBody, C.Stored, C.Held, B.Ok;
    if m > 0 {
      CopySurvives(setup, n, es, h, frame, m - 1);
      B.RunKeepsOk(setup, n, es[..m - 1]);
      assert Retained(setup, n, es, h, m - 1) && Retained(setup, n, es, h, m);
      OkParts(B.Run(setup, n, es[..m - 1]).b);
      StepKeepsBody(setup, B.Run(setup, n, es[..m - 1]), es[m - 1], h, frame);
      Next(setup, n, es, m - 1);
    } else {
      assert es[..0] == [];
      NothingHappened(setup, n);
    }
  }

  lemma NothingHappened(setup: Setup, n: Node)
    ensures B.Run(setup, n, []) == n
  {
  }

  /** Only echoes are counted: no other step moves the counters. */
  lemma OnlyEchoesAreCounted(setup: Setup, n: Node, e: Event)
    requires e.Lane? && e.d.Id(setup).Some? ==> R.Lookup(n.b.seen, e.d.Id(setup).value) != Some(Submitted)
    ensures var b := B.Step(setup, n, e).0.b; b.verified == n.b.verified && b.mismatch == n.b.mismatch
  {
    hide C.Put, C.Get, C.Held, R.Mark, R.Run, MarkResult, Known, R.Lookup, Publishes;
  }

  /** A returning delivery of a hash we published counts exactly one of verified and mismatch, by its
      bytes, and leaves the published copy in place. */
  lemma EchoCounts(setup: Setup, n: Node, d: Delivery, h: Hash, frame: seq<byte>)
    requires C.Ok(n.b.objects) && d.Id(setup) == Some(h)
    requires R.Lookup(n.b.seen, h) == Some(Submitted) && HoldsBody(n.b.objects, h, frame)
    requires C.Held(n.b.objects, h, d.now).Some?
    ensures var b := B.Step(setup, n, Lane(d)).0.b;
      && b.verified == n.b.verified + (if d.obj == frame then 1 else 0)
      && b.mismatch == n.b.mismatch + (if d.obj != frame then 1 else 0)
      && HoldsBody(b.objects, h, frame)
  {
    HeldIsStored(n.b.objects, h, d.now);
    StepKeepsBody(setup, n, Lane(d), h, frame);
    hide C.Put, C.Get, C.Ok, C.Held, C.Stored, R.Mark, R.Run, MarkResult, Known;
  }

  /** What a publication of an absent hash leaves behind: marked as ours, and stored exactly when the
      frame fits its cache shard. */
  lemma PublishedState(setup: Setup, n: Node, e: Event)
    requires B.Ok(n.b) && B.Step(setup, n, e).1.Send? && e.Finish?
    requires MarkResult(n.b.seen, Op(B.Step(setup, n, e).1.hash, Submitted, e.env.now)).None?
    requires C.Stored(n.b.objects, B.Step(setup, n, e).1.hash).None?
    ensures var (n', a) := B.Step(setup, n, e);
      && R.Lookup(n'.b.seen, a.hash) == Some(Submitted)
      && (C.Stored(n'.b.objects, a.hash).Some? <==> |a.frame| <= n.b.objects[ShardIndex(a.hash)].maxBytes)
      && (C.Stored(n'.b.objects, a.hash).Some? ==> HoldsBody(n'.b.objects, a.hash, a.frame))
  {
    hide R.Mark, C.Put, C.Stored, C.Ok, R.Ok, R.Lookup, AgedFor;
    var p := n.pending.value;
    RegistryIsFlat(n.b.seen, Op(p.hash, Submitted, e.env.now), p.hash);
    C.CachePut(n.b.objects, PublishedEntry(p, e.env), p.hash);
  }

  /** Echo integrity: after publishing a hash that neither cache nor registry knew, and as long as the
      hash is not forgotten and the copy neither expired nor evicted, every returning delivery is
      compared with exactly the bytes that were sent, and counted once. */
  lemma EchoIntegrity(setup: Setup, n: Node, es: seq<Event>, i: nat, j: nat)
    requires B.Ok(n.b) && i < j < |es| && es[i].Finish? && ActionAt(setup, n, es, i).Send?
    requires var before, h := B.Run(setup, n, es[..i]), ActionAt(setup, n, es, i).hash;
      MarkResult(before.b.seen, Op(h, Submitted, es[i].env.now)).None? && C.Stored(before.b.objects, h).None?
    requires Delivers(setup, es[j], ActionAt(setup, n, es, i).hash)
    requires forall m :: i < m <= j ==> Retained(setup, n, es, ActionAt(setup, n, es, i).hash, m)
    requires var after := B.Run(setup, n, es[..i + 1]);
      RemembersKey(after.b.seen, SeenMarks(setup, after, es[i + 1..j]), ActionAt(setup, n, es, i).hash)
    ensures var b, b' := B.Run(setup, n, es[..j]).b, B.Run(setup, n, es[..j + 1]).b;
      var frame := ActionAt(setup, n, es, i).frame;
      && b'.verified == b.verified + (if es[j].d.obj == frame then 1 else 0)
      && b'.mismatch == b.mismatch + (if es[j].d.obj != frame then 1 else 0)
      && HoldsBody(b'.objects, ActionAt(setup, n, es, i).hash, frame)
  {
    hide B.Run, B.Step, SeenMarks, B.Ok, HoldsBody, C.Stored, C.Held, MarkResult, R.Lookup, RemembersKey;
    var h, frame := ActionAt(setup, n, es, i).hash, ActionAt(setup, n, es, i).frame;
    var after := B.Run(setup, n, es[..i + 1]);
    Next(setup, n, es, i);
    B.RunKeepsOk(setup, n, es[..i]);
    B.RunKeepsOk(setup, n, es[..i + 1]);
    B.RunKeepsOk(setup, n, es[..j]);
    PublishedState(setup, B.Run(setup, n, es[..i]), es[i]);
    assert Retained(setup, n, es, h, i + 1) && Retained(setup, n, es, h, j);
    SentCopySurvives(setup, n, es, i, j, h, frame);
    SentMarkSurvives(setup, n, es, i, j, h);
    OkParts(B.Run(setup, n, es[..j]).b);
    EchoCounts(setup, B.Run(setup, n, es[..j]), es[j].d, h, frame);
    Next(setup, n, es, j);
  }

  lemma SentCopySurvives(setup: Setup, n: Node, es: seq<Event>, i: nat, j: nat, h: Hash, frame: seq<byte>)
    requires i < j < |es| && B.Ok(B.Run(setup, n, es[..i + 1]).b)
    requires HoldsBody(B.Run(setup, n, es[..i + 1]).b.objects, h, frame)
    requires forall m :: i < m <= j ==> Retained(setup, n, es, h, m)
    ensures HoldsBody(B.Run(setup, n, es[..j]).b.objects, h, frame)
  {
    hide B.Run, B.Step, B.Ok, HoldsBody, C.Stored, C.Held;
    var after := B.Run(setup, n, es[..i + 1]);
    var rest := es[i + 1..];
    forall k | 0 <= k <= j - i - 1 ensures Retained(setup, after, rest, h, k) {
      assert Retained(setup, n, es, h, i + 1 + k);
      Middle(setup, n, es, i + 1, i + 1 + k);
      assert rest[..k] == es[i + 1..i + 1 + k];
    }
    CopySurvives(setup, after, rest, h, frame, j - i - 1);
    Middle(setup, n, es, i + 1, j);
    assert rest[..j - i - 1] == es[i + 1..j];
  }

  lemma SentMarkSurvives(setup: Setup, n: Node, es: seq<Event>, i: nat, j: nat, h: Hash)
    requires i < j < |es| && B.Ok(B.Run(setup, n, es[..i + 1]).b)
    requires var after := B.Run(setup, n, es[..i + 1]);
      Known(after.b.seen, h) && RemembersKey(after.b.seen, SeenMarks(setup, after, es[i + 1..j]), h)
    ensures R.Lookup(B.Run(setup, n, es[..j]).b.seen, h) == R.Lookup(B.Run(setup, n, es[..i + 1]).b.seen, h)
  {
    hide B.Run, SeenMarks, R.Lookup, RemembersKey;
    var after := B.Run(setup, n, es[..i + 1]);
    OkParts(after.b);
    RunRegistries(setup, after, es[i + 1..j]);
    DirectionsPersist(after.b.seen, SeenMarks(setup, after, es[i + 1..j]), h);
    Middle(setup, n, es, i + 1, j);
  }
}
