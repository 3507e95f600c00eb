/**
 One bridge: the delivery handlers (cmd/teranode-bridge/main.go) and the reverse path
 (reverse/reverse.go) over the object cache and the two registries they share.
 */
module Bridges {
  import opened Bytes
  import opened Registries
  import R = Registries
  import C = ObjectCaches
  import BlockFrames
  import SubtreeFrames

  /** What does not change while the bridge runs: how a header hashes, whether there is an announcer,
      and the cluster's coinbase tag (empty: no tag). */
  datatype Setup = Setup(blockId: seq<byte> -> Hash, announces: bool, mineTag: seq<byte>)

  datatype Bridge = Bridge(objects: C.Cache, seen: Registry, announced: Registry, verified: nat, mismatch: nat)

  ghost predicate Ok(b: Bridge) {
    C.Ok(b.objects) && R.Ok(b.seen) && R.Ok(b.announced)
  }

  /** What a step did to the outside world. */
  datatype Action = Quiet | Announce(hash: Hash, ok: bool) | Send(hash: Hash, frame: seq<byte>, ok: bool)

  // ---- Delivery ----------------------------------------------------------------------------

  /** Compares a returning object with the copy that was published. */
  function VerifyEcho(b: Bridge, h: Hash, obj: seq<byte>, now: int): Bridge {
    if R.Lookup(b.seen, h) != Some(Submitted) then b
    else
      var b1 := b.(objects := C.Get(b.objects, h, now));
      match C.Held(b.objects, h, now)
      case None => b1
      case Some(e) => if e.body == obj then b1.(verified := b.verified + 1) else b1.(mismatch := b.mismatch + 1)
  }

  function Store(b: Bridge, h: Hash, class_: string, obj: seq<byte>, now: int): Bridge {
    b.(objects := C.Put(b.objects, C.Entry(h, obj, class_, now)))
  }

  /** Marks the delivered hash, then announces it unless it is our own echo or was announced before;
      only a successful announce is remembered. */
  function Gate(setup: Setup, b: Bridge, h: Hash, announceOk: bool, now: int): (Bridge, Action) {
    var op := Op(h, Delivered, now);
    var known := MarkResult(b.seen, op);
    var b1 := b.(seen := R.Mark(b.seen, op));
    if known == Some(Submitted) then (b1, Quiet)
    else if Known(b1.announced, h) || !setup.announces then (b1.(announced := R.Mark(b1.announced, op)), Quiet)
    else if announceOk then (b1.(announced := R.Mark(b1.announced, op)), Announce(h, true))
    else (b1, Announce(h, false))
  }

  /** The marks of a block's roots, in frame order. */
  function RootOps(roots: seq<Hash>, now: int): (ops: seq<Op>)
    ensures |ops| == |roots| && forall i :: 0 <= i < |ops| ==> ops[i] == Op(roots[i], Delivered, now)
  {
    if roots == [] then [] else RootOps(roots[..|roots| - 1], now) + [Op(roots[|roots| - 1], Delivered, now)]
  }

  function MarkRoots(b: Bridge, ops: seq<Op>): Bridge {
    b.(seen := R.Run(b.seen, ops), announced := R.Run(b.announced, ops))
  }

  /** What a lane delivered: the class, the object, how an announce would go, the clock. */
  datatype Delivery = Delivery(block: bool, obj: seq<byte>, announceOk: bool, now: int) {
    /** The object's own hash; None when the frame is too short to have one. */
    function Id(setup: Setup): Option<Hash> {
      if block then if |obj| < BlockFrames.PREFIX_SIZE then None else Some(setup.blockId(obj[..80]))
      else if |obj| < SubtreeFrames.HEADER_SIZE then None else Some(obj[..32])
    }

    /** The subtree roots the frame names. */
    function Roots(): seq<Hash> {
      if !block then []
      else match BlockFrames.SubtreeRootsOf(obj)
        case None => []
        case Some(roots) => roots
    }

    function Class(): (c: string)
      ensures c in {"block", "subtree"} && (c == "block" <==> block)
    {
      if block then "block" else "subtree"
    }
  }

  /** The state the gate sees: echo checked, object stored, roots marked. */
  function BeforeGate(setup: Setup, b: Bridge, d: Delivery): Bridge
    requires d.Id(setup).Some?
  {
    var h := d.Id(setup).value;
    MarkRoots(Store(VerifyEcho(b, h, d.obj, d.now), h, d.Class(), d.obj, d.now), RootOps(d.Roots(), d.now))
  }

  function Deliver(setup: Setup, b: Bridge, d: Delivery): (Bridge, Action) {
    match d.Id(setup)
    case None => (b, Quiet)
    case Some(h) => Gate(setup, BeforeGate(setup, b, d), h, d.announceOk, d.now)
  }

  // ---- The reverse path ----------------------------------------------------------------------

  /** A notification that passed the origin filter. */
  datatype Pub = Pub(block: bool, hash: Hash)

  const SUBTREE_KIND: int := 1
  const BLOCK_KIND: int := 2

  /** The origin filter: anything the registry knows, either way, is not ours to publish. */
  function Filter(b: Bridge, kind: int, raw: seq<byte>): Option<Pub> {
    if (kind != SUBTREE_KIND && kind != BLOCK_KIND) || |raw| < 32 then None
    else
      var h: Hash := raw[..32];
      if Known(b.seen, h) then None else Some(Pub(kind == BLOCK_KIND, h))
  }

  datatype Build = BuildFailed | NotAvailable | Built(frame: seq<byte>)

  /** What a publication meets: publisher configured, role held, readiness, the built frame, the send. */
  datatype Env = Env(publisher: bool, active: bool, ready: bool, build: Build, sendOk: bool, now: int)

  /** Whether the publication goes out: a block must carry this cluster's tag when there is one. */
  predicate Publishes(setup: Setup, p: Pub, env: Env) {
    && env.publisher && env.active && env.ready && env.build.Built?
    && (p.block && setup.mineTag != [] ==>
          var cb := BlockFrames.CoinbaseOf(env.build.frame);
          cb.Some? && Contains(cb.value, setup.mineTag))
  }

  /** Registers and stores before sending, whatever the send does. */
  function Publish(setup: Setup, b: Bridge, p: Pub, env: Env): (Bridge, Action) {
    if !Publishes(setup, p, env) then (b, Quiet)
    else
      var b1 := b.(seen := R.Mark(b.seen, Op(p.hash, Submitted, env.now)));
      (Store(b1, p.hash, if p.block then "block" else "subtree", env.build.frame, env.now),
       Send(p.hash, env.build.frame, env.sendOk))
  }

  // ---- Runs ------------------------------------------------------------------------------------

  /** The bridge and its one subscriber: `pending` is the notification being published. */
  datatype Node = Node(b: Bridge, pending: Option<Pub>)

  /** Deliveries interleave freely with the two halves of handling a notification. */
  datatype Event = Lane(d: Delivery) | Notify(kind: int, raw: seq<byte>) | Finish(env: Env)

  function Step(setup: Setup, n: Node, e: Event): (Node, Action) {
    match e
    case Lane(d) =>
      var r := Deliver(setup, n.b, d);
      (n.(b := r.0), r.1)
    case Notify(kind, raw) =>
      if n.pending.Some? then (n, Quiet) else (n.(pending := Filter(n.b, kind, raw)), Quiet)
    case Finish(env) =>
      if n.pending.None? then (n, Quiet)
      else
        var r := Publish(setup, n.b, n.pending.value, env);
        (Node(r.0, None), r.1)
  }

  function Run(setup: Setup, n: Node, es: seq<Event>): Node {
    if es == [] then n else Step(setup, Run(setup, n, es[..|es| - 1]), es[|es| - 1]).0
  }

  function ActionAt(setup: Setup, n: Node, es: seq<Event>, i: nat): Action
    requires i < |es|
  {
    Step(setup, Run(setup, n, es[..i]), es[i]).1
  }

  // ---- What a step does to the registries --------------------------------------------------------

  /** The marks a step makes in `seen`. */
  function SeenOps(setup: Setup, n: Node, e: Event): seq<Op> {
    match e
    case Lane(d) =>
      if d.Id(setup).None? then [] else RootOps(d.Roots(), d.now) + [Op(d.Id(setup).value, Delivered, d.now)]
    case Notify(_, _) => []
    case Finish(env) =>
      if n.pending.None? || !Publishes(setup, n.pending.value, env) then []
      else [Op(n.pending.value.hash, Submitted, env.now)]
  }

  /** The marks a step makes in `announced`: a block's roots, and the hash itself when the gate says so. */
  function AnnouncedOps(setup: Setup, n: Node, e: Event): seq<Op> {
    if !e.Lane? || e.d.Id(setup).None? then []
    else
      var roots := RootOps(e.d.Roots(), e.d.now);
      var op := Op(e.d.Id(setup).value, Delivered, e.d.now);
      if Remembered(setup, BeforeGate(setup, n.b, e.d), op, e.d.announceOk) then roots + [op] else roots
  }

  /** Whether the gate records the hash as announced: it was before, nobody is to be told, or the
      announce succeeded; never for our own echo. */
  predicate Remembered(setup: Setup, b: Bridge, op: Op, announceOk: bool) {
    MarkResult(b.seen, op) != Some(Submitted) && (Known(b.announced, op.key) || !setup.announces || announceOk)
  }

  lemma StepRegistries(setup: Setup, n: Node, e: Event)
    ensures Step(setup, n, e).0.b.seen == R.Run(n.b.seen, SeenOps(setup, n, e))
    ensures Step(setup, n, e).0.b.announced == R.Run(n.b.announced, AnnouncedOps(setup, n, e))
  {
    match e
    case Lane(d) => LaneRegistries(setup, n, d);
    case Notify(_, _) => FinishRegistries(setup, n, e);
    case Finish(_) => FinishRegistries(setup, n, e);
  }

  lemma LaneRegistries(setup: Setup, n: Node, d: Delivery)
    ensures Step(setup, n, Lane(d)).0.b.seen == R.Run(n.b.seen, SeenOps(setup, n, Lane(d)))
    ensures Step(setup, n, Lane(d)).0.b.announced == R.Run(n.b.announced, AnnouncedOps(setup, n, Lane(d)))
  {
    hide R.Mark, R.Run, RootOps, MarkResult, Known, BeforeGate;
    if d.Id(setup).None? {
      EmptyRun(n.b.seen);
      EmptyRun(n.b.announced);
    } else {
      var roots, op := RootOps(d.Roots(), d.now), Op(d.Id(setup).value, Delivered, d.now);
      LaneStart(setup, n, d);
      OneMore(n.b.seen, roots, op);
      OneMore(n.b.announced, roots, op);
    }
  }

  lemma OneMore(r: Registry, ops: seq<Op>, op: Op)
    ensures R.Run(r, ops + [op]) == R.Mark(R.Run(r, ops), op)
  {
    hide R.Mark;
    assert (ops + [op])[..|ops|] == ops;
  }

  /** Checking the echo and storing the object leave the registries alone. */
  lemma LaneStart(setup: Setup, n: Node, d: Delivery)
    requires d.Id(setup).Some?
    ensures BeforeGate(setup, n.b, d).seen == R.Run(n.b.seen, RootOps(d.Roots(), d.now))
    ensures BeforeGate(setup, n.b, d).announced == R.Run(n.b.announced, RootOps(d.Roots(), d.now))
  {
    hide R.Run, RootOps;
  }

  lemma FinishRegistries(setup: Setup, n: Node, e: Event)
    requires !e.Lane?
    ensures Step(setup, n, e).0.b.seen == R.Run(n.b.seen, SeenOps(setup, n, e))
    ensures Step(setup, n, e).0.b.announced == R.Run(n.b.announced, AnnouncedOps(setup, n, e))
  {
    hide R.Mark, Publishes;
    if e.Finish? && n.pending.Some? {
      var op := Op(n.pending.value.hash, Submitted, e.env.now);
      assert [op][..0] == [];
    }
  }

  lemma StepOk(setup: Setup, n: Node, e: Event)
    requires Ok(n.b)
    ensures Ok(Step(setup, n, e).0.b)
  {
    hide R.Run, C.Ok, R.Ok, SeenOps, AnnouncedOps;
    StepRegistries(setup, n, e);
    RunOk(n.b.seen, SeenOps(setup, n, e));
    RunOk(n.b.announced, AnnouncedOps(setup, n, e));
    StepCache(setup, n, e);
  }

  lemma StepCache(setup: Setup, n: Node, e: Event)
    requires C.Ok(n.b.objects)
    ensures C.Ok(Step(setup, n, e).0.b.objects)
  {
    hide C.Ok, C.Put, C.Get, C.Held, R.Run, R.Mark, R.Lookup, Known, MarkResult, Contains;
    match e
    case Lane(d) =>
      if d.Id(setup).Some? {
        C.OperationsKeepOk(n.b.objects, C.Entry(d.Id(setup).value, d.obj, d.Class(), d.now), d.now);
      }
    case Notify(_, _) =>
    case Finish(env) =>
      if n.pending.Some? && Publishes(setup, n.pending.value, env) {
        var p := n.pending.value;
        var entry := C.Entry(p.hash, env.build.frame, if p.block then "block" else "subtree", env.now);
        C.OperationsKeepOk(n.b.objects, entry, env.now);
      }
  }

  lemma {:induction false} RunKeepsOk(setup: Setup, n: Node, es: seq<Event>)
    requires Ok(n.b)
    ensures Ok(Run(setup, n, es).b)
  {
    hide Ok, Step;
    if es != [] {
      RunKeepsOk(setup, n, es[..|es| - 1]);
      StepOk(setup, Run(setup, n, es[..|es| - 1]), es[|es| - 1]);
    }
  }

  /** The marks of a whole run. */
  function SeenMarks(setup: Setup, n: Node, es: seq<Event>): seq<Op> {
    if es == [] then []
    else SeenMarks(setup, n, es[..|es| - 1]) + SeenOps(setup, Run(setup, n, es[..|es| - 1]), es[|es| - 1])
  }

  function AnnouncedMarks(setup: Setup, n: Node, es: seq<Event>): seq<Op> {
    if es == [] then []
    else AnnouncedMarks(setup, n, es[..|es| - 1]) + AnnouncedOps(setup, Run(setup, n, es[..|es| - 1]), es[|es| - 1])
  }

  lemma {:induction false} RunRegistries(setup: Setup, n: Node, es: seq<Event>)
    ensures Run(setup, n, es).b.seen == R.Run(n.b.seen, SeenMarks(setup, n, es))
    ensures Run(setup, n, es).b.announced == R.Run(n.b.announced, AnnouncedMarks(setup, n, es))
  {
    hide Step, SeenOps, AnnouncedOps, R.Run;
    if es == [] {
      EmptyRun(n.b.seen);
      EmptyRun(n.b.announced);
    } else {
      var init, e := es[..|es| - 1], es[|es| - 1];
      var m := Run(setup, n, init);
      RunRegistries(setup, n, init);
      StepRegistries(setup, m, e);
      RunAppend(n.b.seen, SeenMarks(setup, n, init), SeenOps(setup, m, e));
      RunAppend(n.b.announced, AnnouncedMarks(setup, n, init), AnnouncedOps(setup, m, e));
    }
  }

  lemma EmptyRun(r: Registry)
    ensures R.Run(r, []) == r
  {
  }

  lemma {:induction false} RunSplits(setup: Setup, n: Node, a: seq<Event>, b: seq<Event>)
    ensures Run(setup, n, a + b) == Run(setup, Run(setup, n, a), b)
    decreases |b|
  {
    hide Step;
    if b == [] {
      assert a + b == a;
    } else {
      RunSplits(setup, n, a, b[..|b| - 1]);
      assert (a + b)[..|a + b| - 1] == a + b[..|b| - 1];
    }
  }
}
