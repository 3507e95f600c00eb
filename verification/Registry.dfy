/**
 The seen-registry (registry/registry.go): which hashes crossed the bridge, and which way. 64 shards,
 each aged in two generations. Values and functions first, then the objects that run.
 */
module Registries {
  import opened Bytes

  datatype Direction = Delivered | Submitted

  // ---- One shard -----------------------------------------------------------

  datatype Shard = Shard(cur: map<Hash, Direction>, prev: map<Hash, Direction>, rotated: int, cap: nat,
                         hits: nat, adds: nat, pruned: nat)

  /** The previous generation is dropped wholesale, the current one demoted. */
  function Rotate(s: Shard, now: int): Shard {
    s.(pruned := s.pruned + |s.prev|, prev := s.cur, cur := map[], rotated := now)
  }

  predicate Due(s: Shard, now: int, half: int) {
    now - s.rotated >= half || |s.cur| >= s.cap
  }

  function Aged(s: Shard, now: int, half: int): Shard {
    if Due(s, now, half) then Rotate(s, now) else s
  }

  function LookupShard(s: Shard, k: Hash): Option<Direction> {
    if k in s.cur then Some(s.cur[k]) else if k in s.prev then Some(s.prev[k]) else None
  }

  /** A mark: one arrival at a shard, with the clock it read. */
  datatype Op = Op(key: Hash, dir: Direction, now: int)

  function MarkAged(a: Shard, op: Op): Shard {
    if op.key in a.cur then a.(hits := a.hits + 1)
    else if op.key in a.prev then a.(cur := a.cur[op.key := a.prev[op.key]], hits := a.hits + 1)
    else a.(cur := a.cur[op.key := op.dir], adds := a.adds + 1)
  }

  function MarkShard(s: Shard, op: Op, half: int): Shard {
    MarkAged(Aged(s, op.now, half), op)
  }

  /** Keys in both generations agree, and neither generation outgrows its threshold. */
  predicate ShardOk(s: Shard) {
    && s.cap >= 1 && |s.cur| <= s.cap && |s.prev| <= s.cap
    && forall k :: k in s.cur && k in s.prev ==> s.cur[k] == s.prev[k]
  }

  lemma MarkKeepsOk(s: Shard, op: Op, half: int)
    requires ShardOk(s)
    ensures ShardOk(MarkShard(s, op, half))
  {
  }

  /** After the rotation step a shard answers as one flat map: a mark adds the key if it is absent,
      changes no direction and forgets nothing. */
  lemma MarkIsFlat(s: Shard, op: Op, half: int, k: Hash)
    ensures var a := Aged(s, op.now, half);
      LookupShard(MarkShard(s, op, half), k) ==
        if k == op.key && LookupShard(a, k).None? then Some(op.dir) else LookupShard(a, k)
  {
  }

  /** Rotation can only forget: what it still knows, it knows the same way. */
  lemma RotationForgets(s: Shard, now: int, half: int, k: Hash)
    requires ShardOk(s)
    ensures LookupShard(Aged(s, now, half), k) in {None, LookupShard(s, k)}
    ensures k in s.cur ==> LookupShard(Aged(s, now, half), k) == LookupShard(s, k)
  {
  }

  // ---- Runs of a shard -------------------------------------------------------

  function RunShard(s: Shard, ops: seq<Op>, half: int): Shard {
    if ops == [] then s else MarkShard(RunShard(s, ops[..|ops| - 1], half), ops[|ops| - 1], half)
  }

  lemma RunSnoc(s: Shard, ops: seq<Op>, half: int, j: nat)
    requires j < |ops|
    ensures RunShard(s, ops[..j + 1], half) == MarkShard(RunShard(s, ops[..j], half), ops[j], half)
  {
    assert ops[..j + 1][..j] == ops[..j];
  }

  /** Whether the mark puts an entry in the current map: a new key, or a promotion. */
  predicate Puts(s: Shard, op: Op, half: int) {
    op.key !in Aged(s, op.now, half).cur
  }

  predicate Promotes(s: Shard, op: Op, half: int) {
    Puts(s, op, half) && op.key in Aged(s, op.now, half).prev
  }

  /** Entries put in the current map by the marks from position `i` on. */
  function PutsSince(s: Shard, ops: seq<Op>, half: int, i: nat): nat {
    if |ops| <= i then 0
    else
      var init := ops[..|ops| - 1];
      PutsSince(s, init, half, i) + if Puts(RunShard(s, init, half), ops[|ops| - 1], half) then 1 else 0
  }

  function Promotions(s: Shard, ops: seq<Op>, half: int): nat {
    if ops == [] then 0
    else
      var init := ops[..|ops| - 1];
      Promotions(s, init, half) + if Promotes(RunShard(s, init, half), ops[|ops| - 1], half) then 1 else 0
  }

  lemma {:induction false} RunKeepsOk(s: Shard, ops: seq<Op>, half: int)
    requires ShardOk(s)
    ensures ShardOk(RunShard(s, ops, half)) && RunShard(s, ops, half).cap == s.cap
  {
    if ops != [] {
      RunKeepsOk(s, ops[..|ops| - 1], half);
      MarkKeepsOk(RunShard(s, ops[..|ops| - 1], half), ops[|ops| - 1], half);
    }
  }

  function Held(s: Shard): nat {
    |s.cur| + |s.prev| + s.pruned
  }

  /** Every entry put is held or was pruned: adds and promotions account for all of them. */
  lemma {:induction false} EntriesAreAccounted(s: Shard, ops: seq<Op>, half: int)
    ensures var r := RunShard(s, ops, half);
      r.adds - s.adds + Promotions(s, ops, half) == Held(r) - Held(s)
  {
    if ops != [] {
      EntriesAreAccounted(s, ops[..|ops| - 1], half);
    }
  }

  // ---- What it takes to forget -------------------------------------------------

  predicate RotatesAt(s: Shard, ops: seq<Op>, half: int, i: nat)
    requires i < |ops|
  {
    Due(RunShard(s, ops[..i], half), ops[i].now, half)
  }

  lemma {:induction false} FirstLoss(s: Shard, ops: seq<Op>, half: int, k: Hash) returns (j: nat)
    requires LookupShard(s, k).Some? && LookupShard(RunShard(s, ops, half), k).None?
    ensures j < |ops| && LookupShard(RunShard(s, ops[..j], half), k).Some?
    ensures LookupShard(RunShard(s, ops[..j + 1], half), k).None?
  {
    var n := |ops| - 1;
    assert ops[..n + 1] == ops;
    if LookupShard(RunShard(s, ops[..n], half), k).Some? {
      j := n;
    } else {
      j := FirstLoss(s, ops[..n], half, k);
      assert ops[..n][..j] == ops[..j] && ops[..n][..j + 1] == ops[..j + 1];
    }
  }

  lemma MarkOnCurrent(s: Shard, op: Op, half: int)
    ensures var r, put := MarkShard(s, op, half), if Puts(s, op, half) then 1 else 0;
      if Due(s, op.now, half) then r.rotated == op.now && |r.cur| == put
      else r.rotated == s.rotated && |r.cur| == |s.cur| + put && s.cur.Keys <= r.cur.Keys
  {
  }

  lemma {:induction false} LastRotation(s: Shard, ops: seq<Op>, half: int, k: Hash) returns (i: nat)
    requires k in s.cur && k !in RunShard(s, ops, half).cur
    ensures i < |ops| && RotatesAt(s, ops, half, i)
    ensures forall m :: i < m < |ops| ==> !RotatesAt(s, ops, half, m)
    ensures RunShard(s, ops, half).rotated == ops[i].now
    ensures |RunShard(s, ops, half).cur| == PutsSince(s, ops, half, i)
  {
    hide MarkShard, Puts, Due;
    var n := |ops| - 1;
    var init := ops[..n];
    MarkOnCurrent(RunShard(s, init, half), ops[n], half);
    if Due(RunShard(s, init, half), ops[n].now, half) {
      i := n;
    } else {
      i := LastRotation(s, init, half, k);
      assert init[..i] == ops[..i];
      forall m | i < m < n ensures !RotatesAt(s, ops, half, m) {
        assert !RotatesAt(s, init, half, m) && init[..m] == ops[..m];
      }
    }
  }

  /** Two rotations of the shard at `i` and `j` with none between, far enough apart: half a ttl of
      clock, or a threshold's worth of entries. */
  predicate AgedOut(s: Shard, ops: seq<Op>, half: int, i: nat, j: nat) {
    && i < j < |ops| && RotatesAt(s, ops, half, i) && RotatesAt(s, ops, half, j)
    && (forall m :: i < m < j ==> !RotatesAt(s, ops, half, m))
    && (ops[j].now - ops[i].now >= half || PutsSince(s, ops[..j], half, i) >= s.cap)
  }

  /** A shard that just put `k` in its current map forgets it only by two such rotations. */
  lemma ForgettingTakesTwoRotations(s: Shard, ops: seq<Op>, half: int, k: Hash) returns (i: nat, j: nat)
    requires ShardOk(s) && k in s.cur && LookupShard(RunShard(s, ops, half), k).None?
    ensures AgedOut(s, ops, half, i, j)
  {
    hide MarkShard, RunShard;
    j := FirstLoss(s, ops, half, k);
    var before := ops[..j];
    var r := RunShard(s, before, half);
    assert ops[..j + 1][..j] == before;
    RunKeepsOk(s, before, half);
    RunSnoc(s, ops, half, j);
    MarkIsFlat(r, ops[j], half, k);
    RotationForgets(r, ops[j].now, half, k);
    i := LastRotation(s, before, half, k);
    assert before[..i] == ops[..i];
    forall m | i < m < j ensures !RotatesAt(s, ops, half, m) {
      assert !RotatesAt(s, before, half, m) && before[..m] == ops[..m];
    }
  }

  /** How often the shard rotates over the marks. */
  function Rotations(s: Shard, ops: seq<Op>, half: int): nat {
    if ops == [] then 0
    else
      var init := ops[..|ops| - 1];
      Rotations(s, init, half) + if Due(RunShard(s, init, half), ops[|ops| - 1].now, half) then 1 else 0
  }

  /** Where a key put in the current map is after marks of other keys: it moves one generation a rotation. */
  lemma {:induction false} Demotion(s: Shard, ops: seq<Op>, half: int, k: Hash)
    requires k in s.cur && forall i :: 0 <= i < |ops| ==> ops[i].key != k
    ensures var r, n := RunShard(s, ops, half), Rotations(s, ops, half);
      (k in r.cur <==> n == 0) && (n == 1 ==> k in r.prev) && (n >= 2 ==> k !in r.prev)
  {
    if ops != [] {
      Demotion(s, ops[..|ops| - 1], half, k);
    }
  }

  /** A key that is left alone is forgotten exactly when its shard has rotated twice, and not by time. */
  lemma ForgottenExactlyByRotations(s: Shard, ops: seq<Op>, half: int, k: Hash)
    requires k in s.cur && forall i :: 0 <= i < |ops| ==> ops[i].key != k
    ensures LookupShard(RunShard(s, ops, half), k).None? <==> Rotations(s, ops, half) >= 2
  {
    hide RunShard, Rotations;
    Demotion(s, ops, half, k);
  }

  // ---- The whole registry ------------------------------------------------------

  datatype Table = Table(shards: seq<Shard>, ttl: int)
  type Registry = t: Table | |t.shards| == SHARDS && t.ttl >= 0
    witness Table(seq(SHARDS, _ => Shard(map[], map[], 0, 1, 0, 0, 0)), 0)

  function Empty(start: int, cap: nat): Shard {
    Shard(map[], map[], start, cap, 0, 0, 0)
  }

  function PerShard(maxEntries: int): nat {
    var max := if maxEntries <= 0 then 0x10_0000 else maxEntries;
    if max / SHARDS / 2 <= 0 then 1 else max / SHARDS / 2
  }

  /** A new registry; `defaultTtl` is the source's thirty minutes in the clock's unit. */
  function New(ttl: int, defaultTtl: nat, maxEntries: int, start: int): Registry {
    Table(seq(SHARDS, _ => Empty(start, PerShard(maxEntries))), if ttl <= 0 then defaultTtl else ttl)
  }

  predicate Ok(r: Registry) {
    forall i :: 0 <= i < SHARDS ==> ShardOk(r.shards[i])
  }

  function ShardOf(r: Registry, k: Hash): Shard {
    r.shards[ShardIndex(k)]
  }

  function Lookup(r: Registry, k: Hash): Option<Direction> {
    LookupShard(ShardOf(r, k), k)
  }

  predicate Known(r: Registry, k: Hash) {
    Lookup(r, k).Some?
  }

  /** The registry after the rotation step of a mark, before the mark itself. */
  function AgedFor(r: Registry, op: Op): Registry {
    r.(shards := r.shards[ShardIndex(op.key) := Aged(ShardOf(r, op.key), op.now, r.ttl / 2)])
  }

  function Mark(r: Registry, op: Op): Registry {
    r.(shards := r.shards[ShardIndex(op.key) := MarkShard(ShardOf(r, op.key), op, r.ttl / 2)])
  }

  /** What a mark reports: how the key was known after the rotation step. */
  function MarkResult(r: Registry, op: Op): Option<Direction> {
    Lookup(AgedFor(r, op), op.key)
  }

  /** The sharded registry is one flat map from hashes to directions. */
  lemma RegistryIsFlat(r: Registry, op: Op, k: Hash)
    ensures Lookup(Mark(r, op), k) ==
      if k == op.key && MarkResult(r, op).None? then Some(op.dir) else Lookup(AgedFor(r, op), k)
    ensures Known(Mark(r, op), op.key) && op.key in ShardOf(Mark(r, op), op.key).cur
    ensures Ok(r) ==> Lookup(AgedFor(r, op), k) in {None, Lookup(r, k)}
    ensures Ok(r) ==> Ok(Mark(r, op))
  {
    hide MarkShard, LookupShard, ShardOk, Aged;
    var s := ShardOf(r, op.key);
    MarkIsFlat(s, op, r.ttl / 2, k);
    MarkIsCurrent(s, op, r.ttl / 2);
    if Ok(r) {
      RotationForgets(s, op.now, r.ttl / 2, k);
      MarkKeepsOk(s, op, r.ttl / 2);
    }
  }

  lemma MarkIsCurrent(s: Shard, op: Op, half: int)
    ensures op.key in MarkShard(s, op, half).cur && LookupShard(MarkShard(s, op, half), op.key).Some?
  {
  }

  function Run(r: Registry, ops: seq<Op>): Registry {
    if ops == [] then r else Mark(Run(r, ops[..|ops| - 1]), ops[|ops| - 1])
  }

  /** The marks one shard sees. */
  function Project(ops: seq<Op>, x: nat): seq<Op> {
    if ops == [] then []
    else
      var init := Project(ops[..|ops| - 1], x);
      if ShardIndex(ops[|ops| - 1].key) == x then init + [ops[|ops| - 1]] else init
  }

  lemma {:induction false} RunOnShard(r: Registry, ops: seq<Op>, x: nat)
    requires x < SHARDS
    ensures Run(r, ops).ttl == r.ttl
    ensures Run(r, ops).shards[x] == RunShard(r.shards[x], Project(ops, x), r.ttl / 2)
  {
    hide MarkShard;
    if ops != [] {
      var last := ops[|ops| - 1];
      var init := ops[..|ops| - 1];
      RunOnShard(r, init, x);
      if ShardIndex(last.key) == x {
        var p := Project(ops, x);
        assert p[..|p| - 1] == Project(init, x) && p[|p| - 1] == last;
      }
    }
  }

  lemma {:induction false} RunOk(r: Registry, ops: seq<Op>)
    requires Ok(r)
    ensures Ok(Run(r, ops))
  {
    if ops != [] {
      RunOk(r, ops[..|ops| - 1]);
      RegistryIsFlat(Run(r, ops[..|ops| - 1]), ops[|ops| - 1], ops[|ops| - 1].key);
    }
  }

  lemma {:induction false} RunAppend(r: Registry, a: seq<Op>, b: seq<Op>)
    ensures Run(r, a + b) == Run(Run(r, a), b)
    decreases |b|
  {
    if b == [] {
      assert a + b == a;
    } else {
      RunAppend(r, a, b[..|b| - 1]);
      assert (a + b)[..|a + b| - 1] == a + b[..|b| - 1];
    }
  }

  /** The memory window of a hash: `ops` age it out of its shard. */
  ghost predicate WindowClosed(r: Registry, ops: seq<Op>, k: Hash) {
    exists i, j :: AgedOut(ShardOf(r, k), Project(ops, ShardIndex(k)), r.ttl / 2, i, j)
  }

  /** A hash that was just marked is forgotten only when its shard rotated twice, the second time at
      least half a ttl, or a threshold's worth of entries, after the first. */
  lemma ForgettingClosesWindow(r: Registry, ops: seq<Op>, k: Hash)
    requires Ok(r) && k in ShardOf(r, k).cur && !Known(Run(r, ops), k)
    ensures WindowClosed(r, ops, k)
  {
    hide RunShard, AgedOut;
    var x := ShardIndex(k);
    RunOnShard(r, ops, x);
    var i, j := ForgettingTakesTwoRotations(r.shards[x], Project(ops, x), r.ttl / 2, k);
    assert AgedOut(ShardOf(r, k), Project(ops, x), r.ttl / 2, i, j);
  }

  /** So the documented age bound, ttl, is not kept on a shard with no traffic: a hash that is marked and
      left alone is still reported by the next mark of its shard, however late that is. */
  lemma IdleShardOutlivesTtl(r: Registry, op: Op, later: int, k: Hash)
    requires ShardIndex(k) == ShardIndex(op.key)
    ensures Known(AgedFor(Mark(r, op), Op(k, Delivered, later)), op.key)
    ensures k == op.key ==> MarkResult(Mark(r, op), Op(k, Delivered, later)).Some?
  {
    hide MarkShard;
    MarkIsCurrent(ShardOf(r, op.key), op, r.ttl / 2);
  }

  /** Exactly when the bound is kept: a marked hash that is left alone is forgotten if and only if its
      shard has rotated twice since. */
  lemma {:induction false} RegistryForgetsExactly(r: Registry, op: Op, ops: seq<Op>)
    requires forall i :: 0 <= i < |ops| ==> ops[i].key != op.key
    ensures var m, x := Mark(r, op), ShardIndex(op.key);
      !Known(Run(m, ops), op.key) <==> Rotations(m.shards[x], Project(ops, x), r.ttl / 2) >= 2
  {
    hide RunShard, Rotations, Run, Project;
    var m, x := Mark(r, op), ShardIndex(op.key);
    MarkIsCurrent(ShardOf(r, op.key), op, r.ttl / 2);
    RunOnShard(m, ops, x);
    ProjectKeeps(ops, x);
    ForgottenExactlyByRotations(m.shards[x], Project(ops, x), r.ttl / 2, op.key);
  }

  lemma {:induction false} ProjectKeeps(ops: seq<Op>, x: nat)
    ensures forall i :: 0 <= i < |Project(ops, x)| ==> Project(ops, x)[i] in ops
  {
    if ops != [] {
      ProjectKeeps(ops[..|ops| - 1], x);
    }
  }

  /** No mark of `ops` makes the registry forget `k`. */
  ghost predicate RemembersKey(r: Registry, ops: seq<Op>, k: Hash) {
    forall i :: 0 <= i < |ops| && Known(Run(r, ops[..i]), k) ==> Known(AgedFor(Run(r, ops[..i]), ops[i]), k)
  }

  /** No mark of `ops` makes the registry forget anything. */
  ghost predicate Remembers(r: Registry, ops: seq<Op>) {
    forall k :: RemembersKey(r, ops, k)
  }

  lemma RemembersPrefix(r: Registry, ops: seq<Op>, n: nat, k: Hash)
    requires RemembersKey(r, ops, k) && n <= |ops|
    ensures RemembersKey(r, ops[..n], k)
  {
    assert forall i :: 0 <= i < n ==> ops[..n][..i] == ops[..i];
  }

  /** A remembered key keeps its direction for good. */
  lemma {:induction false} DirectionsPersist(r: Registry, ops: seq<Op>, k: Hash)
    requires Ok(r) && RemembersKey(r, ops, k) && Known(r, k)
    ensures Lookup(Run(r, ops), k) == Lookup(r, k)
  {
    hide Mark, AgedFor, Lookup, Ok;
    if ops != [] {
      var n := |ops| - 1;
      var init := ops[..n];
      RemembersPrefix(r, ops, n, k);
      DirectionsPersist(r, init, k);
      assert Known(Run(r, ops[..n]), k) && Known(AgedFor(Run(r, ops[..n]), ops[n]), k);
      RunOk(r, init);
      RegistryIsFlat(Run(r, init), ops[n], k);
    }
  }

  /** Marks of other keys never make a key known, nor change how it is known. */
  lemma {:induction false} OthersDoNotMark(r: Registry, ops: seq<Op>, k: Hash)
    requires Ok(r) && forall i :: 0 <= i < |ops| ==> ops[i].key != k
    ensures Lookup(Run(r, ops), k) in {None, Lookup(r, k)}
  {
    hide Mark, AgedFor, Lookup, Ok;
    if ops != [] {
      var n := |ops| - 1;
      OthersDoNotMark(r, ops[..n], k);
      RunOk(r, ops[..n]);
      RegistryIsFlat(Run(r, ops[..n]), ops[n], k);
    }
  }

  lemma NothingToForget(r: Registry, k: Hash)
    ensures RemembersKey(r, [], k)
  {
  }

  /** A key known after marks of other keys was known all along. */
  lemma {:induction false} OthersRemember(r: Registry, ops: seq<Op>, k: Hash)
    requires Ok(r) && Known(Run(r, ops), k) && forall i :: 0 <= i < |ops| ==> ops[i].key != k
    ensures RemembersKey(r, ops, k) && Lookup(r, k) == Lookup(Run(r, ops), k)
  {
    hide Mark, AgedFor, Lookup, Ok;
    if ops != [] {
      var n := |ops| - 1;
      RunOk(r, ops[..n]);
      RegistryIsFlat(Run(r, ops[..n]), ops[n], k);
      OthersRemember(r, ops[..n], k);
      RemembersSnoc(r, ops[..n], ops[n], k);
      assert ops[..n] + [ops[n]] == ops;
    }
  }

  /** A mark that finds its key known forgets nothing of it. */
  lemma KnownMarkRemembers(r: Registry, op: Op)
    requires Ok(r) && MarkResult(r, op).Some?
    ensures RemembersKey(r, [op], op.key) && Lookup(Run(r, [op]), op.key) == Lookup(r, op.key)
  {
    hide Mark, AgedFor, Lookup, Ok;
    assert [op][..0] == [];
    RegistryIsFlat(r, op, op.key);
  }

  lemma RemembersSnoc(r: Registry, ops: seq<Op>, op: Op, k: Hash)
    requires RemembersKey(r, ops, k) && (Known(Run(r, ops), k) ==> Known(AgedFor(Run(r, ops), op), k))
    ensures RemembersKey(r, ops + [op], k)
  {
    hide Run, AgedFor, Known;
    var all := ops + [op];
    forall i | 0 <= i < |all| && Known(Run(r, all[..i]), k) ensures Known(AgedFor(Run(r, all[..i]), all[i]), k) {
      if i < |ops| {
        assert all[..i] == ops[..i];
      } else {
        assert all[..i] == ops;
      }
    }
  }

  lemma {:induction false} RemembersJoin(r: Registry, a: seq<Op>, b: seq<Op>, k: Hash)
    requires RemembersKey(r, a, k) && RemembersKey(Run(r, a), b, k)
    ensures RemembersKey(r, a + b, k)
    decreases |b|
  {
    hide Run, AgedFor, Known;
    if b == [] {
      assert a + b == a;
    } else {
      var n := |b| - 1;
      RemembersPrefix(Run(r, a), b, n, k);
      RemembersJoin(r, a, b[..n], k);
      RunAppend(r, a, b[..n]);
      assert Known(Run(Run(r, a), b[..n]), k) ==> Known(AgedFor(Run(Run(r, a), b[..n]), b[n]), k);
      RemembersSnoc(r, a + b[..n], b[n], k);
      assert a + b[..n] + [b[n]] == a + b;
    }
  }

  /** What a mark reports after marks of other keys: what was known before them, if it is not forgotten by
      then. */
  lemma MarkResultAfter(r: Registry, ops: seq<Op>, op: Op)
    requires Ok(r) && forall i :: 0 <= i < |ops| ==> ops[i].key != op.key
    ensures MarkResult(Run(r, ops), op) == if RemembersKey(r, ops + [op], op.key) then Lookup(r, op.key) else None
  {
    hide Mark, AgedFor, Lookup, Ok, RemembersKey, Run;
    RunOk(r, ops);
    RegistryIsFlat(Run(r, ops), op, op.key);
    if MarkResult(Run(r, ops), op).Some? {
      OthersRemember(r, ops, op.key);
      RemembersSnoc(r, ops, op, op.key);
    } else {
      OthersDoNotMark(r, ops, op.key);
      if RemembersKey(r, ops + [op], op.key) {
        LastIsRemembered(r, ops, op);
      }
    }
  }

  lemma LastIsRemembered(r: Registry, ops: seq<Op>, op: Op)
    requires Ok(r) && RemembersKey(r, ops + [op], op.key)
    ensures MarkResult(Run(r, ops), op).Some? || Lookup(r, op.key).None?
  {
    hide Mark, AgedFor, Lookup, Ok, Run;
    var all, n := ops + [op], |ops|;
    assert all[..n] == ops && all[n] == op;
    RemembersPrefix(r, all, n, op.key);
    if Known(r, op.key) {
      DirectionsPersist(r, ops, op.key);
      assert Known(Run(r, all[..n]), op.key);
    }
  }

  lemma {:induction false} MarkedIsKnown(r: Registry, ops: seq<Op>, i: nat)
    requires i < |ops| && Ok(r) && RemembersKey(r, ops, ops[i].key)
    ensures Known(Run(r, ops), ops[i].key)
  {
    hide Mark, AgedFor, Lookup, Ok;
    var n := |ops| - 1;
    var init := ops[..n];
    RunOk(r, init);
    RegistryIsFlat(Run(r, init), ops[n], ops[n].key);
    RegistryIsFlat(Run(r, init), ops[n], ops[i].key);
    if i < n {
      RemembersPrefix(r, ops, n, ops[i].key);
      MarkedIsKnown(r, init, i);
      assert Known(Run(r, ops[..n]), ops[i].key);
    }
  }

  // ---- Until the second rotation -------------------------------------------------

  predicate RotatesTwice(s: Shard, ops: seq<Op>, half: int) {
    exists i, j :: 0 <= i < j < |ops| && RotatesAt(s, ops, half, i) && RotatesAt(s, ops, half, j)
  }

  lemma {:induction false} PreviousNeedsRotation(s: Shard, ops: seq<Op>, half: int) returns (i: nat)
    requires s.prev == map[] && RunShard(s, ops, half).prev != map[]
    ensures i < |ops| && RotatesAt(s, ops, half, i)
  {
    var n := |ops| - 1;
    if Due(RunShard(s, ops[..n], half), ops[n].now, half) {
      i := n;
    } else {
      i := PreviousNeedsRotation(s, ops[..n], half);
      assert ops[..n][..i] == ops[..i];
    }
  }

  /** From an empty previous generation, losing a key at a mark means the shard rotated before. */
  lemma LossIsSecondRotation(s: Shard, ops: seq<Op>, half: int, n: nat, k: Hash)
    requires ShardOk(s) && s.prev == map[] && n < |ops|
    requires var r := RunShard(s, ops[..n], half);
      LookupShard(r, k).Some? && LookupShard(Aged(r, ops[n].now, half), k).None?
    ensures RotatesTwice(s, ops, half)
  {
    hide RunShard;
    var i := PreviousNeedsRotation(s, ops[..n], half);
    assert ops[..n][..i] == ops[..i];
    assert RotatesAt(s, ops, half, i) && RotatesAt(s, ops, half, n);
  }

  lemma {:induction false} ProjectPrefix(ops: seq<Op>, i: nat, x: nat)
    requires i <= |ops|
    ensures Project(ops[..i], x) <= Project(ops, x)
  {
    if i < |ops| {
      ProjectPrefix(ops[..|ops| - 1], i, x);
      assert ops[..|ops| - 1][..i] == ops[..i];
    } else {
      assert ops[..i] == ops;
    }
  }

  /** A registry whose shards start with an empty previous generation forgets nothing before some shard
      rotates for the second time. */
  lemma RemembersUntilSecondRotation(r: Registry, ops: seq<Op>, k: Hash)
    requires Ok(r) && ShardOf(r, k).prev == map[]
    requires !RotatesTwice(ShardOf(r, k), Project(ops, ShardIndex(k)), r.ttl / 2)
    ensures RemembersKey(r, ops, k)
  {
    hide RotatesTwice, LookupShard, Aged, RunShard, Run, ShardOk;
    var x := ShardIndex(k);
    forall i | 0 <= i < |ops| && Known(Run(r, ops[..i]), k)
      ensures Known(AgedFor(Run(r, ops[..i]), ops[i]), k)
    {
      RunOnShard(r, ops[..i], x);
      if ShardIndex(ops[i].key) == x && !Known(AgedFor(Run(r, ops[..i]), ops[i]), k) {
        var p, all := Project(ops[..i], x), Project(ops, x);
        ProjectPrefix(ops, i + 1, x);
        assert ops[..i + 1][..i] == ops[..i];
        assert all[..|p|] == p && all[|p|] == ops[i];
        LossIsSecondRotation(r.shards[x], all, r.ttl / 2, |p|, k);
      }
    }
  }

  lemma RemembersSegment(r: Registry, a: seq<Op>, b: seq<Op>, k: Hash)
    requires RemembersKey(r, a + b, k)
    ensures RemembersKey(Run(r, a), b, k)
  {
    hide Run, AgedFor, Known;
    var all := a + b;
    forall i | 0 <= i < |b| && Known(Run(Run(r, a), b[..i]), k)
      ensures Known(AgedFor(Run(Run(r, a), b[..i]), b[i]), k)
    {
      RunAppend(r, a, b[..i]);
      assert a + b[..i] == all[..|a| + i] && all[|a| + i] == b[i];
      assert Known(Run(r, all[..|a| + i]), k);
    }
  }

  // ---- Size and counters ---------------------------------------------------------

  /** The snapshot over all shards. */
  datatype Snapshot = Snapshot(entries: nat, hits: nat, adds: nat, pruned: nat)

  function Totals(shards: seq<Shard>): Snapshot {
    if shards == [] then Snapshot(0, 0, 0, 0)
    else
      var t, s := Totals(shards[..|shards| - 1]), shards[|shards| - 1];
      Snapshot(t.entries + |s.cur| + |s.prev|, t.hits + s.hits, t.adds + s.adds, t.pruned + s.pruned)
  }

  function Entries(shards: seq<Shard>): nat {
    Totals(shards).entries
  }

  lemma {:induction false} TotalsUpdate(shards: seq<Shard>, i: nat, s: Shard)
    requires i < |shards|
    ensures var t, t', o := Totals(shards), Totals(shards[i := s]), shards[i];
      && t'.entries + |o.cur| + |o.prev| == t.entries + |s.cur| + |s.prev| && t'.hits + o.hits == t.hits + s.hits
      && t'.adds + o.adds == t.adds + s.adds && t'.pruned + o.pruned == t.pruned + s.pruned
  {
    var n := |shards| - 1;
    if i < n {
      TotalsUpdate(shards[..n], i, s);
      assert shards[i := s][..n] == shards[..n][i := s];
    } else {
      assert shards[i := s][..n] == shards[..n];
    }
  }

  /** Marks that moved an entry from the previous generation of its shard to the current one. */
  function AllPromotions(r: Registry, ops: seq<Op>): nat {
    if ops == [] then 0
    else
      var init, op := ops[..|ops| - 1], ops[|ops| - 1];
      AllPromotions(r, init) + if Promotes(ShardOf(Run(r, init), op.key), op, r.ttl / 2) then 1 else 0
  }

  lemma MarkIsAccounted(s: Shard, op: Op, half: int)
    ensures var m := MarkShard(s, op, half);
      && m.adds - s.adds + (if Promotes(s, op, half) then 1 else 0) == Held(m) - Held(s)
      && m.hits + m.adds == s.hits + s.adds + 1
  {
  }

  /** The registry's own numbers, over every run: every mark is a hit or an add, and adds and promotions
      are the entries held and the entries pruned. */
  lemma {:induction false} RegistryIsAccounted(r: Registry, ops: seq<Op>)
    ensures var t0, t := Totals(r.shards), Totals(Run(r, ops).shards);
      && t.hits + t.adds == t0.hits + t0.adds + |ops|
      && t.adds - t0.adds + AllPromotions(r, ops) == t.entries + t.pruned - t0.entries - t0.pruned
  {
    hide MarkShard, Promotes;
    if ops != [] {
      var init, op := ops[..|ops| - 1], ops[|ops| - 1];
      var m := Run(r, init);
      RegistryIsAccounted(r, init);
      RunOnShard(r, init, 0);
      MarkIsAccounted(ShardOf(m, op.key), op, r.ttl / 2);
      TotalsUpdate(m.shards, ShardIndex(op.key), MarkShard(ShardOf(m, op.key), op, r.ttl / 2));
    }
  }

  lemma {:induction false} EntriesBound(shards: seq<Shard>, cap: nat)
    requires forall i :: 0 <= i < |shards| ==> ShardOk(shards[i]) && shards[i].cap == cap
    ensures Entries(shards) <= 2 * cap * |shards|
  {
    if shards != [] {
      EntriesBound(shards[..|shards| - 1], cap);
      assert 2 * cap * |shards| == 2 * cap * (|shards| - 1) + 2 * cap;
    }
  }

  /** The live set never exceeds the configured ceiling, after any run; below 128 entries it stays within
      one entry per generation and shard. */
  lemma RegistryIsBounded(ttl: int, defaultTtl: nat, maxEntries: int, start: int, ops: seq<Op>)
    ensures var r := Run(New(ttl, defaultTtl, maxEntries, start), ops);
      && Ok(r)
      && (maxEntries >= 128 ==> Entries(r.shards) <= maxEntries)
      && (0 < maxEntries < 128 ==> Entries(r.shards) <= 128)
      && (maxEntries <= 0 ==> Entries(r.shards) <= 0x10_0000)
  {
    hide RunShard, Run, Totals;
    var r0 := New(ttl, defaultTtl, maxEntries, start);
    var r := Run(r0, ops);
    var cap := PerShard(maxEntries);
    RunOk(r0, ops);
    forall x | 0 <= x < SHARDS ensures r.shards[x].cap == cap && ShardOk(r.shards[x]) {
      RunOnShard(r0, ops, x);
      RunKeepsOk(r0.shards[x], Project(ops, x), r0.ttl / 2);
    }
    EntriesBound(r.shards, cap);
  }

  // ---- What the capacity is good for ---------------------------------------------------

  /** The keys marked. */
  function Keys(ops: seq<Op>): set<Hash> {
    set op | op in ops :: op.key
  }

  /** The clock reads of the marks lie within `half` of the start. */
  predicate Within(ops: seq<Op>, start: int, half: int) {
    forall i :: 0 <= i < |ops| ==> start <= ops[i].now < start + half
  }

  /** The threshold is the 128th part of the ceiling, rounded down but at least one. */
  lemma CapacityIsShared(maxEntries: int)
    ensures var cap := PerShard(maxEntries);
      && (maxEntries >= 128 ==> 128 * cap <= maxEntries < 128 * (cap + 1))
      && (0 < maxEntries < 128 ==> cap == 1) && (maxEntries <= 0 ==> 128 * cap == 0x10_0000)
  {
  }

  /** A shard that sees no more keys than its threshold, within half a ttl, forgets none: it may rotate,
      but only once every key is in the current map. */
  lemma {:induction false} RoomyShardRemembers(start: int, cap: nat, ops: seq<Op>, half: int)
    requires cap >= 1 && |Keys(ops)| <= cap && Within(ops, start, half)
    ensures var s := RunShard(Empty(start, cap), ops, half);
      s.cur.Keys + s.prev.Keys == Keys(ops) && s.cap == cap && start <= s.rotated
  {
    if ops != [] {
      var n := |ops| - 1;
      var init, op := ops[..n], ops[n];
      KeysSnoc(init, op);
      assert init + [op] == ops;
      RoomyShardRemembers(start, cap, init, half);
      RoomyMark(RunShard(Empty(start, cap), init, half), op, start, half, Keys(init));
    }
  }

  lemma KeysSnoc(init: seq<Op>, op: Op)
    ensures Keys(init + [op]) == Keys(init) + {op.key} && |Keys(init)| <= |Keys(init + [op])|
  {
    assert forall x :: x in init + [op] <==> x in init || x == op;
    SetGrows(Keys(init), op.key);
  }

  lemma SetGrows(a: set<Hash>, k: Hash)
    ensures |a| <= |a + {k}| <= |a| + 1
  {
    if k in a {
      assert a + {k} == a;
    }
  }

  lemma {:induction false} RoomyMark(s: Shard, op: Op, start: int, half: int, keys: set<Hash>)
    requires s.cur.Keys + s.prev.Keys == keys && |keys + {op.key}| <= s.cap && start <= s.rotated
    requires start <= op.now < start + half
    ensures var r := MarkShard(s, op, half);
      r.cur.Keys + r.prev.Keys == keys + {op.key} && r.cap == s.cap && start <= r.rotated
  {
    hide MarkAged;
    var a := Aged(s, op.now, half);
    MarkAgedKeys(a, op);
    if Due(s, op.now, half) {
      SetGrows(keys, op.key);
      WholeSubset(s.cur.Keys, keys);
      assert a.cur.Keys == {} && a.prev.Keys == keys;
    }
    var r := MarkShard(s, op, half);
    assert r.cur.Keys + r.prev.Keys == (a.cur.Keys + a.prev.Keys) + {op.key};
  }

  lemma MarkAgedKeys(a: Shard, op: Op)
    ensures var r := MarkAged(a, op);
      && r.cur.Keys == a.cur.Keys + {op.key} && r.prev == a.prev && r.cap == a.cap && r.rotated == a.rotated
      && (op.key !in a.cur ==> |r.cur| == |a.cur| + 1)
  {
    InsertKeys(a.cur, op.key, op.dir);
    if op.key in a.prev {
      InsertKeys(a.cur, op.key, a.prev[op.key]);
    }
    if op.key in a.cur {
      assert a.cur.Keys + {op.key} == a.cur.Keys;
    }
  }

  lemma InsertKeys(m: map<Hash, Direction>, k: Hash, d: Direction)
    ensures m[k := d].Keys == m.Keys + {k} && (k !in m ==> |m[k := d]| == |m| + 1)
  {
  }

  lemma WholeSubset(a: set<Hash>, b: set<Hash>)
    requires a <= b && |a| >= |b|
    ensures a == b
  {
    assert b == a + (b - a);
  }

  lemma {:induction false} ProjectIsShard(ops: seq<Op>, x: nat)
    ensures forall op :: op in Project(ops, x) <==> op in ops && ShardIndex(op.key) == x
  {
    if ops != [] {
      ProjectIsShard(ops[..|ops| - 1], x);
      assert ops == ops[..|ops| - 1] + [ops[|ops| - 1]];
    }
  }

  /** The effective ttl of a new registry. */
  lemma TtlIsKept(ttl: int, defaultTtl: nat, maxEntries: int, start: int)
    ensures var r := New(ttl, defaultTtl, maxEntries, start);
      (ttl > 0 ==> r.ttl == ttl) && (ttl <= 0 ==> r.ttl == defaultTtl)
  {
  }

  /** What the configured capacity guarantees: from a new registry, for half the configured ttl, a shard that
      sees at most its share of `maxEntries`, a 128th, distinct hashes remembers every one of them. */
  lemma {:induction false} CapacityIsRemembered(ttl: int, defaultTtl: nat, maxEntries: int, start: int,
                                                ops: seq<Op>, k: Hash)
    requires k in Keys(ops)
    requires Within(Project(ops, ShardIndex(k)), start, (if ttl <= 0 then defaultTtl else ttl) / 2)
    requires var keys := Keys(Project(ops, ShardIndex(k)));
      |keys| <= 1 || 128 * |keys| <= if maxEntries <= 0 then 0x10_0000 else maxEntries
    ensures Known(Run(New(ttl, defaultTtl, maxEntries, start), ops), k)
  {
    hide RunShard, Run, Project, PerShard;
    var r, x := New(ttl, defaultTtl, maxEntries, start), ShardIndex(k);
    CapacityIsShared(maxEntries);
    RunOnShard(r, ops, x);
    RoomyShardRemembers(start, PerShard(maxEntries), Project(ops, x), r.ttl / 2);
    ProjectIsShard(ops, x);
    var op :| op in ops && op.key == k;
    assert op in Project(ops, x);
  }

  lemma RotationsSnoc(s: Shard, ops: seq<Op>, half: int, j: nat)
    requires j < |ops|
    ensures Rotations(s, ops[..j + 1], half) ==
      Rotations(s, ops[..j], half) + if Due(RunShard(s, ops[..j], half), ops[j].now, half) then 1 else 0
  {
    assert ops[..j + 1][..j] == ops[..j];
  }

  /** And as long as a shard has seen fewer than its share, it does not rotate at all. */
  lemma {:induction false} RoomyShardDoesNotRotate(start: int, cap: nat, ops: seq<Op>, half: int, m: nat)
    requires cap >= 1 && m <= |ops| && Within(ops, start, half) && (m > 0 ==> |Keys(ops[..m - 1])| < cap)
    ensures Rotations(Empty(start, cap), ops[..m], half) == 0
    ensures var s := RunShard(Empty(start, cap), ops[..m], half);
      s.cur.Keys == Keys(ops[..m]) && s.rotated == start && s.cap == cap
  {
    hide Keys, MarkShard, Due, RunShard, Rotations;
    if m == 0 {
      assert ops[..0] == [];
      NothingMarked(start, cap, half);
    } else {
      var n := m - 1;
      assert ops[..n] + [ops[n]] == ops[..m];
      KeysSnoc(ops[..n], ops[n]);
      if n > 0 {
        assert ops[..n - 1] + [ops[n - 1]] == ops[..n];
        KeysSnoc(ops[..n - 1], ops[n - 1]);
      }
      RoomyShardDoesNotRotate(start, cap, ops, half, n);
      QuietMark(RunShard(Empty(start, cap), ops[..n], half), ops[n], half);
      RunSnoc(Empty(start, cap), ops, half, n);
      RotationsSnoc(Empty(start, cap), ops, half, n);
    }
  }

  lemma NothingMarked(start: int, cap: nat, half: int)
    ensures Rotations(Empty(start, cap), [], half) == 0 && RunShard(Empty(start, cap), [], half) == Empty(start, cap)
    ensures Keys([]) == {}
  {
  }

  /** A mark below the threshold and within the time adds its key to the current map. */
  lemma QuietMark(s: Shard, op: Op, half: int)
    requires |s.cur.Keys| < s.cap && op.now - s.rotated < half
    ensures !Due(s, op.now, half)
    ensures var r := MarkShard(s, op, half);
      r.cur.Keys == s.cur.Keys + {op.key} && r.rotated == s.rotated && r.cap == s.cap
  {
    hide MarkAged;
    assert |s.cur| == |s.cur.Keys|;
    MarkAgedKeys(s, op);
  }

  // ---- Full registries -------------------------------------------------------------------

  /** The `i`th key of shard `x`. */
  function Key(x: byte, i: nat): Hash {
    [x] + ToBE(i, 31)
  }

  lemma {:induction false} KeysApart(x: byte, i: nat, j: nat)
    requires i < j < 4 * U64
    ensures Key(x, i) != Key(x, j)
  {
    Widths();
    assert Exp256(9) == 256 * Exp256(8);
    Exp256Grows(9, 31);
    hide ToBE, FromBE, Exp256;
    BigEndianReads(i, 31);
    BigEndianReads(j, 31);
    assert Key(x, i)[1..] == ToBE(i, 31) && Key(x, j)[1..] == ToBE(j, 31);
  }

  /** The first `n` keys of shard `x`, marked at one time. */
  function ShardFill(x: byte, n: nat, now: int): (ops: seq<Op>)
    ensures |ops| == n && forall i :: 0 <= i < n ==> ops[i] == Op(Key(x, i), Delivered, now)
  {
    seq(n, i requires 0 <= i < n => Op(Key(x, i), Delivered, now))
  }

  /** The keys are among the first `n` of shard `x`. */
  ghost predicate Numbered(keys: set<Hash>, x: byte, n: nat) {
    forall k :: k in keys ==> exists i :: 0 <= i < n && k == Key(x, i)
  }

  /** A shard filling up: one generation, then the other. */
  predicate Sized(s: Shard, start: int, cap: nat, n: nat) {
    && s.cap == cap && s.rotated == start
    && if n <= cap then |s.cur| == n && |s.prev| == 0 else |s.cur| == n - cap && |s.prev| == cap
  }

  ghost predicate Filled(s: Shard, x: byte, start: int, cap: nat, n: nat) {
    Sized(s, start, cap, n) && Numbered(s.cur.Keys + s.prev.Keys, x, n)
  }

  lemma {:induction false} NextIsNew(keys: set<Hash>, x: byte, n: nat)
    requires Numbered(keys, x, n) && n < 4 * U64
    ensures Key(x, n) !in keys && Numbered(keys + {Key(x, n)}, x, n + 1)
  {
    forall i | 0 <= i < n ensures Key(x, i) != Key(x, n) { KeysApart(x, i, n); }
  }

  /** A filling shard rotates when one generation is full, and not before or after. */
  lemma FillSizes(s: Shard, op: Op, cap: nat, n: nat, half: int)
    requires 1 <= cap && n < 2 * cap && (half >= 1 || cap == 1) && Sized(s, op.now, cap, n)
    requires op.key !in s.cur && op.key !in s.prev
    ensures Sized(MarkShard(s, op, half), op.now, cap, n + 1)
  {
    hide MarkAged;
    MarkAgedKeys(Aged(s, op.now, half), op);
  }

  lemma FillKeys(s: Shard, op: Op, half: int)
    ensures var r := MarkShard(s, op, half);
      r.cur.Keys + r.prev.Keys <= (s.cur.Keys + s.prev.Keys) + {op.key}
  {
    hide MarkAged;
    MarkAgedKeys(Aged(s, op.now, half), op);
  }

  lemma FillOne(s: Shard, x: byte, start: int, cap: nat, n: nat, half: int)
    requires 1 <= cap < U64 && n < 2 * cap && (half >= 1 || cap == 1) && Filled(s, x, start, cap, n)
    ensures Filled(MarkShard(s, Op(Key(x, n), Delivered, start), half), x, start, cap, n + 1)
  {
    hide Key, MarkShard, Numbered, Sized;
    var op := Op(Key(x, n), Delivered, start);
    var keys, r := s.cur.Keys + s.prev.Keys, MarkShard(s, op, half);
    NextIsNew(keys, x, n);
    FillSizes(s, op, cap, n, half);
    FillKeys(s, op, half);
    FewerAreNumbered(r.cur.Keys + r.prev.Keys, keys + {op.key}, x, n + 1);
  }

  lemma FewerAreNumbered(a: set<Hash>, b: set<Hash>, x: byte, n: nat)
    requires a <= b && Numbered(b, x, n)
    ensures Numbered(a, x, n)
  {
  }

  lemma EmptyIsFilled(x: byte, start: int, cap: nat)
    ensures Filled(Empty(start, cap), x, start, cap, 0)
  {
  }

  lemma {:induction false} FillFills(x: byte, start: int, cap: nat, n: nat, half: int)
    requires 1 <= cap < U64 && n <= 2 * cap && (half >= 1 || cap == 1)
    ensures Filled(RunShard(Empty(start, cap), ShardFill(x, n, start), half), x, start, cap, n)
  {
    hide MarkShard, Key, Filled, ShardFill;
    if n > 0 {
      FillFills(x, start, cap, n - 1, half);
      var ops := ShardFill(x, n, start);
      assert ops[..n - 1] == ShardFill(x, n - 1, start);
      FillOne(RunShard(Empty(start, cap), ops[..n - 1], half), x, start, cap, n - 1, half);
    } else {
      assert Filled(Empty(start, cap), x, start, cap, 0) by { EmptyIsFilled(x, start, cap); }
    }
  }

  /** The first `n` keys of each of the first `m` shards. */
  function Fill(m: nat, n: nat, now: int): seq<Op>
    requires m <= SHARDS
  {
    if m == 0 then [] else Fill(m - 1, n, now) + ShardFill(m - 1, n, now)
  }

  lemma {:induction false} ProjectAppend(a: seq<Op>, b: seq<Op>, x: nat)
    ensures Project(a + b, x) == Project(a, x) + Project(b, x)
    decreases |b|
  {
    if b == [] {
      assert a + b == a;
    } else {
      ProjectAppend(a, b[..|b| - 1], x);
      assert (a + b)[..|a + b| - 1] == a + b[..|b| - 1];
    }
  }

  lemma {:induction false} ProjectFill(y: byte, n: nat, now: int, x: nat)
    requires y < SHARDS
    ensures Project(ShardFill(y, n, now), x) == if x == y then ShardFill(y, n, now) else []
  {
    hide ShardFill, Key;
    if n > 0 {
      ProjectFill(y, n - 1, now, x);
      var all, init := ShardFill(y, n, now), ShardFill(y, n - 1, now);
      assert all[..n - 1] == init && init + [all[n - 1]] == all;
      KeyIsOfShard(y, n - 1);
    }
  }

  lemma KeyIsOfShard(x: byte, i: nat)
    requires x < SHARDS
    ensures ShardIndex(Key(x, i)) == x
  {
    hide ToBE;
  }

  lemma {:induction false} ProjectFills(m: nat, n: nat, now: int, x: nat)
    requires m <= SHARDS && x < SHARDS
    ensures Project(Fill(m, n, now), x) == if x < m then ShardFill(x, n, now) else []
  {
    hide Project, ShardFill;
    if m > 0 {
      ProjectFills(m - 1, n, now, x);
      ProjectAppend(Fill(m - 1, n, now), ShardFill(m - 1, n, now), x);
      ProjectFill(m - 1, n, now, x);
    } else {
      assert Project([], x) == [] by { ProjectNone(x); }
    }
  }

  lemma ProjectNone(x: nat)
    ensures Project([], x) == []
  {
  }

  lemma {:induction false} EntriesAreFull(shards: seq<Shard>, cap: nat)
    requires forall i :: 0 <= i < |shards| ==> |shards[i].cur| == cap == |shards[i].prev|
    ensures Entries(shards) == 2 * cap * |shards|
  {
    if shards != [] {
      EntriesAreFull(shards[..|shards| - 1], cap);
      assert 2 * cap * |shards| == 2 * cap * (|shards| - 1) + 2 * cap;
    }
  }

  /** The capacity is there to be used: marking twice its threshold of keys in each shard fills a registry to
      128 times that threshold. */
  lemma {:induction false} RegistryFillsUp(ttl: int, defaultTtl: nat, maxEntries: int, start: int)
    requires maxEntries < U64 && ((if ttl <= 0 then defaultTtl else ttl) >= 2 || 0 < maxEntries < 128)
    ensures var r := New(ttl, defaultTtl, maxEntries, start);
      Entries(Run(r, Fill(SHARDS, 2 * PerShard(maxEntries), start)).shards) == 128 * PerShard(maxEntries)
  {
    hide RunShard, Run, Project, Fill, ShardFill;
    var r, cap := New(ttl, defaultTtl, maxEntries, start), PerShard(maxEntries);
    CapacityIsShared(maxEntries);
    var ops := Fill(SHARDS, 2 * cap, start);
    var f := Run(r, ops);
    forall x | 0 <= x < SHARDS ensures |f.shards[x].cur| == cap == |f.shards[x].prev| {
      RunOnShard(r, ops, x);
      ProjectFills(SHARDS, 2 * cap, start, x);
      FillFills(x, start, cap, 2 * cap, r.ttl / 2);
    }
    EntriesAreFull(f.shards, cap);
  }

  /** Below 128 the documented ceiling is exceeded: two marks in each shard make 128 entries. */
  lemma SmallCeilingIsExceeded(ttl: int, defaultTtl: nat, maxEntries: int, start: int)
    requires 0 < maxEntries < 128
    ensures Entries(Run(New(ttl, defaultTtl, maxEntries, start), Fill(SHARDS, 2, start)).shards) == 128
  {
    hide Run, Fill;
    CapacityIsShared(maxEntries);
    RegistryFillsUp(ttl, defaultTtl, maxEntries, start);
  }

  /** The entries a registry is documented to hold at most. */
  function Ceiling(maxEntries: int): int {
    if maxEntries <= 0 then 0x10_0000 else maxEntries
  }

  /** The documented ceiling holds over every run exactly when it was defaulted or is at least 128. */
  lemma CeilingIsExact(ttl: int, defaultTtl: nat, maxEntries: int, start: int)
    ensures var r := New(ttl, defaultTtl, maxEntries, start);
      (forall ops :: Entries(Run(r, ops).shards) <= Ceiling(maxEntries)) <==> maxEntries <= 0 || maxEntries >= 128
  {
    hide Run, Fill, New, Entries;
    if 0 < maxEntries < 128 {
      SmallCeilingIsExceeded(ttl, defaultTtl, maxEntries, start);
    } else {
      forall ops ensures Entries(Run(New(ttl, defaultTtl, maxEntries, start), ops).shards) <= Ceiling(maxEntries) {
        RegistryIsBounded(ttl, defaultTtl, maxEntries, start, ops);
      }
    }
  }
}

/** The registry as it runs: shards updated in place, each behind its own lock. */
module RegistryObjects {
  import opened Bytes
  import opened Registries
  import R = Registries

  class ShardObject {
    var cur: map<Hash, Direction>
    var prev: map<Hash, Direction>
    var rotated: int
    const cap: nat
    var hits: nat
    var adds: nat
    var pruned: nat

    ghost function Value(): Shard
      reads this
    {
      Shard(cur, prev, rotated, cap, hits, adds, pruned)
    }

    constructor (start: int, cap: nat)
      ensures Value() == Empty(start, cap)
    {
      cur, prev, rotated, this.cap := map[], map[], start, cap;
      hits, adds, pruned := 0, 0, 0;
    }

    method RotateLocked(now: int)
      modifies this
      ensures Value() == Rotate(old(Value()), now)
    {
      pruned := pruned + |prev|;
      prev := cur;
      cur := map[];
      rotated := now;
    }

    method Mark(op: Op, half: int) returns (known: Option<Direction>)
      modifies this
      ensures Value() == MarkShard(old(Value()), op, half)
      ensures known == LookupShard(Aged(old(Value()), op.now, half), op.key)
    {
      if op.now - rotated >= half || |cur| >= cap {
        RotateLocked(op.now);
      }
      if op.key in cur {
        hits := hits + 1;
        return Some(cur[op.key]);
      }
      if op.key in prev {
        hits := hits + 1;
        cur := cur[op.key := prev[op.key]];
        return Some(prev[op.key]);
      }
      cur := cur[op.key := op.dir];
      adds := adds + 1;
      return None;
    }

    method Lookup(k: Hash) returns (known: Option<Direction>)
      ensures known == LookupShard(Value(), k)
    {
      if k in cur {
        return Some(cur[k]);
      }
      if k in prev {
        return Some(prev[k]);
      }
      return None;
    }
  }

  class RegistryObject {
    const s: seq<ShardObject>
    const ttl: int

    ghost predicate Valid() {
      |s| == SHARDS && ttl >= 0 && forall i, j :: 0 <= i < j < SHARDS ==> s[i] != s[j]
    }

    ghost function Value(): Registry
      requires Valid()
      reads s
    {
      Table(seq(SHARDS, i requires 0 <= i < SHARDS reads s => s[i].Value()), ttl)
    }

    constructor (ttl: int, defaultTtl: nat, maxEntries: int, start: int)
      ensures Valid() && fresh(s) && Value() == New(ttl, defaultTtl, maxEntries, start)
    {
      var built: seq<ShardObject> := [];
      var per := PerShard(maxEntries);
      while |built| < SHARDS
        invariant |built| <= SHARDS && fresh(built)
        invariant forall i, j :: 0 <= i < j < |built| ==> built[i] != built[j]
        invariant forall i :: 0 <= i < |built| ==> built[i].Value() == Empty(start, per)
      {
        var shard := new ShardObject(start, per);
        built := built + [shard];
      }
      s := built;
      this.ttl := if ttl <= 0 then defaultTtl else ttl;
      new;
      assert Value().shards == New(ttl, defaultTtl, maxEntries, start).shards;
    }

    method Mark(op: Op) returns (known: Option<Direction>)
      requires Valid()
      modifies s
      ensures Value() == R.Mark(old(Value()), op)
      ensures known == MarkResult(old(Value()), op)
    {
      known := s[ShardIndex(op.key)].Mark(op, ttl / 2);
      assert Value().shards == R.Mark(old(Value()), op).shards;
    }

    method Lookup(k: Hash) returns (known: Option<Direction>)
      requires Valid()
      ensures known == R.Lookup(Value(), k)
    {
      known := s[ShardIndex(k)].Lookup(k);
    }

    method Stats() returns (st: Snapshot)
      requires Valid()
      ensures st == Totals(Value().shards)
    {
      st := Snapshot(0, 0, 0, 0);
      for i := 0 to SHARDS
        invariant st == Totals(Value().shards[..i])
      {
        assert Value().shards[..i + 1][..i] == Value().shards[..i];
        st := Snapshot(st.entries + |s[i].cur| + |s[i].prev|, st.hits + s[i].hits, st.adds + s[i].adds,
                       st.pruned + s[i].pruned);
      }
      assert Value().shards[..SHARDS] == Value().shards;
    }
  }
}
