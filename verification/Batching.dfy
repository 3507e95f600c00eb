/**
 The transaction pipe's builder (internal/txpipe/txpipe.go): accumulate, seal, never mix a parent with
 a later child.
 */
module Batching {
  import opened Bytes
  import Transactions

  datatype Job = Job(raw: seq<byte>, id: Hash)

  /** Pipe sizes, as configured; `Txs` and the others apply the defaults and the server's caps. */
  datatype Config = Config(batchTxs: int, batchBytes: int, inflight: int, retryAttempts: int, ladder: nat) {
    function Txs(): (n: nat)
      ensures 1 <= n <= 1023 && (0 < batchTxs <= 1023 ==> n == batchTxs) && (batchTxs <= 0 ==> n == 512)
    {
      if batchTxs <= 0 then 512 else if batchTxs > 1023 then 1023 else batchTxs
    }

    function MaxBytes(): (n: nat)
      ensures 1 <= n <= 30 * 0x10_0000 && (0 < batchBytes <= 30 * 0x10_0000 ==> n == batchBytes)
      ensures batchBytes <= 0 ==> n == 8 * 0x10_0000
    {
      if batchBytes <= 0 then 8 * 0x10_0000 else if batchBytes > 30 * 0x10_0000 then 30 * 0x10_0000 else batchBytes
    }

    function Inflight(): (n: nat)
      ensures n >= 1 && (inflight > 0 ==> n == inflight) && (inflight <= 0 ==> n == 4)
    {
      if inflight <= 0 then 4 else inflight
    }

    function Retries(): (n: nat)
      ensures (retryAttempts > 0 ==> n == retryAttempts) && (retryAttempts <= 0 ==> n == 0)
    {
      if retryAttempts <= 0 then 0 else retryAttempts
    }
  }

  /** A batch; `drained` records how many of its jobs, the last ones, the shutdown arm appended. */
  datatype Batch = Batch(jobs: seq<Job>, ids: set<Hash>, body: seq<byte>, drained: nat) {
    /** The jobs that went through the checks. */
    function Checked(): seq<Job> {
      if drained == 0 then jobs else if drained <= |jobs| then jobs[..|jobs| - drained] else []
    }
  }

  const EMPTY: Batch := Batch([], {}, [], 0)

  function Body(jobs: seq<Job>): seq<byte> {
    if jobs == [] then [] else Body(jobs[..|jobs| - 1]) + jobs[|jobs| - 1].raw
  }

  function Ids(jobs: seq<Job>): set<Hash> {
    set j | j in jobs :: j.id
  }

  /** No job spends one that stands before it. */
  ghost predicate NoParentFirst(jobs: seq<Job>) {
    forall i, k :: 0 <= i < k < |jobs| ==> jobs[i].id !in Transactions.Inputs(jobs[k].raw).refs
  }

  function Append(b: Batch, j: Job): Batch {
    b.(jobs := b.jobs + [j], ids := b.ids + {j.id}, body := b.body + j.raw)
  }

  predicate Full(b: Batch, c: Config) {
    |b.jobs| >= c.Txs() || |b.body| >= c.MaxBytes()
  }

  /** The batches sealed so far, and the open one. */
  datatype Builder = Builder(sealed: seq<Batch>, cur: Batch)

  function Seal(b: Builder): Builder {
    if b.cur.jobs == [] then b else Builder(b.sealed + [b.cur], EMPTY)
  }

  /** One job: its parent's batch is sealed first, and a full batch is sealed after. */
  function Add(b: Builder, j: Job, c: Config): Builder {
    var b1 := if Transactions.Spends(j.raw, b.cur.ids) then Seal(b) else b;
    var b2 := b1.(cur := Append(b1.cur, j));
    if Full(b2.cur, c) then Seal(b2) else b2
  }

  function AddRun(b: Builder, js: seq<Job>, c: Config): Builder {
    if js == [] then b else Add(AddRun(b, js[..|js| - 1], c), js[|js| - 1], c)
  }

  /** The shutdown arm: no dependency check, no ids, no size cap. */
  function Drain(b: Builder, js: seq<Job>): Builder {
    b.(cur := b.cur.(jobs := b.cur.jobs + js, body := b.cur.body + Body(js), drained := b.cur.drained + |js|))
  }

  // ---- What sealing guarantees --------------------------------------------------------

  /** The part of a batch that went through the checks keeps the contract and has room left. */
  ghost predicate CheckedOk(b: Batch, c: Config) {
    && b.drained <= |b.jobs| && NoParentFirst(b.Checked())
    && |b.Checked()| < c.Txs() && |Body(b.Checked())| < c.MaxBytes()
  }

  ghost predicate OpenOk(b: Batch, c: Config) {
    b.body == Body(b.jobs) && b.ids == Ids(b.Checked()) && CheckedOk(b, c)
  }

  /** A sealed batch: its body is its jobs, and outside the shutdown arm it keeps the batch contract
      and the server's caps, overshooting the byte cap by less than its last transaction. */
  ghost predicate SealedOk(b: Batch, c: Config) {
    && b.jobs != [] && b.body == Body(b.jobs) && (b.drained > 0 ==> CheckedOk(b, c))
    && (b.drained == 0 ==> NoParentFirst(b.jobs) && |b.jobs| <= c.Txs())
    && (b.drained == 0 ==> |b.body| < c.MaxBytes() + |b.jobs[|b.jobs| - 1].raw|)
  }

  ghost predicate BuilderOk(b: Builder, c: Config) {
    OpenOk(b.cur, c) && forall i :: 0 <= i < |b.sealed| ==> SealedOk(b.sealed[i], c)
  }

  /** Everything the builder took, in order. */
  function Taken(b: Builder): seq<Job> {
    Jobs(b.sealed) + b.cur.jobs
  }

  function Jobs(batches: seq<Batch>): seq<Job> {
    if batches == [] then [] else Jobs(batches[..|batches| - 1]) + batches[|batches| - 1].jobs
  }

  lemma JobsSnoc(batches: seq<Batch>, b: Batch)
    ensures Jobs(batches + [b]) == Jobs(batches) + b.jobs
  {
    assert (batches + [b])[..|batches|] == batches;
  }

  lemma {:induction false} JobsFront(batches: seq<Batch>)
    requires batches != []
    ensures Jobs(batches) == batches[0].jobs + Jobs(batches[1..])
  {
    var n := |batches| - 1;
    if n == 0 {
      assert batches[..0] == [] == batches[1..];
    } else {
      JobsFront(batches[..n]);
      assert batches[..n][1..] == batches[1..][..n - 1];
      assert batches[0].jobs + Jobs(batches[1..][..n - 1]) + batches[n].jobs
          == batches[0].jobs + (Jobs(batches[1..][..n - 1]) + batches[n].jobs);
    }
  }

  lemma AppendKeepsContract(b: Batch, j: Job)
    requires b.body == Body(b.jobs) && b.ids == Ids(b.jobs) && NoParentFirst(b.jobs)
    requires !Transactions.Spends(j.raw, b.ids)
    ensures var r := Append(b, j); r.body == Body(r.jobs) && r.ids == Ids(r.jobs) && NoParentFirst(r.jobs)
  {
    hide Transactions.Inputs;
    var r := Append(b, j);
    assert r.jobs[..|b.jobs|] == b.jobs;
    assert r.ids == Ids(r.jobs) by {
      assert forall x :: x in r.jobs <==> x in b.jobs || x == j;
    }
    forall i, k | 0 <= i < k < |r.jobs| ensures r.jobs[i].id !in Transactions.Inputs(r.jobs[k].raw).refs {
      assert r.jobs[i] in b.jobs;
      assert r.jobs[i].id in b.ids;
    }
  }

  lemma SealKeepsOk(b: Builder, c: Config)
    requires forall i :: 0 <= i < |b.sealed| ==> SealedOk(b.sealed[i], c)
    requires b.cur.jobs != [] ==> SealedOk(b.cur, c)
    requires b.cur.jobs == [] ==> OpenOk(b.cur, c)
    ensures BuilderOk(Seal(b), c) && Taken(Seal(b)) == Taken(b)
    ensures b.cur.jobs != [] ==> Seal(b).cur == EMPTY
  {
    hide OpenOk, SealedOk, Jobs;
    JobsSnoc(b.sealed, b.cur);
    EmptyIsOpen(c);
    assert Jobs(b.sealed) + b.cur.jobs + [] == Jobs(b.sealed) + b.cur.jobs;
  }

  lemma EmptyIsOpen(c: Config)
    ensures OpenOk(EMPTY, c)
  {
    assert Body([]) == [];
  }

  lemma OpenIsSealable(b: Batch, c: Config)
    requires OpenOk(b, c) && b.jobs != []
    ensures SealedOk(b, c)
  {
  }

  /** Adding a job outside the shutdown arm keeps every guarantee and loses and reorders nothing. */
  lemma AddKeepsOk(b: Builder, j: Job, c: Config)
    requires BuilderOk(b, c) && b.cur.drained == 0
    ensures BuilderOk(Add(b, j, c), c) && Add(b, j, c).cur.drained == 0
    ensures Taken(Add(b, j, c)) == Taken(b) + [j]
  {
    hide Transactions.Spends, Body, NoParentFirst, Jobs;
    var b1 := if Transactions.Spends(j.raw, b.cur.ids) then Seal(b) else b;
    SealedFirst(b, j, c);
    var b2 := b1.(cur := Append(b1.cur, j));
    AppendKeepsContract(b1.cur, j);
    assert Taken(b2) == Taken(b1) + [j];
    if Full(b2.cur, c) {
      SealKeepsOk(b2, c);
    }
  }

  /** After the dependency check the open batch holds no parent of the job. */
  lemma SealedFirst(b: Builder, j: Job, c: Config)
    requires BuilderOk(b, c) && b.cur.drained == 0
    ensures var b1 := if Transactions.Spends(j.raw, b.cur.ids) then Seal(b) else b;
      BuilderOk(b1, c) && b1.cur.drained == 0 && Taken(b1) == Taken(b) && !Transactions.Spends(j.raw, b1.cur.ids)
  {
    hide Transactions.Inputs;
    if Transactions.Spends(j.raw, b.cur.ids) {
      assert b.cur.jobs != [];
      OpenIsSealable(b.cur, c);
      SealKeepsOk(b, c);
    }
  }

  /** Nothing is sealed without need: a job leaves the batch open exactly when it spends no member and
      both caps still have room after it. */
  lemma SealsOnlyWhenNeeded(b: Builder, j: Job, c: Config)
    requires BuilderOk(b, c) && b.cur.drained == 0
    ensures Add(b, j, c).sealed == b.sealed <==>
      && (forall i :: 0 <= i < |b.cur.jobs| ==> b.cur.jobs[i].id !in Transactions.Inputs(j.raw).refs)
      && |b.cur.jobs| + 1 < c.Txs() && |b.cur.body| + |j.raw| < c.MaxBytes()
  {
    hide Transactions.Inputs, NoParentFirst, Body;
    var refs := Transactions.Inputs(j.raw).refs;
    if Transactions.Spends(j.raw, b.cur.ids) {
      var h :| h in refs && h in b.cur.ids;
      var m :| m in b.cur.jobs && m.id == h;
      assert |Seal(b).sealed| == |b.sealed| + 1;
    } else {
      forall i | 0 <= i < |b.cur.jobs| ensures b.cur.jobs[i].id !in refs {
        assert b.cur.jobs[i].id in b.cur.ids;
      }
    }
  }

  lemma {:induction false} AddRunKeepsOk(b: Builder, js: seq<Job>, c: Config)
    requires BuilderOk(b, c) && b.cur.drained == 0
    ensures BuilderOk(AddRun(b, js, c), c) && AddRun(b, js, c).cur.drained == 0
    ensures Taken(AddRun(b, js, c)) == Taken(b) + js
  {
    hide BuilderOk, Add, Taken;
    if js == [] {
      assert Taken(b) + js == Taken(b);
    } else {
      var init, j := js[..|js| - 1], js[|js| - 1];
      AddRunKeepsOk(b, init, c);
      AddKeepsOk(AddRun(b, init, c), j, c);
      assert Taken(b) + init + [j] == Taken(b) + js;
    }
  }

  lemma {:induction false} BodyConcat(a: seq<Job>, b: seq<Job>)
    ensures Body(a + b) == Body(a) + Body(b)
    decreases |b|
  {
    if b == [] {
      assert a + b == a;
    } else {
      BodyConcat(a, b[..|b| - 1]);
      assert (a + b)[..|a + b| - 1] == a + b[..|b| - 1];
    }
  }

  lemma DrainSkipsChecks(b: Batch, js: seq<Job>)
    requires b.drained <= |b.jobs|
    ensures Drain(Builder([], b), js).cur.Checked() == b.Checked()
  {
    var r := Drain(Builder([], b), js).cur;
    assert (b.jobs + js)[..|b.jobs| - b.drained] == b.jobs[..|b.jobs| - b.drained];
  }

  /** The shutdown arm keeps order, content and every batch sealed before it. */
  lemma DrainKeepsOrder(b: Builder, js: seq<Job>, c: Config)
    requires BuilderOk(b, c)
    ensures BuilderOk(Drain(b, js), c) && Taken(Drain(b, js)) == Taken(b) + js
  {
    hide Body, NoParentFirst, Ids, Jobs, SealedOk, Batch.Checked;
    BodyConcat(b.cur.jobs, js);
    DrainSkipsChecks(b.cur, js);
    assert Jobs(b.sealed) + (b.cur.jobs + js) == Taken(b) + js;
  }

  // ---- What the shutdown arm gives up -----------------------------------------------------

  /** The batch contract is the dependency check at every job, against all jobs before it. */
  lemma ContractIsGuard(jobs: seq<Job>)
    ensures NoParentFirst(jobs) <==>
      forall k :: 0 <= k < |jobs| ==> !Transactions.Spends(jobs[k].raw, Ids(jobs[..k]))
  {
    hide Transactions.Inputs;
    if NoParentFirst(jobs) {
      forall k | 0 <= k < |jobs| ensures !Transactions.Spends(jobs[k].raw, Ids(jobs[..k])) {
        assert forall j :: j in jobs[..k] ==> exists i :: 0 <= i < k && jobs[i] == j;
      }
    } else {
      var i, k :| 0 <= i < k < |jobs| && jobs[i].id in Transactions.Inputs(jobs[k].raw).refs;
      assert jobs[..k][i] == jobs[i] && jobs[i] in jobs[..k];
      assert jobs[i].id in Ids(jobs[..k]);
      assert Transactions.Spends(jobs[k].raw, Ids(jobs[..k]));
    }
  }

  /** No job that the shutdown arm appended spends a job before it: the check it skips would not fire. */
  ghost predicate DrainIsClean(b: Batch) {
    forall k :: |b.Checked()| <= k < |b.jobs| ==> !Transactions.Spends(b.jobs[k].raw, Ids(b.jobs[..k]))
  }

  /** What a batch that the shutdown arm appended to keeps, exactly: the contract when the skipped check
      would not have fired on an appended job, the transaction cap when the appended jobs fit beside the
      checked ones, the byte cap when the bytes before the last job fit. */
  lemma DrainedIsExact(b: Batch, c: Config)
    requires b.drained > 0 && CheckedOk(b, c) && b.body == Body(b.jobs)
    ensures NoParentFirst(b.jobs) <==> DrainIsClean(b)
    ensures |b.jobs| <= c.Txs() <==> |b.Checked()| + b.drained <= c.Txs()
    ensures |b.body| < c.MaxBytes() + |b.jobs[|b.jobs| - 1].raw| <==> |Body(b.jobs[..|b.jobs| - 1])| < c.MaxBytes()
  {
    hide Transactions.Spends, NoParentFirst;
    ContractIsGuard(b.jobs);
    ContractIsGuard(b.Checked());
    var n := |b.Checked()|;
    forall k | 0 <= k < n ensures !Transactions.Spends(b.jobs[k].raw, Ids(b.jobs[..k])) {
      assert b.Checked()[..k] == b.jobs[..k];
    }
  }

  /** The same before the fact, for everything queued at shutdown. */
  lemma DrainIsExact(b: Builder, js: seq<Job>, c: Config)
    requires BuilderOk(b, c) && b.cur.drained == 0 && js != []
    ensures var r := Drain(b, js).cur;
      && (NoParentFirst(r.jobs) <==>
            forall k :: 0 <= k < |js| ==> !Transactions.Spends(js[k].raw, Ids(b.cur.jobs + js[..k])))
      && (|r.jobs| <= c.Txs() <==> |b.cur.jobs| + |js| <= c.Txs())
      && (|r.body| < c.MaxBytes() + |js[|js| - 1].raw| <==> |b.cur.body| + |Body(js[..|js| - 1])| < c.MaxBytes())
  {
    hide Transactions.Spends, NoParentFirst, Body, CheckedOk, Ids, SealedOk;
    var r := Drain(b, js).cur;
    DrainKeepsOrder(b, js, c);
    DrainSkipsChecks(b.cur, js);
    DrainedIsExact(r, c);
    assert r.jobs[..|r.jobs| - 1] == b.cur.jobs + js[..|js| - 1];
    BodyConcat(b.cur.jobs, js[..|js| - 1]);
    GuardShifts(b.cur.jobs, js);
  }

  lemma GuardShifts(a: seq<Job>, js: seq<Job>)
    ensures (forall k :: |a| <= k < |a + js| ==> !Transactions.Spends((a + js)[k].raw, Ids((a + js)[..k]))) <==>
      forall k :: 0 <= k < |js| ==> !Transactions.Spends(js[k].raw, Ids(a + js[..k]))
  {
    hide Transactions.Spends, Ids;
    var r, n := a + js, |a|;
    forall k | 0 <= k < |js| ensures r[n + k] == js[k] && r[..n + k] == a + js[..k] { }
    if forall k :: n <= k < |r| ==> !Transactions.Spends(r[k].raw, Ids(r[..k])) {
      forall k | 0 <= k < |js| ensures !Transactions.Spends(js[k].raw, Ids(a + js[..k])) {
        assert !Transactions.Spends(r[n + k].raw, Ids(r[..n + k]));
      }
    }
    if forall k :: 0 <= k < |js| ==> !Transactions.Spends(js[k].raw, Ids(a + js[..k])) {
      forall k | n <= k < |r| ensures !Transactions.Spends(r[k].raw, Ids(r[..k])) {
        assert r[k] == js[k - n] && r[..k] == a + js[..k - n];
      }
    }
  }

  // ---- Subsequences -----------------------------------------------------------------------

  /** `a` is `b` with jobs left out, `f` says which were kept. */
  ghost predicate Keeps(a: seq<Job>, b: seq<Job>, f: seq<nat>) {
    && |f| == |a| && (forall i :: 0 <= i < |a| ==> f[i] < |b| && a[i] == b[f[i]])
    && forall i, k :: 0 <= i < k < |a| ==> f[i] < f[k]
  }

  ghost predicate Subsequence(a: seq<Job>, b: seq<Job>) {
    exists f :: Keeps(a, b, f)
  }

  lemma WholeIsSubsequence(a: seq<Job>)
    ensures Subsequence(a, a)
  {
    assert Keeps(a, a, seq(|a|, i => i));
  }

  lemma SubsequenceIsTransitive(a: seq<Job>, b: seq<Job>, c: seq<Job>)
    requires Subsequence(a, b) && Subsequence(b, c)
    ensures Subsequence(a, c)
  {
    var f :| Keeps(a, b, f);
    var g :| Keeps(b, c, g);
    var h := seq(|a|, i requires 0 <= i < |a| => g[f[i]]);
    assert Keeps(a, c, h);
  }

  lemma SubsequenceGrows(a: seq<Job>, b: seq<Job>, x: seq<Job>)
    requires Subsequence(a, b)
    ensures Subsequence(a, b + x) && Subsequence(a + x, b + x)
  {
    var f :| Keeps(a, b, f);
    assert Keeps(a, b + x, f);
    assert Keeps(a + x, b + x, f + seq(|x|, i => |b| + i));
  }

  lemma PartsAreSubsequences(a: seq<Job>, b: seq<Job>)
    ensures Subsequence(a, a + b) && Subsequence(b, a + b)
  {
    assert Keeps(a, a + b, seq(|a|, i => i));
    assert Keeps(b, a + b, seq(|b|, i => |a| + i));
  }

  lemma {:induction false} SubsequenceIsSmaller(a: seq<Job>, b: seq<Job>)
    requires Subsequence(a, b)
    ensures |a| <= |b| && |Body(a)| <= |Body(b)|
    decreases |b|
  {
    if a != [] {
      var f :| Keeps(a, b, f);
      var n, m := |a| - 1, |b| - 1;
      if f[n] == m {
        assert Keeps(a[..n], b[..m], f[..n]);
        SubsequenceIsSmaller(a[..n], b[..m]);
      } else {
        assert Keeps(a, b[..m], f);
        SubsequenceIsSmaller(a, b[..m]);
      }
    }
  }

  /** Whatever is left out of a batch, the batch contract holds of the rest. */
  lemma SubsequenceKeepsContract(a: seq<Job>, b: seq<Job>)
    requires Subsequence(a, b) && NoParentFirst(b)
    ensures NoParentFirst(a)
  {
    hide Transactions.Inputs;
    var f :| Keeps(a, b, f);
    forall i, k | 0 <= i < k < |a| ensures a[i].id !in Transactions.Inputs(a[k].raw).refs {
      assert f[i] < f[k];
    }
  }

  // ---- The server's contract ------------------------------------------------------------------

  /** No job spends one that stands after it: parents come before their children. */
  ghost predicate ParentsFirst(jobs: seq<Job>) {
    forall i, k :: 0 <= i < k < |jobs| ==> jobs[k].id !in Transactions.Inputs(jobs[i].raw).refs
  }

  /** What the server asks of a request, which it processes in no order: no job spends another. */
  ghost predicate Unrelated(jobs: seq<Job>) {
    forall i, k :: 0 <= i < |jobs| && 0 <= k < |jobs| && i != k ==>
      jobs[i].id !in Transactions.Inputs(jobs[k].raw).refs
  }

  lemma UnrelatedIsTwoSided(jobs: seq<Job>)
    ensures Unrelated(jobs) <==> NoParentFirst(jobs) && ParentsFirst(jobs)
  {
    hide Transactions.Inputs;
  }

  lemma SubsequenceKeepsParentsFirst(a: seq<Job>, b: seq<Job>)
    requires Subsequence(a, b) && ParentsFirst(b)
    ensures ParentsFirst(a)
  {
    hide Transactions.Inputs;
    var f :| Keeps(a, b, f);
    forall i, k | 0 <= i < k < |a| ensures a[k].id !in Transactions.Inputs(a[i].raw).refs {
      assert f[i] < f[k];
    }
  }

  /** The builder enforces one side only: a batch sealed outside the shutdown arm meets the server's contract
      exactly when no member spends a later one. */
  lemma SealedMeetsServer(b: Batch, c: Config)
    requires SealedOk(b, c) && b.drained == 0
    ensures Unrelated(b.jobs) <==> ParentsFirst(b.jobs)
  {
    hide NoParentFirst, ParentsFirst, Unrelated;
    UnrelatedIsTwoSided(b.jobs);
  }

  /** A child that arrives before its parent is batched with it, as long as the caps leave room for both. */
  lemma ChildFirstIsBatchedTogether(c: Config, child: Job, parent: Job)
    requires child.id !in Transactions.Inputs(parent.raw).refs
    requires c.Txs() >= 2 && |child.raw| < c.MaxBytes()
    ensures var b := Batch([child, parent], {child.id, parent.id}, child.raw + parent.raw, 0);
      Seal(AddRun(Builder([], EMPTY), [child, parent], c)) == Builder([b], EMPTY)
    ensures AddRun(Builder([], EMPTY), [child, parent], c).sealed == [] ||
      AddRun(Builder([], EMPTY), [child, parent], c) == Seal(AddRun(Builder([], EMPTY), [child, parent], c))
  {
    hide Transactions.Inputs;
    var b0, js := Builder([], EMPTY), [child, parent];
    assert js[..1] == [child] && [child][..0] == [];
    assert AddRun(b0, [], c) == b0;
    assert [] + [child] == [child] && {} + {child.id} == {child.id} && [] + child.raw == child.raw;
    var b1 := Builder([], Batch([child], {child.id}, child.raw, 0));
    assert AddRun(b0, [child], c) == Add(b0, child, c) == b1;
    var b := Batch(js, {child.id, parent.id}, child.raw + parent.raw, 0);
    assert [child] + [parent] == js && {child.id} + {parent.id} == {child.id, parent.id} && [] + [b] == [b];
    assert Append(b1.cur, parent) == b;
  }

  /** The contract the builder enforces, on transactions: a well-formed member spends no earlier member. */
  lemma ContractOnTransactions(jobs: seq<Job>, i: nat, k: nat, t: Transactions.Tx, ef: bool, n: nat)
    requires NoParentFirst(jobs) && i < k < |jobs| && n < |t.inputs|
    requires Transactions.Serializable(t) && jobs[k].raw == Transactions.Serialize(t, ef)
    ensures t.inputs[n].prev != jobs[i].id
  {
    Transactions.DependencyIsExact(t, ef, {jobs[i].id});
  }

  // ---- The builder as it runs ----------------------------------------------------------------

  class BuilderObject {
    var body: seq<byte>
    var jobs: seq<Job>
    var ids: set<Hash>
    var drained: nat
    /** Sealed batches, in the order they were handed to submission. */
    var sealed: seq<Batch>
    var sealSize: nat
    var sealBytes: nat
    var sealLinger: nat
    var sealDep: nat
    const c: Config

    ghost function Value(): Builder
      reads this
    {
      Builder(sealed, Batch(jobs, ids, body, drained))
    }

    constructor (c: Config)
      ensures this.c == c && Value() == Builder([], EMPTY) && BuilderOk(Value(), c)
    {
      body, jobs, ids, drained, sealed, this.c := [], [], {}, 0, [], c;
      sealSize, sealBytes, sealLinger, sealDep := 0, 0, 0, 0;
    }

    method SealBatch() returns (did: bool)
      modifies `body, `jobs, `ids, `drained, `sealed
      ensures Value() == Seal(old(Value())) && did == (old(jobs) != [])
    {
      did := |jobs| != 0;
      if did {
        sealed := sealed + [Batch(jobs, ids, body, drained)];
        body, jobs, ids, drained := [], [], {}, 0;
      }
    }

    method AddJob(j: Job)
      modifies this
      ensures Value() == Add(old(Value()), j, c) && sealLinger == old(sealLinger)
      ensures sealDep == old(sealDep) + if old(jobs) != [] && Transactions.Spends(j.raw, old(ids)) then 1 else 0
      ensures sealSize + sealBytes + sealDep - old(sealSize + sealBytes + sealDep) == |sealed| - |old(sealed)|
    {
      var dep := Transactions.DependsOnBatch(j.raw, ids);
      if dep {
        var did := SealBatch();
        sealDep := sealDep + if did then 1 else 0;
      }
      body := body + j.raw;
      jobs := jobs + [j];
      ids := ids + {j.id};
      if |jobs| >= c.Txs() {
        var did := SealBatch();
        sealSize := sealSize + 1;
      } else if |body| >= c.MaxBytes() {
        var did := SealBatch();
        sealBytes := sealBytes + 1;
      }
    }

    method TakeRun(js: seq<Job>)
      requires BuilderOk(Value(), c) && drained == 0
      modifies this
      ensures Value() == AddRun(old(Value()), js, c)
      ensures BuilderOk(Value(), c) && drained == 0 && Taken(Value()) == old(Taken(Value())) + js
    {
      ghost var was := Value();
      AddRunKeepsOk(was, js, c);
      for i := 0 to |js|
        invariant Value() == AddRun(was, js[..i], c)
      {
        assert js[..i + 1][..i] == js[..i];
        AddJob(js[i]);
      }
      assert js[..|js|] == js;
    }

    method LingerFires()
      requires BuilderOk(Value(), c)
      modifies this
      ensures Value() == Seal(old(Value())) && sealLinger == old(sealLinger) + if old(jobs) != [] then 1 else 0
      ensures BuilderOk(Value(), c) && Taken(Value()) == old(Taken(Value()))
    {
      if jobs != [] {
        OpenIsSealable(Value().cur, c);
      }
      SealKeepsOk(Value(), c);
      var did := SealBatch();
      sealLinger := sealLinger + if did then 1 else 0;
    }

    /** Shutdown: append what is queued, then seal. */
    method Shutdown(queued: seq<seq<Job>>)
      requires BuilderOk(Value(), c)
      modifies this
      ensures BuilderOk(Value(), c) && jobs == []
      ensures Jobs(sealed) == old(Taken(Value())) + Flat(queued)
    {
      hide BuilderOk, Jobs;
      for i := 0 to |queued|
        invariant BuilderOk(Value(), c) && Taken(Value()) == old(Taken(Value())) + Flat(queued[..i])
      {
        assert queued[..i + 1][..i] == queued[..i];
        assert old(Taken(Value())) + Flat(queued[..i + 1]) == old(Taken(Value())) + Flat(queued[..i]) + queued[i];
        AppendQueued(queued[i]);
      }
      assert queued[..|queued|] == queued;
      LingerFires();
      assert Taken(Value()) == Jobs(sealed);
    }

    method AppendQueued(js: seq<Job>)
      requires BuilderOk(Value(), c)
      modifies `body, `jobs, `drained
      ensures Value() == Drain(old(Value()), js)
      ensures BuilderOk(Value(), c) && Taken(Value()) == old(Taken(Value())) + js
    {
      hide BuilderOk, Taken;
      DrainKeepsOrder(Value(), js, c);
      ghost var was := Value();
      for i := 0 to |js|
        invariant jobs == was.cur.jobs + js[..i] && body == was.cur.body + Body(js[..i]) && drained == was.cur.drained
      {
        assert js[..i + 1][..i] == js[..i];
        body := body + js[i].raw;
        jobs := jobs + [js[i]];
      }
      assert js[..|js|] == js;
      drained := drained + |js|;
    }
  }

  function Flat(runs: seq<seq<Job>>): seq<Job> {
    if runs == [] then [] else Flat(runs[..|runs| - 1]) + runs[|runs| - 1]
  }
}
