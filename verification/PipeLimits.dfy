/**
 The transaction pipe against the server's contract, which forbids a parent and its child in one request
 in either order: what the order of arrival has to do with it, and the runs that break it.
 */
module PipeLimits {
  import opened Bytes
  import opened Batching
  import opened Submission
  import opened PipeRuns
  import Transactions

  lemma RunSnoc(c: Config, s: State, es: seq<Event>, i: nat)
    requires i < |es|
    ensures Run(c, s, es[..i + 1]) == Step(c, Run(c, s, es[..i]), es[i])
  {
    assert es[..i + 1][..i] == es[..i];
  }

  lemma {:induction false} RunSplits(c: Config, s: State, a: seq<Event>, b: seq<Event>)
    ensures Run(c, s, a + b) == Run(c, Run(c, s, a), b)
    decreases |b|
  {
    hide Step;
    if b == [] {
      assert a + b == a;
    } else {
      RunSplits(c, s, a, b[..|b| - 1]);
      assert (a + b)[..|a + b| - 1] == a + b[..|b| - 1];
    }
  }

  // ---- Where a request's jobs come from ----------------------------------------------------------

  /** What builder `w` takes from its queue at an event. */
  function TakenAt(s: State, e: Event, w: nat): seq<Job> {
    match e
    case Take(v, js) => if v == w && Idle(s, w, Running) then js else []
    case DrainTake(v, js) => if v == w && Idle(s, w, Draining) then js else []
    case _ => []
  }

  /** Everything builder `w` took over a run, in order. */
  function TakenBy(c: Config, n: nat, es: seq<Event>, w: nat): seq<Job> {
    if es == [] then []
    else
      var init, e := es[..|es| - 1], es[|es| - 1];
      TakenBy(c, n, init, w) + TakenAt(Run(c, Init(n), init), e, w)
  }

  /** The batch was cut, in order, from what some builder took. */
  ghost predicate CutFrom(b: Batch, c: Config, n: nat, es: seq<Event>) {
    exists w :: 0 <= w < n && Subsequence(b.jobs, TakenBy(c, n, es, w))
  }

  /** What every builder holds, and every batch handed on or posted, was cut from what a builder took. */
  ghost predicate Sourced(c: Config, n: nat, es: seq<Event>, s: State) {
    && |s.workers| == n
    && (forall w :: 0 <= w < n ==> Subsequence(Taken(s.workers[w].b), TakenBy(c, n, es, w)))
    && (forall t :: t in s.tasks ==> CutFrom(t.batch, c, n, es))
    && (forall p :: p in s.log ==> CutFrom(p.batch, c, n, es))
  }

  lemma CutStays(b: Batch, c: Config, n: nat, es: seq<Event>, e: Event)
    requires CutFrom(b, c, n, es)
    ensures CutFrom(b, c, n, es + [e])
  {
    hide Subsequence, Run;
    var w :| 0 <= w < n && Subsequence(b.jobs, TakenBy(c, n, es, w));
    assert (es + [e])[..|es|] == es;
    SubsequenceGrows(b.jobs, TakenBy(c, n, es, w), TakenAt(Run(c, Init(n), es), e, w));
    assert Subsequence(b.jobs, TakenBy(c, n, es + [e], w));
  }

  /** A builder's own step adds what it takes to what it holds. */
  lemma BuilderTakes(c: Config, s: State, e: Event, w: nat)
    requires Inv(c, s) && w < |s.workers| && !e.Acquire? && !e.StartPost? && !e.Answer? && !e.AbandonRetry?
    ensures var s' := Step(c, s, e);
      |s'.workers| == |s.workers| && Taken(s'.workers[w].b) == Taken(s.workers[w].b) + TakenAt(s, e, w)
  {
    hide Inv, Taken, AddRun, Drain, Seal, BuilderOk;
    WorkerFacts(c, s, w);
    var b := s.workers[w].b;
    assert Taken(b) + [] == Taken(b);
    match e
    case Take(v, js) => if v == w && Idle(s, w, Running) { AddRunKeepsOk(b, js, c); }
    case DrainTake(v, js) => DrainKeepsOrder(b, js, c);
    case Linger(_) => SealTakesNothing(b, c);
    case DrainDone(_) => SealTakesNothing(b, c);
    case _ =>
  }

  lemma SealTakesNothing(b: Builder, c: Config)
    requires BuilderOk(b, c)
    ensures Taken(Seal(b)) == Taken(b)
  {
    hide SealedOk, Taken;
    if b.cur.jobs != [] {
      OpenIsSealable(b.cur, c);
    }
    SealKeepsOk(b, c);
  }

  lemma SubmissionsTakeNothing(c: Config, s: State, e: Event, w: nat)
    requires e.StartPost? || e.Answer? || e.AbandonRetry?
    ensures Step(c, s, e).workers == s.workers && TakenAt(s, e, w) == []
  {
    hide AfterPost, AfterRetry;
  }

  /** Batches are passed on, from a builder to a submission, to its retries, to a request. */
  lemma BatchesPassOn(c: Config, s: State, e: Event)
    requires !e.Acquire?
    ensures var s' := Step(c, s, e);
      && (forall t :: t in s'.tasks ==> exists o :: o in s.tasks && o.batch == t.batch)
      && (forall p :: p in s'.log ==> p in s.log || exists o :: o in s.tasks && o.batch == p.batch)
  {
    hide AfterPost, AfterRetry, AddRun, Drain, Seal;
    var s' := Step(c, s, e);
    forall t | t in s'.tasks ensures exists o :: o in s.tasks && o.batch == t.batch {
      if t !in s.tasks {
        assert e.t < |s.tasks| && s.tasks[e.t] in s.tasks;
        assert s.tasks[e.t].batch == t.batch;
      }
    }
    forall p | p in s'.log && p !in s.log ensures exists o :: o in s.tasks && o.batch == p.batch {
      assert s.tasks[e.t] in s.tasks && s.tasks[e.t].batch == p.batch;
    }
  }

  /** A batch that gets a slot is the front of what its builder holds. */
  lemma AcquirePassesOn(c: Config, s: State, v: nat, w: nat)
    requires Inv(c, s) && w < |s.workers|
    ensures var s' := Step(c, s, Acquire(v));
      && s'.log == s.log && |s'.workers| == |s.workers|
      && Subsequence(Taken(s'.workers[w].b), Taken(s.workers[w].b))
      && forall t :: t in s'.tasks ==>
           t in s.tasks || (v < |s.workers| && Subsequence(t.batch.jobs, Taken(s.workers[v].b)))
  {
    hide Inv, Subsequence, Jobs;
    WholeIsSubsequence(Taken(s.workers[w].b));
    if v < |s.workers| && s.workers[v].b.sealed != [] {
      var b := s.workers[v].b;
      JobsFront(b.sealed);
      var rest := Taken(b.(sealed := b.sealed[1..]));
      assert Taken(b) == b.sealed[0].jobs + rest;
      PartsAreSubsequences(b.sealed[0].jobs, rest);
    }
  }

  lemma StepSourced(c: Config, n: nat, es: seq<Event>, e: Event)
    requires var s := Run(c, Init(n), es); Inv(c, s) && Sourced(c, n, es, s)
    ensures Sourced(c, n, es + [e], Run(c, Init(n), es + [e]))
  {
    hide Inv, Subsequence, CutFrom, Step, Taken, TakenAt, Run;
    var s := Run(c, Init(n), es);
    var s' := Step(c, s, e);
    assert (es + [e])[..|es|] == es && (es + [e])[|es|] == e;
    RunSnoc(c, Init(n), es + [e], |es|);
    assert (es + [e])[..|es| + 1] == es + [e];
    StepKeepsWorkers(c, s, e);
    BatchesSourced(c, n, es, e);
    forall w | 0 <= w < n ensures Subsequence(Taken(s'.workers[w].b), TakenBy(c, n, es + [e], w)) {
      HeldSourced(c, n, es, e, w);
    }
  }

  lemma BatchesSourced(c: Config, n: nat, es: seq<Event>, e: Event)
    requires var s := Run(c, Init(n), es); Inv(c, s) && Sourced(c, n, es, s)
    ensures var s' := Step(c, Run(c, Init(n), es), e);
      && (forall t :: t in s'.tasks ==> CutFrom(t.batch, c, n, es + [e]))
      && (forall p :: p in s'.log ==> CutFrom(p.batch, c, n, es + [e]))
  {
    hide Inv, Subsequence, CutFrom, Step, Taken, Run;
    var s := Run(c, Init(n), es);
    var s' := Step(c, s, e);
    forall b: Batch | CutFrom(b, c, n, es) ensures CutFrom(b, c, n, es + [e]) { CutStays(b, c, n, es, e); }
    if e.Acquire? {
      forall t | t in s'.tasks ensures CutFrom(t.batch, c, n, es + [e]) { SlotSourced(c, n, es, e.w, t); }
      AcquireKeepsLog(c, s, e.w);
    } else {
      BatchesPassOn(c, s, e);
    }
  }

  lemma AcquireKeepsLog(c: Config, s: State, v: nat)
    ensures Step(c, s, Acquire(v)).log == s.log
  {
  }

  lemma StepKeepsWorkers(c: Config, s: State, e: Event)
    ensures |Step(c, s, e).workers| == |s.workers|
  {
    hide AddRun, AfterPost, AfterRetry;
  }

  lemma HeldSourced(c: Config, n: nat, es: seq<Event>, e: Event, w: nat)
    requires var s := Run(c, Init(n), es); Inv(c, s) && Sourced(c, n, es, s) && w < n
    ensures |Step(c, Run(c, Init(n), es), e).workers| == n
    ensures Subsequence(Taken(Step(c, Run(c, Init(n), es), e).workers[w].b), TakenBy(c, n, es + [e], w))
  {
    hide Inv, Subsequence, CutFrom, Step, Taken, TakenAt, Run;
    var s := Run(c, Init(n), es);
    var q := TakenBy(c, n, es, w);
    StepKeepsWorkers(c, s, e);
    assert (es + [e])[..|es|] == es;
    SubsequenceGrows(Taken(s.workers[w].b), q, TakenAt(s, e, w));
    if e.Acquire? {
      AcquirePassesOn(c, s, e.w, w);
      SubsequenceIsTransitive(Taken(Step(c, s, e).workers[w].b), Taken(s.workers[w].b), q + TakenAt(s, e, w));
    } else if e.StartPost? || e.Answer? || e.AbandonRetry? {
      SubmissionsTakeNothing(c, s, e, w);
      assert q + [] == q;
    } else {
      BuilderTakes(c, s, e, w);
    }
  }

  lemma SlotSourced(c: Config, n: nat, es: seq<Event>, v: nat, t: Task)
    requires var s := Run(c, Init(n), es); Inv(c, s) && Sourced(c, n, es, s) && t in Step(c, s, Acquire(v)).tasks
    ensures CutFrom(t.batch, c, n, es + [Acquire(v)])
  {
    hide Inv, Subsequence, Step, Taken, Run;
    var s := Run(c, Init(n), es);
    if t in s.tasks {
      CutStays(t.batch, c, n, es, Acquire(v));
    } else {
      NoBuilderNoSlot(c, s, v, t);
      AcquirePassesOn(c, s, v, v);
      SubsequenceIsTransitive(t.batch.jobs, Taken(s.workers[v].b), TakenBy(c, n, es, v));
      assert CutFrom(t.batch, c, n, es);
      CutStays(t.batch, c, n, es, Acquire(v));
    }
  }

  lemma NoBuilderNoSlot(c: Config, s: State, v: nat, t: Task)
    requires t in Step(c, s, Acquire(v)).tasks && t !in s.tasks
    ensures v < |s.workers|
  {
  }

  lemma {:induction false} RunSourced(c: Config, n: nat, es: seq<Event>)
    ensures Sourced(c, n, es, Run(c, Init(n), es))
  {
    hide Inv, Step, Sourced;
    if es == [] {
      InitSourced(c, n);
    } else {
      var k := |es| - 1;
      RunSourced(c, n, es[..k]);
      RunInv(c, n, es[..k]);
      StepSourced(c, n, es[..k], es[k]);
      assert es[..k] + [es[k]] == es;
    }
  }

  lemma InitSourced(c: Config, n: nat)
    ensures Sourced(c, n, [], Init(n))
  {
    assert Taken(Builder([], EMPTY)) == [];
    assert Keeps([], [], []);
  }

  /** The batch builder `w` hands to a submission at an event. */
  function HandedAt(c: Config, s: State, e: Event, w: nat): seq<Job> {
    if e == Acquire(w) && w < |s.workers| && s.workers[w].b.sealed != [] && s.sem < c.Inflight()
    then s.workers[w].b.sealed[0].jobs else []
  }

  /** Everything builder `w` handed to submissions over a run, in order. */
  function HandedBy(c: Config, n: nat, es: seq<Event>, w: nat): seq<Job> {
    if es == [] then []
    else
      var init, e := es[..|es| - 1], es[|es| - 1];
      HandedBy(c, n, init, w) + HandedAt(c, Run(c, Init(n), init), e, w)
  }

  lemma AcquireHandsFront(c: Config, s: State, v: nat, w: nat)
    requires w < |s.workers|
    ensures var s' := Step(c, s, Acquire(v));
      && |s'.workers| == |s.workers| && TakenAt(s, Acquire(v), w) == []
      && HandedAt(c, s, Acquire(v), w) + Taken(s'.workers[w].b) == Taken(s.workers[w].b)
  {
    hide Jobs;
    var b := s.workers[w].b;
    assert [] + Taken(b) == Taken(b);
    if v == w && b.sealed != [] {
      JobsFront(b.sealed);
      var rest := b.(sealed := b.sealed[1..]);
      assert b.sealed[0].jobs + Taken(rest) == (b.sealed[0].jobs + Jobs(b.sealed[1..])) + b.cur.jobs;
    }
  }

  lemma HandStep(c: Config, s: State, e: Event, w: nat)
    requires Inv(c, s) && w < |s.workers|
    ensures var s' := Step(c, s, e);
      && |s'.workers| == |s.workers|
      && HandedAt(c, s, e, w) + Taken(s'.workers[w].b) == Taken(s.workers[w].b) + TakenAt(s, e, w)
  {
    hide Inv, Step, Taken, HandedAt, TakenAt;
    var b := s.workers[w].b;
    assert Taken(b) + [] == Taken(b);
    StepKeepsWorkers(c, s, e);
    if e.Acquire? {
      AcquireHandsFront(c, s, e.w, w);
    } else {
      NothingHanded(c, s, e, w);
      if e.StartPost? || e.Answer? || e.AbandonRetry? {
        SubmissionsTakeNothing(c, s, e, w);
      } else {
        BuilderTakes(c, s, e, w);
      }
      var t := Taken(Step(c, s, e).workers[w].b);
      assert [] + t == t;
    }
  }

  lemma NothingHanded(c: Config, s: State, e: Event, w: nat)
    requires !e.Acquire?
    ensures HandedAt(c, s, e, w) == []
  {
  }

  /** First in, first out: what a builder has handed to submissions, then what it still holds, is exactly what
      it took, in order; nothing is lost, repeated or reordered between the queue and the submissions. */
  lemma {:induction false} HandedInOrder(c: Config, n: nat, es: seq<Event>, w: nat)
    requires w < n
    ensures |Run(c, Init(n), es).workers| == n
    ensures HandedBy(c, n, es, w) + Taken(Run(c, Init(n), es).workers[w].b) == TakenBy(c, n, es, w)
  {
    hide Step, Taken, HandedAt, TakenAt, Inv;
    WorkersStay(c, n, es);
    if es == [] {
      assert Taken(Init(n).workers[w].b) == [] by { FreshHoldsNothing(n, w); }
    } else {
      var k := |es| - 1;
      var s := Run(c, Init(n), es[..k]);
      HandedInOrder(c, n, es[..k], w);
      RunInv(c, n, es[..k]);
      HandStep(c, s, es[k], w);
      var h, t := HandedBy(c, n, es[..k], w), Taken(Run(c, Init(n), es).workers[w].b);
      assert (h + HandedAt(c, s, es[k], w)) + t == h + (HandedAt(c, s, es[k], w) + t);
      assert h + (Taken(s.workers[w].b) + TakenAt(s, es[k], w)) == (h + Taken(s.workers[w].b)) + TakenAt(s, es[k], w);
    }
  }

  lemma FreshHoldsNothing(n: nat, w: nat)
    requires w < n
    ensures Taken(Init(n).workers[w].b) == []
  {
  }

  // ---- What is counted ------------------------------------------------------------------------------

  /** The counters after a step, over those before it. */
  predicate Counts(s: State, s': State, accepted: nat, rejected: nat, failed: nat) {
    s'.accepted == s.accepted + accepted && s'.rejected == s.rejected + rejected && s'.failed == s.failed + failed
  }

  /** What each step counts: an abandoned retry fails what it holds; a reply to a retry books its round, and
      rejects what is still pending after the last one; a reply to a submission books what it settled; no
      other step counts anything. */
  lemma StepCounts(c: Config, s: State, e: Event)
    ensures var s' := Step(c, s, e);
      if e.AbandonRetry? && e.t < |s.tasks| && s.tasks[e.t].Retrying? && !s.tasks[e.t].posting
      then Counts(s, s', 0, 0, |s.tasks[e.t].pending|)
      else if e.Answer? && e.t < |s.tasks| && s.tasks[e.t].posting then
        if s.tasks[e.t].Retrying? then
          var n := AfterRetry(s.tasks[e.t].pending, e.reply);
          Counts(s, s', n.accepted, n.rejected + (if s.tasks[e.t].round + 1 < c.Retries() then 0 else |n.pending|), 0)
        else
          var t := s.tasks[e.t];
          var next := AfterPost(c, t.batch.jobs, t.attempt, t.throttled, e.reply, e.cancelled);
          if next.Done? then Counts(s, s', next.out.accepted, next.out.rejected, next.out.failed)
          else Counts(s, s', 0, 0, 0)
      else Counts(s, s', 0, 0, 0)
  {
    hide AddRun, Drain, Seal, AfterPost, AfterRetry;
  }

  /** What a post puts on the wire: a submission its whole batch, a retry, when there is a slot, what it still
      has pending; each task one post at a time. */
  lemma PostIsExact(c: Config, s: State, i: nat)
    requires i < |s.tasks| && !s.tasks[i].posting
    ensures var s', t := Step(c, s, StartPost(i)), s.tasks[i];
      && |s'.tasks| == |s.tasks|
      && (t.Submitting? ==>
            s'.log == s.log + [Post(t.batch.jobs, t.batch.body, t.batch)] && s'.sem == s.sem && s'.tasks[i].posting)
      && (t.Retrying? && s.sem < c.Inflight() ==>
            s'.log == s.log + [Post(t.pending, Body(t.pending), t.batch)] && s'.sem == s.sem + 1 && s'.tasks[i].posting)
      && (t.Retrying? && s.sem >= c.Inflight() ==> s' == s)
  {
  }

  /** Over every run of the whole pipe, nothing is counted as accepted unless some reply was a success or a
      report. */
  lemma {:induction false} PipeAcceptsOnEvidence(c: Config, n: nat, es: seq<Event>)
    requires Run(c, Init(n), es).accepted > 0
    ensures exists i :: 0 <= i < |es| && es[i].Answer? && Evidence(es[i].reply)
  {
    hide Step, Evidence;
    var k := |es| - 1;
    var s, e := Run(c, Init(n), es[..k]), es[k];
    if s.accepted > 0 {
      PipeAcceptsOnEvidence(c, n, es[..k]);
      var i :| 0 <= i < k && es[..k][i].Answer? && Evidence(es[..k][i].reply);
      assert es[i] == es[..k][i];
    } else {
      GrowsOnEvidence(c, s, e);
    }
  }

  lemma GrowsOnEvidence(c: Config, s: State, e: Event)
    requires Step(c, s, e).accepted > s.accepted
    ensures e.Answer? && Evidence(e.reply)
  {
    hide Step, IsPartial, Settle, Lines, Named, Count;
    StepCounts(c, s, e);
  }

  /** The server's contract on the wire. If every builder takes parents before their children, no request
      carries a parent and its child, unless the shutdown arm appended a child to its parent. And for a
      batch posted whole, exactly: no request does, if and only if neither the shutdown arm nor the order
      of arrival put them together. */
  lemma PostsMeetServer(c: Config, n: nat, es: seq<Event>, i: nat)
    requires i < |Run(c, Init(n), es).log|
    ensures var p := Run(c, Init(n), es).log[i];
      && ((forall w :: 0 <= w < n ==> ParentsFirst(TakenBy(c, n, es, w))) && DrainIsClean(p.batch) ==>
            Unrelated(p.jobs))
      && (p.jobs == p.batch.jobs ==> (Unrelated(p.jobs) <==> DrainIsClean(p.batch) && ParentsFirst(p.jobs)))
  {
    hide Run, Subsequence, NoParentFirst, ParentsFirst, Unrelated, DrainIsClean, SealedOk;
    PostsKeepContract(c, n, es, i);
    RunSourced(c, n, es);
    var p := Run(c, Init(n), es).log[i];
    UnrelatedIsTwoSided(p.jobs);
    assert CutFrom(p.batch, c, n, es);
    var w :| 0 <= w < n && Subsequence(p.batch.jobs, TakenBy(c, n, es, w));
    if ParentsFirst(TakenBy(c, n, es, w)) {
      SubsequenceIsTransitive(p.jobs, p.batch.jobs, TakenBy(c, n, es, w));
      SubsequenceKeepsParentsFirst(p.jobs, TakenBy(c, n, es, w));
    }
  }

  // ---- Runs that break it -------------------------------------------------------------------------

  /** The first builder's share of the state, with nothing posted yet. */
  predicate First(s: State, w: Worker, tasks: seq<Task>) {
    |s.workers| > 0 && s.workers[0] == w && s.tasks == tasks && s.sem == |tasks| && s.log == []
  }

  const FRESH: Builder := Builder([], EMPTY)

  lemma SlotStep(c: Config, s: State, b: Batch, phase: Phase) returns (s': State)
    requires First(s, Worker(Builder([b], EMPTY), phase), [])
    ensures s' == Step(c, s, Acquire(0)) && First(s', Worker(FRESH, phase), [Submitting(0, b, 0, 0, false)])
  {
    s' := Step(c, s, Acquire(0));
    assert [b][1..] == [] && [] + s'.tasks == s'.tasks;
  }

  lemma FirstPost(c: Config, s: State, b: Batch, phase: Phase)
    requires First(s, Worker(FRESH, phase), [Submitting(0, b, 0, 0, false)])
    ensures Step(c, s, StartPost(0)).log == [Post(b.jobs, b.body, b)]
  {
    assert [] + [Post(b.jobs, b.body, b)] == [Post(b.jobs, b.body, b)];
  }

  /** A builder's one sealed batch goes out whole. */
  lemma SealedGoesOut(c: Config, s: State, b: Batch, phase: Phase)
    requires First(s, Worker(Builder([b], EMPTY), phase), [])
    ensures Run(c, s, [Acquire(0), StartPost(0)]).log == [Post(b.jobs, b.body, b)]
  {
    hide Step, First;
    var es := [Acquire(0), StartPost(0)];
    assert es[..0] == [] && es[..2] == es;
    RunSnoc(c, s, es, 0);
    RunSnoc(c, s, es, 1);
    var s1 := SlotStep(c, s, b, phase);
    FirstPost(c, s1, b, phase);
  }

  lemma TakeAndLinger(c: Config, s: State, child: Job, parent: Job, b: Batch) returns (s': State)
    requires First(s, Worker(FRESH, Running), [])
    requires var r := AddRun(FRESH, [child, parent], c);
      Seal(r) == Builder([b], EMPTY) && (r.sealed == [] || r == Seal(r))
    ensures s' == Run(c, s, [Take(0, [child, parent]), Linger(0)])
    ensures First(s', Worker(Builder([b], EMPTY), Running), [])
  {
    hide AddRun, Seal;
    var es := [Take(0, [child, parent]), Linger(0)];
    assert es[..0] == [] && es[..2] == es;
    RunSnoc(c, s, es, 0);
    RunSnoc(c, s, es, 1);
    s' := Run(c, s, es);
  }

  /** The order of arrival matters: a child that a builder takes before its parent goes out in one request
      with it, shutdown or not, as long as the caps leave room for both. */
  lemma ChildFirstBreaksServer(c: Config, parent: Job, t: Transactions.Tx, ef: bool, k: nat, id: Hash)
    requires Transactions.Serializable(t) && k < |t.inputs| && t.inputs[k].prev == parent.id
    requires id !in Transactions.Inputs(parent.raw).refs
    requires c.Txs() >= 2 && |Transactions.Serialize(t, ef)| < c.MaxBytes()
    ensures var child := Job(Transactions.Serialize(t, ef), id);
      var s := Run(c, Init(1), [Take(0, [child, parent]), Linger(0), Acquire(0), StartPost(0)]);
      && |s.log| == 1 && s.log[0].jobs == [child, parent] && s.log[0].batch.drained == 0 && !Unrelated(s.log[0].jobs)
  {
    hide Run, First, Transactions.Serialize, Transactions.Inputs, AddRun, Seal;
    var child := Job(Transactions.Serialize(t, ef), id);
    var b := Batch([child, parent], {child.id, parent.id}, child.raw + parent.raw, 0);
    ChildFirstIsBatchedTogether(c, child, parent);
    StartsFresh(1);
    var s2 := TakeAndLinger(c, Init(1), child, parent, b);
    SealedGoesOut(c, s2, b, Running);
    RunSplits(c, Init(1), [Take(0, [child, parent]), Linger(0)], [Acquire(0), StartPost(0)]);
    assert [Take(0, [child, parent]), Linger(0)] + [Acquire(0), StartPost(0)]
        == [Take(0, [child, parent]), Linger(0), Acquire(0), StartPost(0)];
    ChildSpends(t, ef, k, parent.id);
    assert [child, parent][1].id in Transactions.Inputs([child, parent][0].raw).refs;
  }

  lemma StartsFresh(n: nat)
    requires n > 0
    ensures First(Init(n), Worker(FRESH, Running), [])
  {
  }

  lemma ChildSpends(t: Transactions.Tx, ef: bool, k: nat, parent: Hash)
    requires Transactions.Serializable(t) && k < |t.inputs| && t.inputs[k].prev == parent
    ensures parent in Transactions.Inputs(Transactions.Serialize(t, ef)).refs
  {
    hide Transactions.Serialize, Transactions.Inputs;
    Transactions.DependencyIsExact(t, ef, {parent});
  }

  /** Receives of the shutdown arm, one for each queued run of jobs. */
  function Drains(runs: seq<seq<Job>>): (es: seq<Event>)
    ensures |es| == |runs| && forall i :: 0 <= i < |es| ==> es[i] == DrainTake(0, runs[i])
  {
    seq(|runs|, i requires 0 <= i < |runs| => DrainTake(0, runs[i]))
  }

  /** The batch that the shutdown arm makes of what it finds queued. */
  function Queued(runs: seq<seq<Job>>): Batch {
    Batch(Flat(runs), {}, Body(Flat(runs)), |Flat(runs)|)
  }

  lemma DrainStep(c: Config, s: State, runs: seq<seq<Job>>, js: seq<Job>)
    requires First(s, Worker(Builder([], Queued(runs)), Draining), [])
    ensures First(Step(c, s, DrainTake(0, js)), Worker(Builder([], Queued(runs + [js])), Draining), [])
  {
    hide Body;
    assert (runs + [js])[..|runs|] == runs;
    BodyConcat(Flat(runs), js);
  }

  lemma {:induction false} DrainsAll(c: Config, s: State, runs: seq<seq<Job>>)
    requires First(s, Worker(Builder([], Queued([])), Draining), [])
    ensures First(Run(c, s, Drains(runs)), Worker(Builder([], Queued(runs)), Draining), [])
  {
    hide Step, First, Queued;
    if runs != [] {
      var k := |runs| - 1;
      DrainsAll(c, s, runs[..k]);
      assert Drains(runs)[..k] == Drains(runs[..k]);
      DrainStep(c, Run(c, s, Drains(runs[..k])), runs[..k], runs[k]);
      assert runs[..k] + [runs[k]] == runs;
    }
  }

  lemma CancelStep(c: Config, s: State)
    requires First(s, Worker(FRESH, Running), [])
    ensures First(Run(c, s, [Cancel(0)]), Worker(Builder([], Queued([])), Draining), [])
  {
    assert [Cancel(0)][..0] == [];
    assert Body([]) == [];
  }

  lemma DoneStep(c: Config, s: State, b: Batch)
    requires First(s, Worker(Builder([], b), Draining), []) && b.jobs != []
    ensures First(Run(c, s, [DrainDone(0)]), Worker(Builder([b], EMPTY), Waiting), [])
  {
    assert [DrainDone(0)][..0] == [];
    assert [] + [b] == [b];
  }

  /** A cancelled builder's life: it drains its queue run by run, seals, and the batch is posted. */
  function Shutdown(runs: seq<seq<Job>>): seq<Event> {
    [Cancel(0)] + (Drains(runs) + ([DrainDone(0)] + [Acquire(0), StartPost(0)]))
  }

  /** What is queued when a builder is cancelled goes out as one request, however much it is and in however
      many runs it was queued. */
  lemma QueuedGoesOutWhole(c: Config, n: nat, runs: seq<seq<Job>>)
    requires n > 0 && Flat(runs) != []
    ensures Run(c, Init(n), Shutdown(runs)).log == [Post(Flat(runs), Body(Flat(runs)), Queued(runs))]
  {
    hide Run, First;
    var a, b, d, e := [Cancel(0)], Drains(runs), [DrainDone(0)], [Acquire(0), StartPost(0)];
    RunSplits(c, Init(n), a, b + (d + e));
    var s1 := Run(c, Init(n), a);
    RunSplits(c, s1, b, d + e);
    var s2 := Run(c, s1, b);
    RunSplits(c, s2, d, e);
    StartsFresh(n);
    CancelStep(c, Init(n));
    DrainsAll(c, s1, runs);
    DoneStep(c, s2, Queued(runs));
    SealedGoesOut(c, Run(c, s2, d), Queued(runs), Waiting);
  }

  /** So the batch contract fails at shutdown: a parent and a child that spends it, in either format, queued
      in that order, go out in one request. */
  lemma ShutdownBreaksContract(c: Config, parent: Job, t: Transactions.Tx, ef: bool, k: nat, id: Hash)
    requires Transactions.Serializable(t) && k < |t.inputs| && t.inputs[k].prev == parent.id
    ensures var child := Job(Transactions.Serialize(t, ef), id);
      var s := Run(c, Init(1), Shutdown([[parent], [child]]));
      |s.log| == 1 && !NoParentFirst(s.log[0].jobs) && !Unrelated(s.log[0].jobs)
  {
    hide Run, Transactions.Serialize, Transactions.Inputs, Shutdown, Flat;
    var child := Job(Transactions.Serialize(t, ef), id);
    TwoRuns(parent, child);
    QueuedGoesOutWhole(c, 1, [[parent], [child]]);
    ChildSpends(t, ef, k, parent.id);
    assert [parent, child][0].id in Transactions.Inputs([parent, child][1].raw).refs;
  }

  lemma TwoRuns(a: Job, b: Job)
    ensures Flat([[a], [b]]) == [a, b]
  {
    assert [[a], [b]][..1] == [[a]] && [[a]][..0] == [];
    assert Flat([[a]]) == [] + [a] == [a];
  }

  /** And so does the transaction cap, when more is queued than it allows, in runs of any length. */
  lemma ShutdownBreaksCap(c: Config, runs: seq<seq<Job>>)
    requires |Flat(runs)| > c.Txs()
    ensures var s := Run(c, Init(1), Shutdown(runs)); |s.log| == 1 && |s.log[0].jobs| > c.Txs()
  {
    hide Run, Shutdown;
    QueuedGoesOutWhole(c, 1, runs);
  }
}
