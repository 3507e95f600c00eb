/**
 The whole transaction pipe (internal/txpipe/txpipe.go): builders, submissions and retries running
 concurrently under one semaphore. Each step is one thing one goroutine does; runs are arbitrary
 interleavings with arbitrary server replies.
 */
module PipeRuns {
  import opened Bytes
  import opened Batching
  import opened Submission
  import Transactions

  /** A builder goroutine: running, draining after cancellation, waiting for submissions, gone. */
  datatype Phase = Running | Draining | Waiting | Returned

  /** `b.sealed` holds the batches it has sealed and not yet got a slot for. */
  datatype Worker = Worker(b: Builder, phase: Phase)

  /** A submission or retry goroutine, the builder it came from and whether a post is in flight. */
  datatype Task =
    | Submitting(origin: nat, batch: Batch, attempt: nat, throttled: nat, posting: bool)
    | Retrying(origin: nat, batch: Batch, pending: seq<Job>, round: nat, posting: bool)

  /** A request that went out: the jobs and the bytes it carries, and the sealed batch it was cut from. */
  datatype Post = Post(jobs: seq<Job>, body: seq<byte>, batch: Batch)

  datatype State = State(workers: seq<Worker>, tasks: seq<Task>, sem: nat, taken: nat,
                         accepted: nat, rejected: nat, failed: nat, unknown: nat, unattributed: nat, log: seq<Post>)

  datatype Event =
    | Take(w: nat, js: seq<Job>) | Linger(w: nat) | Cancel(w: nat) | DrainTake(w: nat, js: seq<Job>) | DrainDone(w: nat)
    | Acquire(w: nat) | Return(w: nat)
    | StartPost(t: nat) | Answer(t: nat, reply: Reply, cancelled: bool) | AbandonRetry(t: nat)

  function Init(n: nat): State {
    State(seq(n, _ => Worker(Builder([], EMPTY), Running)), [], 0, 0, 0, 0, 0, 0, 0, [])
  }

  // ---- Sums over goroutines ---------------------------------------------------------------

  function Sum<T>(s: seq<T>, f: T -> nat): nat {
    if s == [] then 0 else Sum(s[..|s| - 1], f) + f(s[|s| - 1])
  }

  lemma SumSnoc<T>(s: seq<T>, x: T, f: T -> nat)
    ensures Sum(s + [x], f) == Sum(s, f) + f(x)
  {
    assert (s + [x])[..|s|] == s;
  }

  lemma {:induction false} SumWithout<T>(s: seq<T>, i: nat, f: T -> nat)
    requires i < |s|
    ensures Sum(Without(s, i), f) + f(s[i]) == Sum(s, f)
    decreases |s|
  {
    var n := |s| - 1;
    if i == n {
      assert Without(s, i) == s[..n];
    } else {
      SumWithout(s[..n], i, f);
      assert Without(s, i) == Without(s[..n], i) + [s[n]];
      SumSnoc(Without(s[..n], i), s[n], f);
    }
  }

  lemma SumUpdate<T>(s: seq<T>, i: nat, x: T, f: T -> nat)
    requires i < |s|
    ensures Sum(s[i := x], f) + f(s[i]) == Sum(s, f) + f(x)
  {
    SumWithout(s, i, f);
    SumWithout(s[i := x], i, f);
    assert Without(s, i) == Without(s[i := x], i);
  }

  lemma {:induction false} SumBelow<T>(s: seq<T>, f: T -> nat, g: T -> nat)
    requires forall x :: x in s ==> f(x) <= g(x)
    ensures Sum(s, f) <= Sum(s, g)
  {
    if s != [] {
      assert s[|s| - 1] in s;
      SumBelow(s[..|s| - 1], f, g);
    }
  }

  lemma {:induction false} SumZero<T>(s: seq<T>, f: T -> nat)
    requires forall x :: x in s ==> f(x) == 0
    ensures Sum(s, f) == 0
  {
    if s != [] {
      assert s[|s| - 1] in s;
      SumZero(s[..|s| - 1], f);
    }
  }

  /** Jobs a builder holds: open, or sealed and waiting for a slot. */
  function Open(w: Worker): nat { |Taken(w.b)| }
  /** Jobs a submission or retry has not settled yet. */
  function Unsettled(t: Task): nat { if t.Submitting? then |t.batch.jobs| else |t.pending| }
  /** Semaphore slots held: a submission holds one throughout, a retry while it posts. */
  function Slot(t: Task): nat { if t.Submitting? || t.posting then 1 else 0 }
  function InPost(t: Task): nat { if t.posting then 1 else 0 }

  // ---- Steps ---------------------------------------------------------------------------------

  function SetWorker(s: State, w: nat, x: Worker): State
    requires w < |s.workers|
  {
    s.(workers := s.workers[w := x])
  }

  predicate Idle(s: State, w: nat, phase: Phase) {
    w < |s.workers| && s.workers[w].phase == phase && s.workers[w].b.sealed == []
  }

  function BuilderStep(c: Config, s: State, e: Event): State {
    match e
    case Take(w, js) =>
      if !Idle(s, w, Running) then s
      else SetWorker(s, w, s.workers[w].(b := AddRun(s.workers[w].b, js, c))).(taken := s.taken + |js|)
    case Linger(w) =>
      if !Idle(s, w, Running) then s else SetWorker(s, w, s.workers[w].(b := Seal(s.workers[w].b)))
    case Cancel(w) =>
      if !Idle(s, w, Running) then s else SetWorker(s, w, s.workers[w].(phase := Draining))
    case DrainTake(w, js) =>
      if !Idle(s, w, Draining) then s
      else SetWorker(s, w, s.workers[w].(b := Drain(s.workers[w].b, js))).(taken := s.taken + |js|)
    case DrainDone(w) =>
      if !Idle(s, w, Draining) then s else SetWorker(s, w, Worker(Seal(s.workers[w].b), Waiting))
    case Return(w) =>
      if Idle(s, w, Waiting) && s.tasks == [] then SetWorker(s, w, s.workers[w].(phase := Returned)) else s
    case _ => s
  }

  /** A sealed batch gets a slot and becomes a submission. */
  function AcquireStep(c: Config, s: State, w: nat): State {
    if w < |s.workers| && s.workers[w].b.sealed != [] && s.sem < c.Inflight() then
      var b := s.workers[w].b;
      SetWorker(s, w, s.workers[w].(b := b.(sealed := b.sealed[1..])))
        .(sem := s.sem + 1, tasks := s.tasks + [Submitting(w, b.sealed[0], 0, 0, false)])
    else s
  }

  function Begun(t: Task): Task {
    match t
    case Submitting(origin, batch, attempt, throttled, _) => Submitting(origin, batch, attempt, throttled, true)
    case Retrying(origin, batch, pending, round, _) => Retrying(origin, batch, pending, round, true)
  }

  function PostStep(c: Config, s: State, i: nat): State {
    if i >= |s.tasks| || s.tasks[i].posting then s
    else
      var t := s.tasks[i];
      var begun := s.tasks[i := Begun(t)];
      if t.Submitting? then s.(tasks := begun, log := s.log + [Post(t.batch.jobs, t.batch.body, t.batch)])
      else if s.sem >= c.Inflight() then s
      else s.(tasks := begun, sem := s.sem + 1, log := s.log + [Post(t.pending, Body(t.pending), t.batch)])
  }

  function Book(s: State, o: Outcome): State {
    s.(accepted := s.accepted + o.accepted, rejected := s.rejected + o.rejected, failed := s.failed + o.failed,
       unknown := s.unknown + o.unknown, unattributed := s.unattributed + o.unattributed)
  }

  /** A goroutine ends: what it still holds goes to the retry ladder, or there is nothing left. */
  function Finish(s: State, i: nat, t: Task, retry: seq<Job>): State
    requires i < |s.tasks|
  {
    if retry == [] then s.(tasks := Without(s.tasks, i))
    else s.(tasks := s.tasks[i := Retrying(t.origin, t.batch, retry, 0, false)])
  }

  function Release(s: State): State {
    s.(sem := if s.sem == 0 then 0 else s.sem - 1)
  }

  function AnswerStep(c: Config, s: State, i: nat, reply: Reply, cancelled: bool): State {
    if i >= |s.tasks| || !s.tasks[i].posting then s
    else match s.tasks[i]
      case Submitting(origin, batch, attempt, throttled, _) =>
        (match AfterPost(c, batch.jobs, attempt, throttled, reply, cancelled)
         case Again(a, t) => s.(tasks := s.tasks[i := Submitting(origin, batch, a, t, false)])
         case Done(o) => Finish(Release(Book(s, o)), i, s.tasks[i], o.retry))
      case Retrying(origin, batch, pending, round, _) =>
        var n := AfterRetry(pending, reply);
        var s1 := Release(Book(s, NOTHING.(accepted := n.accepted, rejected := n.rejected)));
        if n.pending != [] && round + 1 < c.Retries() then
          s1.(tasks := s1.tasks[i := Retrying(origin, batch, n.pending, round + 1, false)])
        else Finish(Book(s1, NOTHING.(rejected := |n.pending|)), i, s.tasks[i], [])
  }

  function AbandonStep(s: State, i: nat): State {
    if i >= |s.tasks| || s.tasks[i].posting || s.tasks[i].Submitting? then s
    else Finish(Book(s, NOTHING.(failed := |s.tasks[i].pending|)), i, s.tasks[i], [])
  }

  function Step(c: Config, s: State, e: Event): State {
    match e
    case Acquire(w) => AcquireStep(c, s, w)
    case StartPost(t) => PostStep(c, s, t)
    case Answer(t, reply, cancelled) => AnswerStep(c, s, t, reply, cancelled)
    case AbandonRetry(t) => AbandonStep(s, t)
    case _ => BuilderStep(c, s, e)
  }

  function Run(c: Config, s: State, es: seq<Event>): State {
    if es == [] then s else Step(c, Run(c, s, es[..|es| - 1]), es[|es| - 1])
  }

  // ---- The invariant -----------------------------------------------------------------------------

  ghost predicate WorkerOk(c: Config, w: Worker) {
    && BuilderOk(w.b, c)
    && (w.phase == Running ==> w.b.cur.drained == 0)
    && (w.phase == Waiting || w.phase == Returned ==> w.b.cur.jobs == [])
    && (w.phase == Returned ==> w.b.sealed == [])
  }

  ghost predicate TaskOk(c: Config, workers: seq<Worker>, t: Task) {
    && t.origin < |workers| && workers[t.origin].phase != Returned && SealedOk(t.batch, c)
    && (t.Submitting? ==> Budget(c, t.attempt, t.throttled))
    && (t.Retrying? ==> Subsequence(t.pending, t.batch.jobs))
  }

  /** Every request carries a subsequence of one sealed batch, back to back. */
  ghost predicate PostOk(c: Config, p: Post) {
    SealedOk(p.batch, c) && Subsequence(p.jobs, p.batch.jobs) && p.body == Body(p.jobs)
  }

  /** Everything taken is open, sealed, in submission, retrying or counted. */
  ghost predicate Conserved(s: State) {
    && s.taken == Sum(s.workers, Open) + Sum(s.tasks, Unsettled) + s.accepted + s.rejected + s.failed + s.unknown
    && s.unknown <= s.unattributed
  }

  ghost predicate Inv(c: Config, s: State) {
    && (forall w :: 0 <= w < |s.workers| ==> WorkerOk(c, s.workers[w]))
    && (forall i :: 0 <= i < |s.tasks| ==> TaskOk(c, s.workers, s.tasks[i]))
    && (forall i :: 0 <= i < |s.log| ==> PostOk(c, s.log[i]))
    && s.sem == Sum(s.tasks, Slot) <= c.Inflight()
    && Conserved(s)
  }

  lemma InitInv(c: Config, n: nat)
    ensures Inv(c, Init(n))
  {
    var s := Init(n);
    assert Taken(Builder([], EMPTY)) == [];
    SumZero(s.workers, Open);
    assert Body([]) == [];
  }

  /** A builder changes its own state; nobody else's facts depend on it unless it returns. */
  lemma WorkerMoves(c: Config, s: State, w: nat, x: Worker, more: nat)
    requires Inv(c, s) && w < |s.workers| && WorkerOk(c, x) && (x.phase == Returned ==> s.tasks == [])
    requires |Taken(x.b)| == |Taken(s.workers[w].b)| + more
    ensures Inv(c, SetWorker(s, w, x).(taken := s.taken + more))
  {
    hide WorkerOk, SealedOk, PostOk, Taken;
    SumUpdate(s.workers, w, x, Open);
  }

  lemma BuilderStepInv(c: Config, s: State, e: Event)
    requires Inv(c, s)
    ensures Inv(c, BuilderStep(c, s, e))
  {
    hide Inv, BuilderOk, Taken, AddRun, Drain, Seal;
    match e
    case Take(w, js) =>
      if Idle(s, w, Running) {
        WorkerFacts(c, s, w);
        AddRunKeepsOk(s.workers[w].b, js, c);
        WorkerMoves(c, s, w, s.workers[w].(b := AddRun(s.workers[w].b, js, c)), |js|);
      }
    case Linger(w) =>
      if Idle(s, w, Running) { SealMoves(c, s, w, Running); }
    case Cancel(w) =>
      if Idle(s, w, Running) {
        WorkerFacts(c, s, w);
        WorkerMoves(c, s, w, s.workers[w].(phase := Draining), 0);
      }
    case DrainTake(w, js) =>
      if Idle(s, w, Draining) {
        WorkerFacts(c, s, w);
        DrainKeepsOrder(s.workers[w].b, js, c);
        WorkerMoves(c, s, w, s.workers[w].(b := Drain(s.workers[w].b, js)), |js|);
      }
    case DrainDone(w) =>
      if Idle(s, w, Draining) { SealMoves(c, s, w, Waiting); }
    case Return(w) =>
      if Idle(s, w, Waiting) && s.tasks == [] {
        WorkerFacts(c, s, w);
        WorkerMoves(c, s, w, s.workers[w].(phase := Returned), 0);
      }
    case _ =>
  }

  lemma WorkerFacts(c: Config, s: State, w: nat)
    requires Inv(c, s) && w < |s.workers|
    ensures WorkerOk(c, s.workers[w]) && s.(taken := s.taken + 0) == s
  {
  }

  lemma SealMoves(c: Config, s: State, w: nat, phase: Phase)
    requires Inv(c, s) && w < |s.workers| && (phase == Running ==> s.workers[w].phase == Running) && phase != Returned
    ensures Inv(c, SetWorker(s, w, Worker(Seal(s.workers[w].b), phase)))
  {
    hide Inv, SealedOk, Taken;
    WorkerFacts(c, s, w);
    var b := s.workers[w].b;
    if b.cur.jobs != [] {
      OpenIsSealable(b.cur, c);
    }
    SealKeepsOk(b, c);
    var t := SetWorker(s, w, Worker(Seal(b), phase));
    WorkerMoves(c, s, w, Worker(Seal(b), phase), 0);
    assert t.(taken := s.taken + 0) == t;
  }

  lemma AcquireInv(c: Config, s: State, w: nat)
    requires Inv(c, s)
    ensures Inv(c, AcquireStep(c, s, w))
  {
    hide OpenOk, SealedOk, PostOk, Jobs;
    if w < |s.workers| && s.workers[w].b.sealed != [] && s.sem < c.Inflight() {
      var b := s.workers[w].b;
      var x := s.workers[w].(b := b.(sealed := b.sealed[1..]));
      var t := Submitting(w, b.sealed[0], 0, 0, false);
      assert WorkerOk(c, s.workers[w]);
      JobsFront(b.sealed);
      SumUpdate(s.workers, w, x, Open);
      SumSnoc(s.tasks, t, Slot);
      SumSnoc(s.tasks, t, Unsettled);
      assert |Taken(b)| == |b.sealed[0].jobs| + |Taken(x.b)|;
    }
  }

  lemma SealedBody(b: Batch, c: Config)
    requires SealedOk(b, c)
    ensures b.body == Body(b.jobs)
  {
  }

  lemma PostInv(c: Config, s: State, i: nat)
    requires Inv(c, s)
    ensures Inv(c, PostStep(c, s, i))
  {
    hide WorkerOk, SealedOk, Subsequence, Body;
    if i < |s.tasks| && !s.tasks[i].posting {
      assert TaskOk(c, s.workers, s.tasks[i]);
      SealedBody(s.tasks[i].batch, c);
      WholeIsSubsequence(s.tasks[i].batch.jobs);
      var t := Begun(s.tasks[i]);
      SumUpdate(s.tasks, i, t, Slot);
      SumUpdate(s.tasks, i, t, Unsettled);
    }
  }

  /** Every slot held is one of those counted. */
  lemma SlotIsHeld(c: Config, s: State, i: nat)
    requires Inv(c, s) && i < |s.tasks|
    ensures s.sem >= Slot(s.tasks[i])
  {
    SumWithout(s.tasks, i, Slot);
  }

  lemma TaskEnds(c: Config, s: State, i: nat, o: Outcome)
    requires Inv(c, s) && i < |s.tasks| && s.sem >= Slot(s.tasks[i])
    requires Moved(o) == Unsettled(s.tasks[i]) && o.unknown <= o.unattributed && o.retry == []
    ensures Inv(c, Book(s, o).(sem := s.sem - Slot(s.tasks[i]), tasks := Without(s.tasks, i)))
  {
    hide WorkerOk, TaskOk, PostOk, Sum;
    SumWithout(s.tasks, i, Slot);
    SumWithout(s.tasks, i, Unsettled);
  }

  lemma TaskRetries(c: Config, s: State, i: nat, o: Outcome)
    requires Inv(c, s) && i < |s.tasks| && s.sem >= Slot(s.tasks[i])
    requires Moved(o) == Unsettled(s.tasks[i]) && o.unknown <= o.unattributed
    requires Subsequence(o.retry, s.tasks[i].batch.jobs)
    ensures var r := Retrying(s.tasks[i].origin, s.tasks[i].batch, o.retry, 0, false);
      Inv(c, Book(s, o).(sem := s.sem - Slot(s.tasks[i]), tasks := s.tasks[i := r]))
  {
    hide WorkerOk, SealedOk, PostOk, Subsequence, Sum;
    var t := s.tasks[i];
    assert TaskOk(c, s.workers, t);
    var r := Retrying(t.origin, t.batch, o.retry, 0, false);
    SumUpdate(s.tasks, i, r, Slot);
    SumUpdate(s.tasks, i, r, Unsettled);
  }

  /** A goroutine ends, or hands on what it still holds, with every job accounted for. */
  lemma TaskSettles(c: Config, s: State, i: nat, o: Outcome, s': State)
    requires Inv(c, s) && i < |s.tasks|
    requires Moved(o) == Unsettled(s.tasks[i]) && o.unknown <= o.unattributed
    requires Subsequence(o.retry, s.tasks[i].batch.jobs)
    requires s.sem >= Slot(s.tasks[i])
    requires s' == Finish(Book(s, o), i, s.tasks[i], o.retry).(sem := s.sem - Slot(s.tasks[i]))
    ensures Inv(c, s')
  {
    hide Inv, Subsequence, Moved;
    if o.retry == [] {
      TaskEnds(c, s, i, o);
    } else {
      TaskRetries(c, s, i, o);
    }
  }

  lemma AnswerSubmission(c: Config, s: State, i: nat, reply: Reply, cancelled: bool)
    requires Inv(c, s) && i < |s.tasks| && s.tasks[i].Submitting? && s.tasks[i].posting
    ensures Inv(c, AnswerStep(c, s, i, reply, cancelled))
  {
    hide WorkerOk, SealedOk, PostOk, Subsequence, AfterPost, Finish;
    var t := s.tasks[i];
    assert TaskOk(c, s.workers, t);
    SlotIsHeld(c, s, i);
    AfterPostConserves(c, t.batch.jobs, t.attempt, t.throttled, reply, cancelled);
    match AfterPost(c, t.batch.jobs, t.attempt, t.throttled, reply, cancelled)
    case Again(a, n) =>
      var u := Submitting(t.origin, t.batch, a, n, false);
      SumUpdate(s.tasks, i, u, Slot);
      SumUpdate(s.tasks, i, u, Unsettled);
    case Done(o) =>
      FinishKeepsSem(Book(s, o), i, t, o.retry);
      TaskSettles(c, s, i, o, AnswerStep(c, s, i, reply, cancelled));
  }

  lemma FinishKeepsSem(s: State, i: nat, t: Task, retry: seq<Job>)
    requires i < |s.tasks| && s.sem >= 1
    ensures Finish(Release(s), i, t, retry) == Finish(s, i, t, retry).(sem := s.sem - 1)
  {
  }

  lemma RetryGoesOn(c: Config, s: State, i: nat, n: Round, s': State)
    requires Inv(c, s) && i < |s.tasks| && s.tasks[i].Retrying? && s.tasks[i].posting && s.sem >= 1
    requires n.accepted + n.rejected + |n.pending| == |s.tasks[i].pending| && Subsequence(n.pending, s.tasks[i].pending)
    requires var t := s.tasks[i]; var u := Retrying(t.origin, t.batch, n.pending, t.round + 1, false);
      s' == Book(s, NOTHING.(accepted := n.accepted, rejected := n.rejected))
        .(sem := s.sem - 1, tasks := s.tasks[i := u])
    ensures Inv(c, s')
  {
    hide WorkerOk, SealedOk, PostOk, Subsequence, Sum;
    var t := s.tasks[i];
    assert TaskOk(c, s.workers, t);
    SubsequenceIsTransitive(n.pending, t.pending, t.batch.jobs);
    SumUpdate(s.tasks, i, s'.tasks[i], Slot);
    SumUpdate(s.tasks, i, s'.tasks[i], Unsettled);
  }

  /** What a reply to a retry makes of the state, unfolded once. */
  lemma RetryAnswered(c: Config, s: State, i: nat, reply: Reply, cancelled: bool)
    requires i < |s.tasks| && s.tasks[i].Retrying? && s.tasks[i].posting && s.sem >= 1
    ensures var t := s.tasks[i];
      var n := AfterRetry(t.pending, reply);
      AnswerStep(c, s, i, reply, cancelled) ==
        if n.pending != [] && t.round + 1 < c.Retries() then
          Book(s, NOTHING.(accepted := n.accepted, rejected := n.rejected))
            .(sem := s.sem - 1, tasks := s.tasks[i := Retrying(t.origin, t.batch, n.pending, t.round + 1, false)])
        else
          Finish(Book(s, NOTHING.(accepted := n.accepted, rejected := n.rejected + |n.pending|)), i, t, [])
            .(sem := s.sem - 1)
  {
    hide AfterRetry;
  }

  lemma AnswerRetry(c: Config, s: State, i: nat, reply: Reply, cancelled: bool)
    requires Inv(c, s) && i < |s.tasks| && s.tasks[i].Retrying? && s.tasks[i].posting
    ensures Inv(c, AnswerStep(c, s, i, reply, cancelled))
  {
    SlotIsHeld(c, s, i);
    hide Inv, Subsequence, AfterRetry, Sum, AnswerStep, Finish, Book;
    var t := s.tasks[i];
    var n := AfterRetry(t.pending, reply);
    AfterRetryConserves(t.pending, reply);
    RetryAnswered(c, s, i, reply, cancelled);
    if n.pending != [] && t.round + 1 < c.Retries() {
      RetryGoesOn(c, s, i, n, AnswerStep(c, s, i, reply, cancelled));
    } else {
      EmptyIsSubsequence(t.batch.jobs);
      var o := NOTHING.(accepted := n.accepted, rejected := n.rejected + |n.pending|);
      TaskSettles(c, s, i, o, AnswerStep(c, s, i, reply, cancelled));
    }
  }

  lemma AbandonInv(c: Config, s: State, i: nat)
    requires Inv(c, s)
    ensures Inv(c, AbandonStep(s, i))
  {
    hide WorkerOk, SealedOk, PostOk, Subsequence, TaskOk, Sum;
    if i < |s.tasks| && !s.tasks[i].posting && s.tasks[i].Retrying? {
      EmptyIsSubsequence(s.tasks[i].batch.jobs);
      TaskSettles(c, s, i, NOTHING.(failed := |s.tasks[i].pending|), AbandonStep(s, i));
    }
  }

  /** Every step of every goroutine keeps the invariant, whatever the server replies. */
  lemma StepInv(c: Config, s: State, e: Event)
    requires Inv(c, s)
    ensures Inv(c, Step(c, s, e))
  {
    hide Inv, BuilderStep, AcquireStep, PostStep, AbandonStep;
    match e
    case Acquire(w) => AcquireInv(c, s, w);
    case StartPost(t) => PostInv(c, s, t);
    case Answer(t, reply, cancelled) =>
      if t < |s.tasks| && s.tasks[t].posting {
        if s.tasks[t].Submitting? {
          AnswerSubmission(c, s, t, reply, cancelled);
        } else {
          AnswerRetry(c, s, t, reply, cancelled);
        }
      }
    case AbandonRetry(t) => AbandonInv(c, s, t);
    case _ => BuilderStepInv(c, s, e);
  }

  lemma {:induction false} RunInv(c: Config, n: nat, es: seq<Event>)
    ensures Inv(c, Run(c, Init(n), es))
  {
    hide Inv, Step;
    if es == [] {
      InitInv(c, n);
    } else {
      RunInv(c, n, es[..|es| - 1]);
      StepInv(c, Run(c, Init(n), es[..|es| - 1]), es[|es| - 1]);
    }
  }

  // ---- The main results ----------------------------------------------------------------------------

  /** Conservation: at every point of every run, each transaction taken is open, sealed, in submission,
      retrying, or counted once; at most as many are unknown as report lines were unattributed. */
  lemma PipeConserves(c: Config, n: nat, es: seq<Event>)
    ensures Conserved(Run(c, Init(n), es))
  {
    RunInv(c, n, es);
  }

  /** When every builder has returned nothing is open or in flight: everything taken was counted. */
  lemma ShutdownIsHonest(c: Config, n: nat, es: seq<Event>)
    requires var s := Run(c, Init(n), es);
      forall w :: 0 <= w < n ==> w < |s.workers| && s.workers[w].phase == Returned
    ensures var s := Run(c, Init(n), es);
      && s.tasks == [] && Sum(s.workers, Open) == 0
      && s.taken == s.accepted + s.rejected + s.failed + s.unknown
  {
    hide Inv;
    RunInv(c, n, es);
    PipeConserves(c, n, es);
    WorkersStay(c, n, es);
    var s := Run(c, Init(n), es);
    forall w | w in s.workers ensures Open(w) == 0 {
      var i :| 0 <= i < |s.workers| && s.workers[i] == w;
      WorkerFacts(c, s, i);
      assert Jobs([]) == [];
    }
    SumZero(s.workers, Open);
    if |s.tasks| > 0 {
      OriginIsAlive(c, s, 0);
    }
  }

  lemma OriginIsAlive(c: Config, s: State, i: nat)
    requires Inv(c, s) && i < |s.tasks|
    ensures s.tasks[i].origin < |s.workers| && s.workers[s.tasks[i].origin].phase != Returned
  {
    assert TaskOk(c, s.workers, s.tasks[i]);
  }

  lemma {:induction false} WorkersStay(c: Config, n: nat, es: seq<Event>)
    ensures |Run(c, Init(n), es).workers| == n
  {
    hide AddRun, AfterPost, AfterRetry;
    if es != [] {
      WorkersStay(c, n, es[..|es| - 1]);
    }
  }

  /** Bounded concurrency: in every interleaving at most `Inflight` posts are running. */
  lemma PostsAreBounded(c: Config, n: nat, es: seq<Event>)
    ensures Sum(Run(c, Init(n), es).tasks, InPost) <= c.Inflight()
  {
    RunInv(c, n, es);
    SumBelow(Run(c, Init(n), es).tasks, InPost, Slot);
  }

  /** The batch contract on the wire: every request is a subsequence of one sealed batch, back to back and
      no longer than it, and no request ever carries a transaction after one it spends, unless the
      shutdown arm appended one that spends an earlier member; a batch with such a member breaks the
      contract when it is posted whole, as every batch is first. Likewise the transaction cap. */
  lemma PostsKeepContract(c: Config, n: nat, es: seq<Event>, i: nat)
    requires i < |Run(c, Init(n), es).log|
    ensures var p := Run(c, Init(n), es).log[i];
      && Subsequence(p.jobs, p.batch.jobs) && SealedOk(p.batch, c)
      && p.body == Body(p.jobs) && |p.body| <= |p.batch.body|
      && (DrainIsClean(p.batch) ==> NoParentFirst(p.jobs))
      && (p.batch.drained == 0 ==> NoParentFirst(p.jobs) && |p.jobs| <= c.Txs())
      && (|p.batch.Checked()| + p.batch.drained <= c.Txs() ==> |p.jobs| <= c.Txs())
      && (p.jobs == p.batch.jobs ==>
            && (NoParentFirst(p.jobs) <==> DrainIsClean(p.batch))
            && (|p.jobs| <= c.Txs() <==> |p.batch.Checked()| + p.batch.drained <= c.Txs()))
  {
    hide NoParentFirst, DrainIsClean, Body, Subsequence;
    RunInv(c, n, es);
    var p := Run(c, Init(n), es).log[i];
    assert PostOk(c, p);
    SealedIsExact(p.batch, c);
    if DrainIsClean(p.batch) {
      SubsequenceKeepsContract(p.jobs, p.batch.jobs);
    }
    SubsequenceIsSmaller(p.jobs, p.batch.jobs);
  }

  lemma SealedIsExact(b: Batch, c: Config)
    requires SealedOk(b, c)
    ensures NoParentFirst(b.jobs) <==> DrainIsClean(b)
    ensures b.drained == 0 ==> NoParentFirst(b.jobs)
    ensures |b.jobs| == |b.Checked()| + b.drained
  {
    hide NoParentFirst, Body, Transactions.Spends;
    if b.drained > 0 {
      DrainedIsExact(b, c);
    }
  }
}
