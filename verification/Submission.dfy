/**
 Batch submission (internal/txpipe/txpipe.go): posting, failover, the rate-limit ladder, settlement of
 partial failures and the retry ladder. The server's replies are arbitrary. 429 is section 4 of
 RFC 6585, 422 is section 15.5.21 of RFC 9110.
 */
module Submission {
  import opened Bytes
  import opened Batching
  import HashIds

  datatype Reply = TransportError | Http(status: int, body: string)

  // ---- Reading a failure report --------------------------------------------------------

  const PARTIAL_PREFIX := "Failed to process transactions"

  function Lines(s: string): (r: seq<string>)
    ensures |r| >= 1
  {
    if s == [] then [[]]
    else
      var rest := Lines(s[1..]);
      if s[0] == '\n' then [[]] + rest else [[s[0]] + rest[0]] + rest[1..]
  }

  predicate AllHex(s: string) {
    forall i :: 0 <= i < |s| ==> HashIds.IsLowerHex(s[i])
  }

  /** The first bracketed run of 64 lower-case hex digits from position `i` on. */
  function SubjectFrom(line: string, i: nat): (r: Option<string>)
    ensures r.Some? ==> |r.value| == 64 && AllHex(r.value)
    decreases |line| - i
  {
    if i + 66 > |line| then None
    else if line[i] == '[' && AllHex(line[i + 1..i + 65]) && line[i + 65] == ']' then Some(line[i + 1..i + 65])
    else SubjectFrom(line, i + 1)
  }

  /** The transaction an error line is about. */
  function Subject(line: string): (r: Option<string>)
    ensures r.Some? ==> |r.value| == 64 && AllHex(r.value)
  {
    SubjectFrom(line, 0)
  }

  function LowerCase(s: string): string {
    seq(|s|, i requires 0 <= i < |s| => HashIds.Lower(s[i]))
  }

  predicate IsMissingParent(line: string) {
    Contains(line, "MISSING_PARENT") || Contains(LowerCase(line), "missing parent")
  }

  predicate IsRetryable(line: string) {
    IsMissingParent(line) || Contains(line, "THRESHOLD_EXCEEDED")
  }

  predicate NamesMember(body: string) {
    exists line | line in Lines(body) :: Subject(line).Some?
  }

  predicate IsPartial(status: int, body: string) {
    PARTIAL_PREFIX <= body && (status == 500 || NamesMember(body))
  }

  /** The transactions a report names, and whether the last line about each one says to wait. */
  function Named(lines: seq<string>): map<string, bool> {
    if lines == [] then map[]
    else
      var init, line := Named(lines[..|lines| - 1]), lines[|lines| - 1];
      match Subject(line)
      case None => init
      case Some(id) => init[id := IsRetryable(line)]
  }

  datatype Verdict = Landed | Wait | Final

  function VerdictOf(named: map<string, bool>, j: Job): Verdict {
    var id := HashIds.Display(j.id);
    if id !in named then Landed else if named[id] then Wait else Final
  }

  function Waiting(jobs: seq<Job>, named: map<string, bool>): seq<Job> {
    if jobs == [] then []
    else
      var init, j := Waiting(jobs[..|jobs| - 1], named), jobs[|jobs| - 1];
      if VerdictOf(named, j) == Wait then init + [j] else init
  }

  function Count(jobs: seq<Job>, named: map<string, bool>, v: Verdict): nat {
    if jobs == [] then 0
    else Count(jobs[..|jobs| - 1], named, v) + if VerdictOf(named, jobs[|jobs| - 1]) == v then 1 else 0
  }

  function Members(jobs: seq<Job>): set<string> {
    set j | j in jobs :: HashIds.Display(j.id)
  }

  /** Report lines about a transaction that is no member of the batch. */
  function Foreign(lines: seq<string>, mine: set<string>): nat {
    if lines == [] then 0
    else
      var s := Subject(lines[|lines| - 1]);
      Foreign(lines[..|lines| - 1], mine) + if s.Some? && s.value !in mine then 1 else 0
  }

  // ---- Attribution -------------------------------------------------------------------------

  /** The report keyed by txid instead of by display string. */
  function NamedById(lines: seq<string>): map<Hash, bool> {
    if lines == [] then map[]
    else
      var init, line := NamedById(lines[..|lines| - 1]), lines[|lines| - 1];
      match Subject(line)
      case None => init
      case Some(id) =>
        match HashIds.ParseDisplay(id)
        case None => init
        case Some(h) => init[h := IsRetryable(line)]
  }

  lemma SubjectIsDisplay(s: string) returns (h: Hash)
    requires |s| == 64 && AllHex(s)
    ensures HashIds.ParseDisplay(s) == Some(h) && HashIds.Display(h) == s
  {
    HexParses(s);
    h := HashIds.ParseDisplay(s).value;
    HashIds.ParseRoundTrips(s);
    assert forall i :: 0 <= i < 64 ==> HashIds.Lower(s[i]) == s[i];
    assert HashIds.Display(h) == s;
  }

  lemma {:induction false} HexParses(s: string)
    requires |s| % 2 == 0 && AllHex(s)
    ensures HashIds.Unhex(s).Some?
    decreases |s|
  {
    if s != [] {
      assert forall i :: 0 <= i < |s| - 2 ==> s[2..][i] == s[i + 2];
      HexParses(s[2..]);
    }
  }

  /** Attributing a failure by display string is attributing it by txid. */
  lemma {:induction false} AttributionIsByTxid(lines: seq<string>, h: Hash)
    ensures HashIds.Display(h) in Named(lines) <==> h in NamedById(lines)
    ensures h in NamedById(lines) ==> Named(lines)[HashIds.Display(h)] == NamedById(lines)[h]
  {
    hide HashIds.Display, HashIds.ParseDisplay, Subject, IsRetryable;
    if lines != [] {
      AttributionIsByTxid(lines[..|lines| - 1], h);
      var s := Subject(lines[|lines| - 1]);
      if s.Some? {
        var k := SubjectIsDisplay(s.value);
        HashIds.DisplayIsInjective(h, k);
      }
    }
  }

  // ---- Outcomes --------------------------------------------------------------------------

  /** Where a set of jobs went: counted, or handed to the retry ladder. `unknown` is what the report
      left unattributed. */
  datatype Outcome = Outcome(accepted: nat, rejected: nat, failed: nat, unknown: nat, unattributed: nat,
                             retry: seq<Job>)

  const NOTHING := Outcome(0, 0, 0, 0, 0, [])

  function Moved(o: Outcome): nat {
    o.accepted + o.rejected + o.failed + o.unknown + |o.retry|
  }

  /** Every job is in exactly one place, and no more are unknown than lines were unattributed. */
  ghost predicate Settles(o: Outcome, jobs: seq<Job>) {
    Moved(o) == |jobs| && o.unknown <= o.unattributed && Subsequence(o.retry, jobs)
  }

  /** A partial failure: named members wait or are final, the rest landed, less the unattributed lines. */
  function Settle(c: Config, jobs: seq<Job>, body: string): Outcome {
    var lines := Lines(body);
    var wait, final := Waiting(jobs, Named(lines)), Count(jobs, Named(lines), Final);
    var unattributed := Foreign(lines, Members(jobs));
    WaitingCounts(jobs, Named(lines));
    var landed := |jobs| - |wait| - final;
    var ok := if landed - unattributed < 0 then 0 else landed - unattributed;
    if c.retryAttempts <= 0 || wait == [] then Outcome(ok, final + |wait|, 0, landed - ok, unattributed, [])
    else Outcome(ok, final, 0, landed - ok, unattributed, wait)
  }

  lemma {:induction false} WaitingCounts(jobs: seq<Job>, named: map<string, bool>)
    ensures |Waiting(jobs, named)| == Count(jobs, named, Wait)
    ensures Count(jobs, named, Landed) + Count(jobs, named, Wait) + Count(jobs, named, Final) == |jobs|
  {
    if jobs != [] {
      WaitingCounts(jobs[..|jobs| - 1], named);
    }
  }

  lemma {:induction false} WaitingIsSubsequence(jobs: seq<Job>, named: map<string, bool>)
    ensures Subsequence(Waiting(jobs, named), jobs)
  {
    hide VerdictOf;
    if jobs == [] {
      WholeIsSubsequence([]);
    } else {
      var n := |jobs| - 1;
      var init, w := jobs[..n], Waiting(jobs[..n], named);
      WaitingIsSubsequence(init, named);
      var f :| Keeps(w, init, f);
      if VerdictOf(named, jobs[n]) == Wait {
        assert Keeps(w + [jobs[n]], jobs, f + [n]);
      } else {
        assert Keeps(w, jobs, f);
      }
    }
  }

  /** For every report, settlement puts each job in exactly one place. */
  lemma SettleConserves(c: Config, jobs: seq<Job>, body: string)
    ensures Settles(Settle(c, jobs, body), jobs)
  {
    hide Lines, Named, Waiting, Count, Foreign, Members, Subsequence;
    WaitingCounts(jobs, Named(Lines(body)));
    WaitingIsSubsequence(jobs, Named(Lines(body)));
    EmptyIsSubsequence(jobs);
  }

  lemma EmptyIsSubsequence(jobs: seq<Job>)
    ensures Subsequence([], jobs)
  {
    assert Keeps([], jobs, []);
  }

  /** The jobs a test picks, in order. */
  function Select(jobs: seq<Job>, p: Job -> bool): seq<Job> {
    if jobs == [] then []
    else
      var init, j := Select(jobs[..|jobs| - 1], p), jobs[|jobs| - 1];
      if p(j) then init + [j] else init
  }

  lemma {:induction false} VerdictsAreByTxid(jobs: seq<Job>, lines: seq<string>)
    ensures var ids := NamedById(lines);
      && Waiting(jobs, Named(lines)) == Select(jobs, (j: Job) => j.id in ids && ids[j.id])
      && Count(jobs, Named(lines), Final) == |Select(jobs, (j: Job) => j.id in ids && !ids[j.id])|
      && Count(jobs, Named(lines), Landed) == |Select(jobs, (j: Job) => j.id !in ids)|
  {
    hide Named, NamedById, HashIds.Display;
    if jobs != [] {
      VerdictsAreByTxid(jobs[..|jobs| - 1], lines);
      AttributionIsByTxid(lines, jobs[|jobs| - 1].id);
    }
  }

  /** What settlement means, by txid: members the report says to wait for are retried in order, members
      it says failed are rejected, and of the rest as many are accepted as the unattributed lines leave. */
  lemma SettleMeaning(c: Config, jobs: seq<Job>, body: string)
    ensures var o, ids := Settle(c, jobs, body), NamedById(Lines(body));
      var wait := Select(jobs, (j: Job) => j.id in ids && ids[j.id]);
      var final := Select(jobs, (j: Job) => j.id in ids && !ids[j.id]);
      var landed := Select(jobs, (j: Job) => j.id !in ids);
      && o.unattributed == Foreign(Lines(body), Members(jobs)) && o.failed == 0
      && o.accepted == (if |landed| >= o.unattributed then |landed| - o.unattributed else 0)
      && o.accepted + o.unknown == |landed|
      && (c.retryAttempts > 0 ==> o.retry == wait && o.rejected == |final|)
      && (c.retryAttempts <= 0 ==> o.retry == [] && o.rejected == |final| + |wait|)
  {
    hide Lines, Named, NamedById, Waiting, Count, Foreign, Members, Select;
    VerdictsAreByTxid(jobs, Lines(body));
    WaitingCounts(jobs, Named(Lines(body)));
  }

  // ---- One submission --------------------------------------------------------------------

  /** After a post: try again with these counts, or done. */
  datatype Next = Again(attempt: nat, throttled: nat) | Done(out: Outcome)

  function GiveUp(c: Config, jobs: seq<Job>): Outcome {
    if c.retryAttempts > 0 then NOTHING.(retry := jobs) else NOTHING.(failed := |jobs|)
  }

  /** One endpoint refused: fail over once, then give up on the whole batch. */
  function Refused(c: Config, jobs: seq<Job>, attempt: nat, throttled: nat): Next {
    if attempt + 1 - throttled < 2 then Again(attempt + 1, throttled) else Done(GiveUp(c, jobs))
  }

  /** What one reply means for the whole batch. */
  datatype Judgement = Refusal | Throttled | Settled(out: Outcome)

  function Judge(c: Config, jobs: seq<Job>, throttled: nat, r: Reply, cancelled: bool): Judgement {
    match r
    case TransportError => Refusal
    case Http(status, body) =>
      if status == 200 then Settled(NOTHING.(accepted := |jobs|))
      else if IsPartial(status, body) then Settled(Settle(c, jobs, body))
      else if status == 429 then
        if throttled >= c.ladder || cancelled then Settled(NOTHING.(failed := |jobs|)) else Throttled
      else Refusal
  }

  function AfterPost(c: Config, jobs: seq<Job>, attempt: nat, throttled: nat, r: Reply, cancelled: bool): Next {
    match Judge(c, jobs, throttled, r, cancelled)
    case Refusal => Refused(c, jobs, attempt, throttled)
    case Throttled => Again(attempt + 1, throttled + 1)
    case Settled(o) => Done(o)
  }

  predicate Budget(c: Config, attempt: nat, throttled: nat) {
    throttled <= attempt && attempt - throttled < 2 && throttled <= c.ladder
  }

  /** Whatever the server answers, a submission ends with every job in one place, or goes on with a
      budget that the next post uses up. */
  lemma AfterPostConserves(c: Config, jobs: seq<Job>, attempt: nat, throttled: nat, r: Reply, cancelled: bool)
    requires Budget(c, attempt, throttled)
    ensures match AfterPost(c, jobs, attempt, throttled, r, cancelled)
      case Again(a, t) => Budget(c, a, t) && a == attempt + 1
      case Done(o) => Settles(o, jobs)
  {
    hide IsPartial, Subsequence, Settle;
    EmptyIsSubsequence(jobs);
    WholeIsSubsequence(jobs);
    if r.Http? {
      SettleConserves(c, jobs, r.body);
    }
  }

  /** The whole submission against a server, and how many posts it took. */
  function RunSubmit(c: Config, jobs: seq<Job>, attempt: nat, throttled: nat,
                     server: nat -> Reply, cancelled: nat -> bool): (r: (Outcome, nat))
    requires Budget(c, attempt, throttled)
    ensures 1 <= r.1 <= 2 + c.ladder - attempt
    decreases 2 + c.ladder - attempt
  {
    AfterPostConserves(c, jobs, attempt, throttled, server(attempt), cancelled(attempt));
    match AfterPost(c, jobs, attempt, throttled, server(attempt), cancelled(attempt))
    case Done(o) => (o, 1)
    case Again(a, t) =>
      var rest := RunSubmit(c, jobs, a, t, server, cancelled);
      (rest.0, 1 + rest.1)
  }

  lemma {:induction false} SubmitConserves(c: Config, jobs: seq<Job>, attempt: nat, throttled: nat,
                                           server: nat -> Reply, cancelled: nat -> bool)
    requires Budget(c, attempt, throttled)
    ensures Settles(RunSubmit(c, jobs, attempt, throttled, server, cancelled).0, jobs)
    decreases 2 + c.ladder - attempt
  {
    hide AfterPost, Settles;
    AfterPostConserves(c, jobs, attempt, throttled, server(attempt), cancelled(attempt));
    match AfterPost(c, jobs, attempt, throttled, server(attempt), cancelled(attempt))
    case Done(o) =>
    case Again(a, t) => SubmitConserves(c, jobs, a, t, server, cancelled);
  }

  /** A server that only throttles gets the batch whole, once per rung and once more, and never a salvage. */
  lemma {:induction false} ThrottledBatchStaysWhole(c: Config, jobs: seq<Job>, k: nat, server: nat -> Reply,
                                                    cancelled: nat -> bool)
    requires k <= c.ladder
    requires forall i :: server(i).Http? && server(i).status == 429 && !IsPartial(429, server(i).body) && !cancelled(i)
    ensures RunSubmit(c, jobs, k, k, server, cancelled) == (NOTHING.(failed := |jobs|), c.ladder - k + 1)
    decreases c.ladder - k
  {
    hide IsPartial, Settle;
    assert server(k).Http?;
    if k < c.ladder {
      ThrottledBatchStaysWhole(c, jobs, k + 1, server, cancelled);
    }
  }

  /** A reply that says nothing about the batch: no connection, or a status with no meaning here. */
  predicate Refuses(r: Reply) {
    r.TransportError? || (r.status != 200 && !IsPartial(r.status, r.body) && r.status != 429)
  }

  predicate Throttles(r: Reply) {
    r.Http? && r.status == 429 && !IsPartial(429, r.body)
  }

  /** How many of the replies `from..to` refuse. */
  function Refusals(server: nat -> Reply, from: nat, to: nat): nat
    decreases to - from
  {
    if from >= to then 0 else (if Refuses(server(from)) then 1 else 0) + Refusals(server, from + 1, to)
  }

  /** How a submission that has been refused `attempt - throttled` times ends. */
  ghost predicate EndsWell(c: Config, jobs: seq<Job>, attempt: nat, throttled: nat, server: nat -> Reply,
                           cancelled: nat -> bool, o: Outcome, last: nat)
    requires throttled <= attempt <= last
  {
    var before := Refusals(server, attempt, last);
    && before <= last - attempt && attempt - throttled + before <= 1
    && (forall i :: attempt <= i < last && !Refuses(server(i)) ==> Throttles(server(i)) && !cancelled(i))
    && if Refuses(server(last)) then attempt - throttled + before == 1 && o == GiveUp(c, jobs)
       else Judge(c, jobs, throttled + (last - attempt - before), server(last), cancelled(last)) == Settled(o)
  }

  lemma {:induction false} SubmissionEnds(c: Config, jobs: seq<Job>, attempt: nat, throttled: nat,
                                          server: nat -> Reply, cancelled: nat -> bool)
    requires Budget(c, attempt, throttled)
    ensures var (o, n) := RunSubmit(c, jobs, attempt, throttled, server, cancelled);
      EndsWell(c, jobs, attempt, throttled, server, cancelled, o, attempt + n - 1)
    decreases 2 + c.ladder - attempt
  {
    hide IsPartial, Settle;
    AfterPostConserves(c, jobs, attempt, throttled, server(attempt), cancelled(attempt));
    match AfterPost(c, jobs, attempt, throttled, server(attempt), cancelled(attempt))
    case Done(o) =>
    case Again(a, t) => SubmissionEnds(c, jobs, a, t, server, cancelled);
  }

  /** How every submission ends, for every sequence of replies: the last reply settles the batch, at the rung
      of the ladder that the throttling replies before it led to, and at most one reply before it refused;
      a throttling reply settles it, as failed, at the end of the ladder or on cancellation; or the last
      reply is the second refusal, and the batch is salvaged whole, or failed if there are no retries. */
  lemma FailoverIsExact(c: Config, jobs: seq<Job>, server: nat -> Reply, cancelled: nat -> bool)
    ensures var (o, n) := RunSubmit(c, jobs, 0, 0, server, cancelled);
      var before := Refusals(server, 0, n - 1);
      && before <= 1 && before <= n - 1
      && (forall i :: 0 <= i < n - 1 && !Refuses(server(i)) ==> Throttles(server(i)) && !cancelled(i))
      && (Refuses(server(n - 1)) ==> before == 1 && o == Undelivered(c, jobs))
      && (!Refuses(server(n - 1)) ==>
            if server(n - 1).status == 200 then o == NOTHING.(accepted := |jobs|)
            else if IsPartial(server(n - 1).status, server(n - 1).body) then o == Settle(c, jobs, server(n - 1).body)
            else o == NOTHING.(failed := |jobs|) && (cancelled(n - 1) || n - 1 - before >= c.ladder))
  {
    hide IsPartial, Settle, RunSubmit;
    SubmissionEnds(c, jobs, 0, 0, server, cancelled);
  }

  /** Every job to the retry ladder when there is one, and otherwise every job failed. */
  function Undelivered(c: Config, jobs: seq<Job>): Outcome {
    Outcome(0, 0, if c.retryAttempts > 0 then 0 else |jobs|, 0, 0, if c.retryAttempts > 0 then jobs else [])
  }

  /** A server that never answers is tried twice; then the batch is salvaged whole, or failed. */
  lemma DeadServerIsTriedTwice(c: Config, jobs: seq<Job>, server: nat -> Reply, cancelled: nat -> bool)
    requires forall i :: server(i) == TransportError
    ensures RunSubmit(c, jobs, 0, 0, server, cancelled) == (GiveUp(c, jobs), 2)
  {
    assert server(0) == TransportError && server(1) == TransportError;
    assert RunSubmit(c, jobs, 1, 0, server, cancelled) == (GiveUp(c, jobs), 1);
  }

  /** A reply that can say of some members that they landed. */
  predicate Evidence(r: Reply) {
    r.Http? && (r.status == 200 || IsPartial(r.status, r.body))
  }

  /** Nothing counts as accepted without a success or a report saying so, and a success counts in full: for
      a whole submission, by its last reply, and for a whole ladder of retries. */
  lemma AcceptanceNeedsEvidence(c: Config, jobs: seq<Job>, server: nat -> Reply, cancelled: nat -> bool)
    ensures var (o, n) := RunSubmit(c, jobs, 0, 0, server, cancelled);
      && (o.accepted > 0 ==> Evidence(server(n - 1)))
      && (server(n - 1).Http? && server(n - 1).status == 200 ==> o == NOTHING.(accepted := |jobs|))
    ensures var (o, posts) := RunRetry(c, jobs, 0, server, cancelled);
      o.accepted > 0 ==> exists i :: 0 <= i < |posts| && Evidence(server(i))
  {
    hide RunSubmit, RunRetry, IsPartial, Settle;
    FailoverIsExact(c, jobs, server, cancelled);
    if RunRetry(c, jobs, 0, server, cancelled).0.accepted > 0 {
      var i := RetryNeedsEvidence(c, jobs, 0, server, cancelled);
    }
  }

  lemma {:induction false} RetryNeedsEvidence(c: Config, pending: seq<Job>, attempt: nat, server: nat -> Reply,
                                              cancelled: nat -> bool) returns (i: nat)
    requires RunRetry(c, pending, attempt, server, cancelled).0.accepted > 0
    ensures attempt <= i < attempt + |RunRetry(c, pending, attempt, server, cancelled).1| && Evidence(server(i))
    decreases c.Retries() - attempt
  {
    hide IsPartial, Lines, Named, Waiting, Count;
    var n := AfterRetry(pending, server(attempt));
    if n.accepted > 0 {
      i := attempt;
    } else {
      i := RetryNeedsEvidence(c, n.pending, attempt + 1, server, cancelled);
    }
  }

  // ---- The retry ladder ----------------------------------------------------------------------

  /** One round: what it books, and what stays pending. */
  datatype Round = Round(accepted: nat, rejected: nat, pending: seq<Job>)

  function AfterRetry(pending: seq<Job>, r: Reply): Round {
    match r
    case TransportError => Round(0, 0, pending)
    case Http(status, body) =>
      if status == 200 then Round(|pending|, 0, [])
      else if IsPartial(status, body) then
        var named := Named(Lines(body));
        Round(Count(pending, named, Landed), Count(pending, named, Final), Waiting(pending, named))
      else if status == 429 || status == 422 then Round(0, 0, pending)
      else Round(0, |pending|, [])
  }

  lemma AfterRetryConserves(pending: seq<Job>, r: Reply)
    ensures var n := AfterRetry(pending, r);
      n.accepted + n.rejected + |n.pending| == |pending| && Subsequence(n.pending, pending)
  {
    hide IsPartial, Subsequence, Lines, Named, Count, Waiting;
    EmptyIsSubsequence(pending);
    WholeIsSubsequence(pending);
    if r.Http? {
      WaitingCounts(pending, Named(Lines(r.body)));
      WaitingIsSubsequence(pending, Named(Lines(r.body)));
    }
  }

  /** What a retry round means, by txid: a report keeps in the ladder, in order, exactly the members it
      says to wait for, rejects those it says failed and books the rest. */
  lemma RetryMeaning(pending: seq<Job>, status: int, body: string)
    requires status != 200 && IsPartial(status, body)
    ensures var n, ids := AfterRetry(pending, Http(status, body)), NamedById(Lines(body));
      && n.pending == Select(pending, (j: Job) => j.id in ids && ids[j.id])
      && n.rejected == |Select(pending, (j: Job) => j.id in ids && !ids[j.id])|
      && n.accepted == |Select(pending, (j: Job) => j.id !in ids)|
  {
    hide Lines, Named, NamedById, Waiting, Count, Select, IsPartial;
    VerdictsAreByTxid(pending, Lines(body));
  }

  /** A reply after which everything pending is tried again: no answer, throttled, or all parents missing. */
  predicate KeepsWhole(r: Reply) {
    r.TransportError? || ((r.status == 429 || r.status == 422) && !IsPartial(r.status, r.body))
  }

  /** What a round without a report does: a success books everything accepted, a reply that can be waited
      out books nothing and leaves everything pending, any other rejects everything. */
  lemma RoundIsExact(pending: seq<Job>, r: Reply)
    requires r.TransportError? || r.status == 200 || !IsPartial(r.status, r.body)
    ensures var n := AfterRetry(pending, r);
      if r.Http? && r.status == 200 then n.accepted == |pending| && n.rejected == 0 && n.pending == []
      else if KeepsWhole(r) then n.accepted == 0 == n.rejected && n.pending == pending
      else n.accepted == 0 && n.rejected == |pending| && n.pending == []
  {
    hide IsPartial;
  }

  /** The rounds of the ladder from `attempt` on; a round cut short by cancellation fails what is left. */
  function RunRetry(c: Config, pending: seq<Job>, attempt: nat, server: nat -> Reply,
                    cancelled: nat -> bool): (r: (Outcome, seq<seq<Job>>))
    ensures |r.1| <= if attempt <= c.Retries() then c.Retries() - attempt else 0
    ensures r.0.unattributed == r.0.unknown == 0 && r.0.retry == []
    decreases c.Retries() - attempt
  {
    if pending == [] || attempt >= c.Retries() then (NOTHING.(rejected := |pending|), [])
    else if cancelled(attempt) then (NOTHING.(failed := |pending|), [])
    else
      var n := AfterRetry(pending, server(attempt));
      var rest := RunRetry(c, n.pending, attempt + 1, server, cancelled);
      (rest.0.(accepted := rest.0.accepted + n.accepted, rejected := rest.0.rejected + n.rejected), [pending] + rest.1)
  }

  /** The ladder books every job exactly once, makes at most `RetryAttempts` posts, and posts only
      subsequences of what it was given, each a subsequence of the one before. */
  lemma {:induction false} RetryConserves(c: Config, pending: seq<Job>, attempt: nat, server: nat -> Reply,
                                          cancelled: nat -> bool)
    ensures var r := RunRetry(c, pending, attempt, server, cancelled);
      && r.0.accepted + r.0.rejected + r.0.failed == |pending|
      && (r.1 != [] ==> r.1[0] == pending)
      && (forall i :: 0 <= i < |r.1| ==> Subsequence(r.1[i], pending))
      && forall i :: 1 <= i < |r.1| ==> Subsequence(r.1[i], r.1[i - 1])
    decreases c.Retries() - attempt
  {
    hide AfterRetry, Subsequence;
    if pending != [] && attempt < c.Retries() && !cancelled(attempt) {
      var n := AfterRetry(pending, server(attempt));
      AfterRetryConserves(pending, server(attempt));
      RetryConserves(c, n.pending, attempt + 1, server, cancelled);
      var rest := RunRetry(c, n.pending, attempt + 1, server, cancelled);
      var posts := [pending] + rest.1;
      WholeIsSubsequence(pending);
      forall i | 1 <= i < |posts| ensures Subsequence(posts[i], pending) {
        assert posts[i] == rest.1[i - 1];
        SubsequenceIsTransitive(posts[i], n.pending, pending);
      }
      forall i | 1 <= i < |posts| ensures Subsequence(posts[i], posts[i - 1]) {
        assert posts[i] == rest.1[i - 1] && (i > 1 ==> posts[i - 1] == rest.1[i - 2]);
      }
    }
  }

  function Repeated(pending: seq<Job>, n: nat): (posts: seq<seq<Job>>)
    ensures |posts| == n && forall i :: 0 <= i < n ==> posts[i] == pending
  {
    seq(n, _ => pending)
  }

  /** Rounds that keep everything pending only cost posts, each of the whole set. */
  lemma {:induction false} LadderWaits(c: Config, pending: seq<Job>, attempt: nat, until: nat, server: nat -> Reply,
                                       cancelled: nat -> bool)
    requires pending != [] && attempt <= until <= c.Retries()
    requires forall i :: attempt <= i < until ==> KeepsWhole(server(i)) && !cancelled(i)
    ensures var all := RunRetry(c, pending, attempt, server, cancelled);
      var rest := RunRetry(c, pending, until, server, cancelled);
      all.0 == rest.0 && all.1 == Repeated(pending, until - attempt) + rest.1
    decreases until - attempt
  {
    hide IsPartial, KeepsWhole, AfterRetry;
    var rest := RunRetry(c, pending, until, server, cancelled);
    if attempt < until {
      LadderWaits(c, pending, attempt + 1, until, server, cancelled);
      assert KeepsWhole(server(attempt));
      KeptWhole(pending, server(attempt));
      assert [pending] + (Repeated(pending, until - attempt - 1) + rest.1)
          == Repeated(pending, until - attempt) + rest.1;
    } else {
      assert Repeated(pending, 0) + rest.1 == rest.1;
    }
  }

  lemma KeptWhole(pending: seq<Job>, r: Reply)
    requires KeepsWhole(r)
    ensures AfterRetry(pending, r) == Round(0, 0, pending)
  {
    hide IsPartial;
  }

  /** How a ladder ends that waits through `until` rounds: with the whole set accepted if the next round gets a
      200, rejected if it gets a reply that cannot be waited out, failed if it is cancelled, and rejected
      when the configured attempts are used up; every post carries the whole set. */
  lemma LadderIsExact(c: Config, pending: seq<Job>, until: nat, server: nat -> Reply, cancelled: nat -> bool)
    requires pending != [] && until <= c.Retries()
    requires forall i :: 0 <= i < until ==> KeepsWhole(server(i)) && !cancelled(i)
    ensures var (o, posts) := RunRetry(c, pending, 0, server, cancelled);
      && (forall i :: 0 <= i < |posts| && i <= until ==> posts[i] == pending)
      && (until == c.Retries() ==> o == NOTHING.(rejected := |pending|) && |posts| == until)
      && (until < c.Retries() && cancelled(until) ==> o == NOTHING.(failed := |pending|) && |posts| == until)
      && (until < c.Retries() && !cancelled(until) && server(until).Http? && server(until).status == 200 ==>
            o == NOTHING.(accepted := |pending|) && |posts| == until + 1)
      && (until < c.Retries() && !cancelled(until) && server(until).Http? && server(until).status != 200
          && !KeepsWhole(server(until)) && !IsPartial(server(until).status, server(until).body) ==>
            o == NOTHING.(rejected := |pending|) && |posts| == until + 1)
  {
    hide IsPartial;
    LadderWaits(c, pending, 0, until, server, cancelled);
    if until < c.Retries() && !cancelled(until) {
      EmptyLadder(c, until + 1, server, cancelled);
    }
  }

  lemma EmptyLadder(c: Config, attempt: nat, server: nat -> Reply, cancelled: nat -> bool)
    ensures RunRetry(c, [], attempt, server, cancelled) == (NOTHING, [])
  {
  }

  /** Every post of a dependency-sealed batch, first submission, salvage or retry round, keeps the
      batch contract. */
  lemma RetriesKeepContract(c: Config, b: Batch, o: Outcome, server: nat -> Reply, cancelled: nat -> bool)
    requires SealedOk(b, c) && b.drained == 0 && Settles(o, b.jobs)
    ensures NoParentFirst(b.jobs)
    ensures forall i :: 0 <= i < |RunRetry(c, o.retry, 0, server, cancelled).1| ==>
      NoParentFirst(RunRetry(c, o.retry, 0, server, cancelled).1[i])
  {
    hide NoParentFirst, Subsequence;
    RetryConserves(c, o.retry, 0, server, cancelled);
    var posts := RunRetry(c, o.retry, 0, server, cancelled).1;
    forall i | 0 <= i < |posts| ensures NoParentFirst(posts[i]) {
      SubsequenceIsTransitive(posts[i], o.retry, b.jobs);
      SubsequenceKeepsContract(posts[i], b.jobs);
    }
  }

  /** Each post's bytes are its jobs, back to back. */
  predicate CarryBytes(posts: seq<seq<Job>>, bodies: seq<seq<byte>>) {
    |bodies| == |posts| && forall i :: 0 <= i < |posts| ==> bodies[i] == Body(posts[i])
  }

  lemma NoBytes()
    ensures CarryBytes([], [])
  {
  }

  lemma OneMoreBody(posts: seq<seq<Job>>, bodies: seq<seq<byte>>, pending: seq<Job>)
    requires CarryBytes(posts, bodies)
    ensures CarryBytes(posts + [pending], bodies + [Body(pending)])
  {
    hide Body;
  }

  // ---- The pipe's counters as they run ------------------------------------------------------

  class Pipe {
    const c: Config
    var accepted: nat
    var rejected: nat
    var failed: nat
    var unattributed: nat
    var batches: nat
    var rateLimited: nat
    var retried: nat
    var retryAccepted: nat

    constructor (c: Config)
      ensures this.c == c && accepted == rejected == failed == unattributed == 0
    {
      this.c := c;
      accepted, rejected, failed, unattributed := 0, 0, 0, 0;
      batches, rateLimited, retried, retryAccepted := 0, 0, 0, 0;
    }

    /** The outcome counters moved by exactly `o`. */
    twostate predicate Booked(o: Outcome)
      reads this
    {
      && accepted == old(accepted) + o.accepted && rejected == old(rejected) + o.rejected
      && failed == old(failed) + o.failed && unattributed == old(unattributed) + o.unattributed
    }

    /** The report's verdicts on the batch's own members, and how many lines were about no member. */
    method ReadReport(jobs: seq<Job>, lines: seq<string>) returns (named: map<string, bool>, foreign: nat)
      ensures foreign == Foreign(lines, Members(jobs))
      ensures forall j :: j in jobs ==> VerdictOf(named, j) == VerdictOf(Named(lines), j)
    {
      hide Subject, IsRetryable, HashIds.Display;
      var mine := Members(jobs);
      named, foreign := map[], 0;
      for i := 0 to |lines|
        invariant foreign == Foreign(lines[..i], mine)
        invariant forall id :: id in mine ==> (id in named <==> id in Named(lines[..i]))
        invariant forall id :: id in mine && id in named ==> named[id] == Named(lines[..i])[id]
      {
        assert lines[..i + 1][..i] == lines[..i];
        var s := Subject(lines[i]);
        if s.Some? {
          if s.value in mine {
            named := named[s.value := IsRetryable(lines[i])];
          } else {
            foreign := foreign + 1;
          }
        }
      }
      assert lines[..|lines|] == lines;
      forall j | j in jobs ensures VerdictOf(named, j) == VerdictOf(Named(lines), j) {
        assert HashIds.Display(j.id) in mine;
      }
    }

    /** One pass over the members: who waits, and how many failures are final. */
    method Sort(jobs: seq<Job>, named: map<string, bool>) returns (wait: seq<Job>, final: nat)
      ensures wait == Waiting(jobs, named) && final == Count(jobs, named, Final)
    {
      hide HashIds.Display;
      wait, final := [], 0;
      for i := 0 to |jobs|
        invariant wait == Waiting(jobs[..i], named) && final == Count(jobs[..i], named, Final)
      {
        assert jobs[..i + 1][..i] == jobs[..i];
        match VerdictOf(named, jobs[i])
        case Landed =>
        case Wait => wait := wait + [jobs[i]];
        case Final => final := final + 1;
      }
      assert jobs[..|jobs|] == jobs;
    }

    method SettlePartial(jobs: seq<Job>, body: string) returns (retry: seq<Job>)
      modifies `accepted, `rejected, `unattributed
      ensures Booked(Settle(c, jobs, body)) && retry == Settle(c, jobs, body).retry
    {
      hide Lines, Foreign, Members, Waiting, Count, VerdictOf;
      var lines := Lines(body);
      var named, foreign := ReadReport(jobs, lines);
      var wait, final := Sort(jobs, named);
      SameVerdicts(jobs, named, Named(lines));
      WaitingCounts(jobs, named);
      rejected := rejected + final;
      unattributed := unattributed + foreign;
      var ok := |jobs| - |wait| - final - foreign;
      if ok < 0 {
        ok := 0;
      }
      accepted := accepted + ok;
      if c.retryAttempts <= 0 || |wait| == 0 {
        rejected := rejected + |wait|;
        return [];
      }
      return wait;
    }

    /** Reads one reply; a reply that settles the batch is booked. */
    method ReadReply(jobs: seq<Job>, throttled: nat, reply: Reply, cancelled: bool) returns (j: Judgement)
      modifies `accepted, `rejected, `failed, `unattributed, `rateLimited
      ensures j == Judge(c, jobs, throttled, reply, cancelled)
      ensures Booked(if j.Settled? then j.out else NOTHING)
      ensures rateLimited == old(rateLimited) +
        if reply.Http? && reply.status == 429 && !IsPartial(429, reply.body) then 1 else 0
    {
      hide Settle, IsPartial;
      match reply
      case TransportError =>
        return Refusal;
      case Http(status, body) =>
        if status == 200 {
          accepted := accepted + |jobs|;
          return Settled(NOTHING.(accepted := |jobs|));
        } else if IsPartial(status, body) {
          var retry := SettlePartial(jobs, body);
          return Settled(Settle(c, jobs, body));
        } else if status == 429 {
          rateLimited := rateLimited + 1;
          if throttled >= c.ladder || cancelled {
            failed := failed + |jobs|;
            return Settled(NOTHING.(failed := |jobs|));
          }
          return Throttled;
        }
        return Refusal;
    }

    /** Ships one batch: at most one failover and one whole-batch retry per rung of the rate-limit ladder. */
    method Submit(jobs: seq<Job>, server: nat -> Reply, cancelled: nat -> bool) returns (retry: seq<Job>, posts: nat)
      modifies this
      ensures var (o, n) := RunSubmit(c, jobs, 0, 0, server, cancelled);
        Booked(o) && retry == o.retry && posts == n
      ensures posts <= 2 + c.ladder && batches == old(batches) + 1
    {
      hide Judge;
      batches := batches + 1;
      ghost var whole := RunSubmit(c, jobs, 0, 0, server, cancelled);
      var throttled, attempt := 0, 0;
      posts := 0;
      while attempt - throttled < 2
        invariant 0 <= throttled <= attempt <= throttled + 2 && throttled <= c.ladder
        invariant attempt < throttled + 2 ==>
          RunSubmit(c, jobs, attempt, throttled, server, cancelled) == (whole.0, whole.1 - posts)
        invariant attempt == throttled + 2 ==> whole == (GiveUp(c, jobs), posts)
        invariant Booked(NOTHING) && batches == old(batches) + 1
        decreases 2 + c.ladder - attempt
      {
        AfterPostConserves(c, jobs, attempt, throttled, server(attempt), cancelled(attempt));
        var j := ReadReply(jobs, throttled, server(attempt), cancelled(attempt));
        posts := posts + 1;
        match j
        case Settled(out) =>
          return out.retry, posts;
        case Throttled =>
          throttled := throttled + 1;
          attempt := attempt + 1;
        case Refusal =>
          attempt := attempt + 1;
      }
      if c.retryAttempts > 0 {
        return jobs, posts;
      }
      failed := failed + |jobs|;
      return [], posts;
    }

    /** Books one retry reply and says what is still outstanding. */
    method BookRound(pending: seq<Job>, reply: Reply) returns (next: seq<Job>)
      modifies `accepted, `rejected, `rateLimited, `retryAccepted
      ensures var n := AfterRetry(pending, reply);
        && accepted == old(accepted) + n.accepted && rejected == old(rejected) + n.rejected && next == n.pending
        && retryAccepted == old(retryAccepted) + n.accepted
    {
      hide IsPartial, Lines, Named, Waiting, Count;
      next := pending;
      match reply
      case TransportError =>
      case Http(status, body) =>
        if status == 200 {
          retryAccepted := retryAccepted + |pending|;
          accepted := accepted + |pending|;
          next := [];
        } else if IsPartial(status, body) {
          var named := Named(Lines(body));
          var wait, final := Sort(pending, named);
          WaitingCounts(pending, named);
          var ok := |pending| - |wait| - final;
          retryAccepted := retryAccepted + ok;
          accepted := accepted + ok;
          rejected := rejected + final;
          next := wait;
        } else if status == 429 {
          rateLimited := rateLimited + 1;
        } else if status != 422 {
          rejected := rejected + |pending|;
          next := [];
        }
    }

    /** The request body of a round: its jobs, back to back. */
    method JoinBody(pending: seq<Job>) returns (body: seq<byte>)
      ensures body == Body(pending)
    {
      body := [];
      for i := 0 to |pending|
        invariant body == Body(pending[..i])
      {
        assert pending[..i + 1][..i] == pending[..i];
        body := body + pending[i].raw;
      }
      assert pending[..|pending|] == pending;
    }

    /** Resubmits what a batch left undelivered, round by round, until nothing is pending; `bodies` is what
        went on the wire. */
    method RetryBatch(jobs: seq<Job>, server: nat -> Reply, cancelled: nat -> bool)
      returns (posts: seq<seq<Job>>, bodies: seq<seq<byte>>)
      modifies this
      ensures CarryBytes(posts, bodies)
      ensures retried == old(retried) + |jobs| && retryAccepted - old(retryAccepted) == accepted - old(accepted)
      ensures var (o, ps) := RunRetry(c, jobs, 0, server, cancelled);
        Booked(o) && posts == ps
      ensures |posts| <= c.Retries()
    {
      hide AfterRetry, Body, CarryBytes, RunRetry;
      assert CarryBytes([], []) by { NoBytes(); }
      posts, bodies := [], [];
      retried := retried + |jobs|;
      var pending, attempt := jobs, 0;
      ghost var whole := RunRetry(c, jobs, 0, server, cancelled);
      while attempt < c.Retries() && |pending| > 0
        invariant 0 <= attempt <= c.Retries() && failed == old(failed) && unattributed == old(unattributed)
        invariant CarryBytes(posts, bodies)
        invariant retried == old(retried) + |jobs| && retryAccepted - old(retryAccepted) == accepted - old(accepted)
        invariant var rest := RunRetry(c, pending, attempt, server, cancelled);
          && whole.1 == posts + rest.1 && rest.0.failed == whole.0.failed
          && accepted + rest.0.accepted == old(accepted) + whole.0.accepted
          && rejected + rest.0.rejected == old(rejected) + whole.0.rejected
      {
        RetryUnfolds(c, pending, attempt, server, cancelled);
        if cancelled(attempt) {
          failed := failed + |pending|;
          return;
        }
        ghost var rest := RunRetry(c, AfterRetry(pending, server(attempt)).pending, attempt + 1, server, cancelled);
        assert posts + ([pending] + rest.1) == (posts + [pending]) + rest.1;
        var body := JoinBody(pending);
        OneMoreBody(posts, bodies, pending);
        posts, bodies := posts + [pending], bodies + [body];
        pending := BookRound(pending, server(attempt));
        attempt := attempt + 1;
      }
      RetryUnfolds(c, pending, attempt, server, cancelled);
      rejected := rejected + |pending|;
    }
  }

  lemma RetryUnfolds(c: Config, pending: seq<Job>, attempt: nat, server: nat -> Reply, cancelled: nat -> bool)
    ensures var r := RunRetry(c, pending, attempt, server, cancelled);
      if pending == [] || attempt >= c.Retries() then r == (NOTHING.(rejected := |pending|), [])
      else if cancelled(attempt) then r == (NOTHING.(failed := |pending|), [])
      else
        var n := AfterRetry(pending, server(attempt));
        var rest := RunRetry(c, n.pending, attempt + 1, server, cancelled);
        r == (rest.0.(accepted := rest.0.accepted + n.accepted, rejected := rest.0.rejected + n.rejected),
              [pending] + rest.1)
  {
    hide AfterRetry;
  }

  lemma {:induction false} SameVerdicts(jobs: seq<Job>, a: map<string, bool>, b: map<string, bool>)
    requires forall j :: j in jobs ==> VerdictOf(a, j) == VerdictOf(b, j)
    ensures Waiting(jobs, a) == Waiting(jobs, b) && forall v :: Count(jobs, a, v) == Count(jobs, b, v)
  {
    hide VerdictOf;
    if jobs != [] {
      assert jobs[|jobs| - 1] in jobs;
      SameVerdicts(jobs[..|jobs| - 1], a, b);
    }
  }
}
