/**
 What a failure report says (internal/txpipe/txpipe.go): which transaction a line is about, whether it is
 worth waiting for, and how a whole report settles a batch, all in terms of the report's own characters.
 */
module Reports {
  import opened Bytes
  import opened Batching
  import opened Submission
  import HashIds

  // ---- The subject of a line --------------------------------------------------------------------

  predicate LowerHex(s: string) {
    forall i :: 0 <= i < |s| ==> '0' <= s[i] <= '9' || 'a' <= s[i] <= 'f'
  }

  /** A bracketed run of 64 lower-case hex digits stands at `i`. */
  predicate BracketAt(line: string, i: nat, id: string) {
    && i + 66 <= |line| && line[i] == '[' && line[i + 65] == ']'
    && |id| == 64 && line[i + 1..i + 65] == id && LowerHex(id)
  }

  predicate RunAt(line: string, i: nat) {
    i + 66 <= |line| && BracketAt(line, i, line[i + 1..i + 65])
  }

  lemma HexAgrees(s: string)
    ensures AllHex(s) == LowerHex(s)
  {
  }

  lemma BracketIsRun(line: string, i: nat, id: string)
    requires BracketAt(line, i, id)
    ensures RunAt(line, i)
  {
  }

  /** The first bracketed id from `i` on stands at `j`. */
  predicate FirstFrom(line: string, i: nat, j: nat, id: string) {
    i <= j && BracketAt(line, j, id) && forall k :: i <= k < j ==> !RunAt(line, k)
  }

  lemma {:induction false} SubjectScans(line: string, i: nat)
    ensures match SubjectFrom(line, i)
      case None => forall j :: j >= i ==> !RunAt(line, j)
      case Some(id) => exists j :: FirstFrom(line, i, j, id)
    decreases |line| - i
  {
    if i + 66 <= |line| {
      HexAgrees(line[i + 1..i + 65]);
      if RunAt(line, i) {
        assert SubjectFrom(line, i) == Some(line[i + 1..i + 65]);
        assert FirstFrom(line, i, i, line[i + 1..i + 65]);
      } else {
        SubjectScans(line, i + 1);
        assert SubjectFrom(line, i) == SubjectFrom(line, i + 1);
        if SubjectFrom(line, i + 1).Some? {
          var id := SubjectFrom(line, i + 1).value;
          var j :| FirstFrom(line, i + 1, j, id);
          assert FirstFrom(line, i, j, id);
        }
      }
    }
  }

  lemma FirstIsUnique(line: string, i: nat, id: string, i': nat, id': string)
    requires FirstFrom(line, 0, i, id) && FirstFrom(line, 0, i', id')
    ensures i == i' && id == id'
  {
    hide LowerHex;
    BracketIsRun(line, i, id);
    BracketIsRun(line, i', id');
  }

  /** The subject of a line is the first bracketed id in it, and there is none exactly when no id is bracketed. */
  lemma SubjectIsFirst(line: string, id: string)
    ensures Subject(line) == Some(id) <==> exists i :: FirstFrom(line, 0, i, id)
    ensures Subject(line).None? <==> forall i :: i >= 0 ==> !RunAt(line, i)
  {
    hide SubjectFrom, RunAt, BracketAt;
    SubjectScans(line, 0);
    if Subject(line).Some? {
      var got := Subject(line).value;
      var k :| FirstFrom(line, 0, k, got);
      BracketIsRun(line, k, got);
      if i :| FirstFrom(line, 0, i, id) {
        FirstIsUnique(line, i, id, k, got);
      }
    } else if i :| FirstFrom(line, 0, i, id) {
      BracketIsRun(line, i, id);
    }
  }

  /** The error convention: some text, the id in brackets, more text. */
  function About(head: string, h: Hash, tail: string): string {
    head + ("[" + (HashIds.Display(h) + ("]" + tail)))
  }

  /** No bracket in the text opens an id: each is followed, in the text, by something else. */
  predicate Harmless(head: string) {
    forall i :: 0 <= i < |head| && head[i] == '[' ==> i + 1 < |head| && !HashIds.IsLowerHex(head[i + 1])
  }

  lemma DisplayStands(head: string, h: Hash, tail: string)
    ensures BracketAt(About(head, h, tail), |head|, HashIds.Display(h))
  {
    hide HashIds.Display;
    var line, id := About(head, h, tail), HashIds.Display(h);
    assert line[|head|] == '[' && line[|head| + 65] == ']';
    assert line[|head| + 1..|head| + 65] == id;
  }

  /** A line that follows the convention is about its id, whatever harmless text comes before and whatever
      text after, other ids included. */
  lemma ConventionNamesSubject(head: string, h: Hash, tail: string)
    requires Harmless(head)
    ensures Subject(About(head, h, tail)) == Some(HashIds.Display(h))
  {
    hide HashIds.Display, Subject, LowerHex;
    var line := About(head, h, tail);
    DisplayStands(head, h, tail);
    forall j | 0 <= j < |head| ensures !RunAt(line, j) {
      HarmlessStays(head, h, tail, j);
    }
    assert FirstFrom(line, 0, |head|, HashIds.Display(h));
    SubjectIsFirst(line, HashIds.Display(h));
  }

  lemma HarmlessStays(head: string, h: Hash, tail: string, j: nat)
    requires Harmless(head) && j < |head|
    ensures !RunAt(About(head, h, tail), j)
  {
    hide HashIds.Display;
    var line := About(head, h, tail);
    assert line[j] == head[j] && (j + 1 < |head| ==> line[j + 1] == head[j + 1]);
    assert j + 66 <= |line| ==> line[j + 1..j + 65][0] == line[j + 1];
  }

  // ---- What is worth waiting for -------------------------------------------------------------------

  function Upper(c: char): char {
    if 'a' <= c <= 'z' then c - 32 as char else c
  }

  /** The text stands at `i` of the line in letters of either case. */
  predicate CaselessAt(line: string, text: string, i: nat) {
    i + |text| <= |line| && forall k :: 0 <= k < |text| ==> line[i + k] == text[k] || line[i + k] == Upper(text[k])
  }

  predicate IsLower(text: string) {
    forall k :: 0 <= k < |text| ==> text[k] == ' ' || 'a' <= text[k] <= 'z'
  }

  lemma LoweredAt(line: string, text: string, i: nat)
    requires IsLower(text)
    ensures OccursAt(LowerCase(line), text, i) <==> CaselessAt(line, text, i)
  {
    var low := LowerCase(line);
    if i + |text| <= |line| {
      var s := low[i..i + |text|];
      forall k | 0 <= k < |text| ensures s[k] == text[k] <==> line[i + k] == text[k] || line[i + k] == Upper(text[k]) {
        LoweredChar(line[i + k], text[k]);
      }
      if forall k :: 0 <= k < |text| ==> s[k] == text[k] {
        assert s == text;
      }
    }
  }

  lemma LoweredChar(c: char, t: char)
    requires t == ' ' || 'a' <= t <= 'z'
    ensures HashIds.Lower(c) == t <==> c == t || c == Upper(t)
  {
  }

  /** A failure is worth waiting for exactly when its line says that a parent is missing, by code or in words
      of either case, or that a threshold was exceeded. */
  lemma RetryableIsMarked(line: string)
    ensures IsRetryable(line) <==>
      || (exists i: nat :: OccursAt(line, "MISSING_PARENT", i))
      || (exists i: nat :: CaselessAt(line, "missing parent", i))
      || (exists i: nat :: OccursAt(line, "THRESHOLD_EXCEEDED", i))
  {
    hide Contains, OccursAt, CaselessAt, LowerCase;
    ContainsIsOccurs(line, "MISSING_PARENT");
    ContainsIsOccurs(line, "THRESHOLD_EXCEEDED");
    ContainsIsOccurs(LowerCase(line), "missing parent");
    forall i: nat ensures OccursAt(LowerCase(line), "missing parent", i) <==> CaselessAt(line, "missing parent", i) {
      LoweredAt(line, "missing parent", i);
    }
  }

  // ---- Whole reports --------------------------------------------------------------------------------

  /** Lines joined by line feeds. */
  function Join(lines: seq<string>): string
    requires lines != []
  {
    if |lines| == 1 then lines[0] else lines[0] + ("\n" + Join(lines[1..]))
  }

  lemma {:induction false} LinesSplit(a: string, b: string)
    requires '\n' !in a
    ensures Lines(a + ("\n" + b)) == [a] + Lines(b)
  {
    var s := a + ("\n" + b);
    if a == [] {
      assert s[1..] == b;
    } else {
      LinesSplit(a[1..], b);
      assert s[1..] == a[1..] + ("\n" + b);
      assert [s[0]] + a[1..] == a;
    }
  }

  lemma {:induction false} OneLine(a: string)
    requires '\n' !in a
    ensures Lines(a) == [a]
  {
    if a != [] {
      OneLine(a[1..]);
      assert [a[0]] + a[1..] == a;
    }
  }

  /** Splitting undoes joining. */
  lemma {:induction false} LinesUndoJoin(lines: seq<string>)
    requires lines != [] && forall i :: 0 <= i < |lines| ==> '\n' !in lines[i]
    ensures Lines(Join(lines)) == lines
  {
    if |lines| == 1 {
      OneLine(lines[0]);
    } else {
      LinesUndoJoin(lines[1..]);
      LinesSplit(lines[0], Join(lines[1..]));
    }
  }

  /** One complaint: a member of the batch, and the text around its id. */
  datatype Complaint = Complaint(h: Hash, head: string, tail: string) {
    function Line(): string {
      About(head, h, tail)
    }

    predicate Ok() {
      Harmless(head) && '\n' !in head && '\n' !in tail
    }
  }

  /** The report the server makes of some complaints. */
  function Report(cs: seq<Complaint>): seq<string> {
    if cs == [] then ["Failed to process transactions"]
    else Report(cs[..|cs| - 1]) + [cs[|cs| - 1].Line()]
  }

  /** What the last complaint about each transaction says. */
  function Verdicts(cs: seq<Complaint>): map<Hash, bool> {
    if cs == [] then map[]
    else Verdicts(cs[..|cs| - 1])[cs[|cs| - 1].h := IsRetryable(cs[|cs| - 1].Line())]
  }

  lemma ComplaintIsRead(c: Complaint)
    requires c.Ok()
    ensures Subject(c.Line()) == Some(HashIds.Display(c.h)) && '\n' !in c.Line()
  {
    hide HashIds.Display, Subject;
    ConventionNamesSubject(c.head, c.h, c.tail);
    forall i | 0 <= i < |HashIds.Display(c.h)| ensures HashIds.Display(c.h)[i] != '\n' {
    }
  }

  lemma NoBrackets(line: string)
    requires '[' !in line
    ensures Subject(line).None?
  {
    SubjectIsFirst(line, line);
  }

  lemma ReportSnoc(cs: seq<Complaint>)
    requires cs != []
    ensures var r, init := Report(cs), Report(cs[..|cs| - 1]);
      r != [] && r[..|r| - 1] == init && r[|r| - 1] == cs[|cs| - 1].Line()
  {
  }

  lemma {:induction false} ReportIsLines(cs: seq<Complaint>)
    requires forall i :: 0 <= i < |cs| ==> cs[i].Ok()
    ensures Report(cs) != [] && Report(cs)[0] == "Failed to process transactions"
    ensures forall i :: 0 <= i < |Report(cs)| ==> '\n' !in Report(cs)[i]
  {
    hide Complaint.Ok, Complaint.Line;
    if cs == [] {
      HeaderIsNobody({});
    } else {
      ReportIsLines(cs[..|cs| - 1]);
      ComplaintIsRead(cs[|cs| - 1]);
    }
  }

  /** How many complaints are about a transaction that is not among the jobs. */
  function Strangers(cs: seq<Complaint>, jobs: seq<Job>): nat {
    if cs == [] then 0
    else Strangers(cs[..|cs| - 1], jobs) + if exists j :: j in jobs && j.id == cs[|cs| - 1].h then 0 else 1
  }

  lemma MembersById(jobs: seq<Job>, h: Hash)
    ensures HashIds.Display(h) in Members(jobs) <==> exists j :: j in jobs && j.id == h
  {
    hide HashIds.Display;
    forall j | j in jobs ensures HashIds.Display(j.id) == HashIds.Display(h) <==> j.id == h {
      HashIds.DisplayIsInjective(j.id, h);
    }
  }

  lemma {:induction false} ReportIsRead(cs: seq<Complaint>, jobs: seq<Job>)
    requires forall i :: 0 <= i < |cs| ==> cs[i].Ok()
    ensures NamedById(Report(cs)) == Verdicts(cs) && Foreign(Report(cs), Members(jobs)) == Strangers(cs, jobs)
  {
    hide HashIds.Display, HashIds.ParseDisplay, Subject, IsRetryable, Report, Complaint.Ok, Complaint.Line, Members;
    if cs == [] {
      HeaderIsNobody(Members(jobs));
      assert Report([]) == ["Failed to process transactions"] by { ReportOfNothing(); }
    } else {
      var n := |cs| - 1;
      ReportIsRead(cs[..n], jobs);
      ReportSnoc(cs);
      MembersById(jobs, cs[n].h);
      ComplaintIsRead(cs[n]);
      HashIds.DisplayRoundTrips(cs[n].h);
    }
  }

  lemma ReportOfNothing()
    ensures Report([]) == ["Failed to process transactions"]
  {
  }

  lemma HeaderIsNobody(mine: set<string>)
    ensures var r := ["Failed to process transactions"];
      '\n' !in r[0] && NamedById(r) == map[] && Foreign(r, mine) == 0
  {
    var r := ["Failed to process transactions"];
    NoBrackets(r[0]);
    assert r[..0] == [];
  }

  /** Settlement on a report as the server writes it, one line for each complaint, whatever the texts around
      the ids: a member waits exactly when the last complaint about it can be waited out, is rejected exactly
      when there is another one, and every other member is accepted, less one for each complaint about a
      stranger. */
  lemma ReportSettles(c: Config, jobs: seq<Job>, cs: seq<Complaint>)
    requires forall i :: 0 <= i < |cs| ==> cs[i].Ok()
    ensures var body, v := Join(Report(cs)), Verdicts(cs);
      var o, landed := Settle(c, jobs, body), |Select(jobs, (j: Job) => j.id !in v)|;
      && IsPartial(500, body) && o.failed == 0
      && o.unattributed == Strangers(cs, jobs) && o.accepted + o.unknown == landed
      && o.accepted == (if landed >= Strangers(cs, jobs) then landed - Strangers(cs, jobs) else 0)
      && (c.retryAttempts > 0 ==>
            && o.retry == Select(jobs, (j: Job) => j.id in v && v[j.id])
            && o.rejected == |Select(jobs, (j: Job) => j.id in v && !v[j.id])|)
      && (c.retryAttempts <= 0 ==> o.retry == [] && o.accepted + o.unknown + o.rejected == |jobs|)
  {
    hide Settle, Members, NamedById, Verdicts, Select, Lines, Foreign, HashIds.Display, NamesMember, Join, Report,
      Strangers;
    ReportIsLines(cs);
    ReportIsRead(cs, jobs);
    LinesUndoJoin(Report(cs));
    SettleMeaning(c, jobs, Join(Report(cs)));
    SettleConserves(c, jobs, Join(Report(cs)));
    JoinStarts(Report(cs));
  }

  lemma JoinStarts(lines: seq<string>)
    requires lines != []
    ensures lines[0] <= Join(lines)
  {
  }

  /** A complaint whose text carries one of the codes, as the server's do before the id, is waited out. */
  lemma CodesAreWaitedFor(c: Complaint, a: string, code: string, b: string)
    requires code == "MISSING_PARENT" || code == "THRESHOLD_EXCEEDED"
    requires c.head == a + (code + b)
    ensures IsRetryable(c.Line())
  {
    hide IsRetryable, HashIds.Display;
    assert c.head <= c.Line();
    MarkStands(a, code, b, c.Line());
    RetryableIsMarked(c.Line());
  }

  lemma MarkStands(a: string, mark: string, b: string, line: string)
    requires a + (mark + b) <= line
    ensures OccursAt(line, mark, |a|)
  {
    var head := a + (mark + b);
    assert head[|a|..|a| + |mark|] == mark;
    assert line[..|head|][|a|..|a| + |mark|] == line[|a|..|a| + |mark|];
  }

  // ---- What counts as a report -------------------------------------------------------------------

  /** The first line is what comes before the first line feed. */
  lemma {:induction false} FirstLine(s: string)
    ensures var l := Lines(s)[0];
      l <= s && '\n' !in l && (|l| < |s| ==> s[|l|] == '\n')
  {
    if s != [] && s[0] != '\n' {
      FirstLine(s[1..]);
      var l, r := Lines(s)[0], Lines(s[1..])[0];
      assert l == [s[0]] + r && s == [s[0]] + s[1..];
    }
  }

  ghost predicate HasRun(s: string) {
    exists i: nat :: RunAt(s, i)
  }

  lemma HasRunFront(s: string)
    requires s != []
    ensures HasRun(s) <==> RunAt(s, 0) || HasRun(s[1..])
  {
    if i: nat :| RunAt(s, i) {
      if i > 0 {
        assert s[1..][i..i + 64] == s[i + 1..i + 65];
        assert RunAt(s[1..], i - 1);
      }
    }
    if i: nat :| RunAt(s[1..], i) {
      assert s[1..][i + 1..i + 65] == s[i + 2..i + 66];
      assert RunAt(s, i + 1);
    }
  }

  /** An id stands at the front of a text exactly when it stands at the front of its first line. */
  lemma RunStaysInLine(s: string)
    ensures RunAt(s, 0) <==> RunAt(Lines(s)[0], 0)
  {
    FirstLine(s);
    var l := Lines(s)[0];
    assert |s| >= 66 && 1 <= |l| <= 64 ==> s[1..65][|l| - 1] == s[|l|];
    assert |l| >= 66 ==> l[1..65] == s[1..65] && l[65] == s[65];
  }

  lemma {:induction false} RunsAreInLines(s: string)
    ensures HasRun(s) <==> exists l :: l in Lines(s) && HasRun(l)
  {
    hide RunAt;
    if s == [] {
      assert Lines(s) == [[]];
    } else {
      RunsAreInLines(s[1..]);
      HasRunFront(s);
      RunStaysInLine(s);
      var all, rest := Lines(s), Lines(s[1..]);
      if s[0] == '\n' {
        assert forall l :: l in all <==> l == [] || l in rest;
        NoRunInFeed(s);
      } else {
        assert all[0] == [s[0]] + rest[0] && all[0][1..] == rest[0];
        HasRunFront(all[0]);
        assert forall l :: l in all <==> l == all[0] || l in rest[1..];
        assert forall l :: l in rest <==> l == rest[0] || l in rest[1..];
      }
    }
  }

  lemma NoRunInFeed(s: string)
    requires s != [] && s[0] == '\n'
    ensures !RunAt(s, 0) && !HasRun([])
  {
  }

  /** A reply is a report exactly when it opens with the server's words and comes with a 500 or brackets an id
      anywhere. */
  lemma PartialIsExact(status: int, body: string)
    ensures IsPartial(status, body) <==>
      "Failed to process transactions" <= body && (status == 500 || exists i: nat :: RunAt(body, i))
  {
    hide RunAt, Subject;
    RunsAreInLines(body);
    forall l | l in Lines(body) ensures Subject(l).Some? <==> HasRun(l) {
      SubjectIsFirst(l, l);
    }
  }
}
