/** A perform run (internal/runner/runner.go): confirm, clean all targets, clear the sync state,
    copy all mailboxes in parallel, save. */
module Runner {
  import opened Basics
  import opened Imap
  import opened ImapClient
  import opened Cleanup
  import opened SyncState
  import opened StateHeap
  import opened StateStore
  import opened StateFile
  import opened MessageCopy
  import opened Agreement
  import opened FolderCopy
  import opened MailboxRun
  import opened Tasks
  import opened Program
  import opened Reachable
  import opened FolderTree
  import opened EndToEnd
  import opened Faultless

  // ---------------------------------------------------------------- the confirmation

  /** What standard input holds, and whether reading on past it fails with an error. */
  datatype Input = Input(text: string, broken: bool)

  /** White space in the sense of `unicode.IsSpace`. */
  predicate IsSpace(c: char) {
    || c in {'\t', '\n', '\U{0B}', '\U{0C}', '\r', ' ', '\U{85}', '\U{A0}', '\U{1680}', '\U{2028}', '\U{2029}',
             '\U{202F}', '\U{205F}', '\U{3000}'}
    || '\U{2000}' <= c <= '\U{200A}'
  }

  ghost predicate AllSpace(s: string) { forall i :: 0 <= i < |s| ==> IsSpace(s[i]) }

  function TrimLeft(s: string): string {
    if s == [] || !IsSpace(s[0]) then s else TrimLeft(s[1..])
  }

  function TrimRight(s: string): string {
    if s == [] || !IsSpace(s[|s| - 1]) then s else TrimRight(s[..|s| - 1])
  }

  /** The text up to and including the first line break. */
  function FirstLine(s: string): string {
    if s == [] || s[0] == '\n' then s[..if s == [] then 0 else 1] else [s[0]] + FirstLine(s[1..])
  }

  const YES := "YES"

  predicate Confirmed(input: Input) {
    (input.broken ==> '\n' in input.text) && TrimRight(TrimLeft(FirstLine(input.text))) == YES
  }

  lemma {:induction false} TrimLeftSplits(s: string)
    ensures exists a :: AllSpace(a) && s == a + TrimLeft(s)
  {
    if s == [] || !IsSpace(s[0]) {
      assert AllSpace([]) && s == [] + TrimLeft(s);
    } else {
      TrimLeftSplits(s[1..]);
      var a :| AllSpace(a) && s[1..] == a + TrimLeft(s[1..]);
      assert AllSpace([s[0]] + a) && s == ([s[0]] + a) + TrimLeft(s);
    }
  }

  lemma {:induction false} TrimRightSplits(s: string)
    ensures exists b :: AllSpace(b) && s == TrimRight(s) + b
  {
    if s == [] || !IsSpace(s[|s| - 1]) {
      assert AllSpace([]) && s == TrimRight(s) + [];
    } else {
      var t := s[..|s| - 1];
      TrimRightSplits(t);
      var b :| AllSpace(b) && t == TrimRight(t) + b;
      assert AllSpace(b + [s[|s| - 1]]) && s == TrimRight(s) + (b + [s[|s| - 1]]);
    }
  }

  lemma {:induction false} TrimLeftOf(a: string, s: string)
    requires AllSpace(a) && s != [] && !IsSpace(s[0])
    ensures TrimLeft(a + s) == s
  {
    if a == [] {
      assert a + s == s;
    } else {
      assert (a + s)[0] == a[0] && (a + s)[1..] == a[1..] + s;
      TrimLeftOf(a[1..], s);
    }
  }

  lemma {:induction false} TrimRightOf(s: string, b: string)
    requires AllSpace(b) && s != [] && !IsSpace(s[|s| - 1])
    ensures TrimRight(s + b) == s
    decreases b
  {
    if b == [] {
      assert s + b == s;
    } else {
      assert (s + b)[..|s + b| - 1] == s + b[..|b| - 1];
      TrimRightOf(s, b[..|b| - 1]);
    }
  }

  ghost predicate IsPadded(s: string, core: string) {
    exists a, b :: AllSpace(a) && AllSpace(b) && s == a + core + b
  }

  /** The characters that may stand around the answer. */
  lemma SpacesAre(c: char)
    ensures IsSpace(c) <==>
      || c as int in {0x9, 0xA, 0xB, 0xC, 0xD, 0x20, 0x85, 0xA0, 0x1680, 0x2028, 0x2029, 0x202F, 0x205F, 0x3000}
      || 0x2000 <= c as int <= 0x200A
  {
  }

  /** A line ends with the first line break or with the text. */
  lemma {:induction false} FirstLineEnds(s: string)
    ensures FirstLine(s) <= s
    ensures '\n' !in s ==> FirstLine(s) == s
    ensures '\n' in s ==>
      var n := |FirstLine(s)|; n > 0 && FirstLine(s)[n - 1] == '\n' && '\n' !in FirstLine(s)[..n - 1]
  {
    if s == [] || s[0] == '\n' {
    } else {
      FirstLineEnds(s[1..]);
      if '\n' in s {
        var n := |FirstLine(s)|;
        assert FirstLine(s)[..n - 1] == [s[0]] + FirstLine(s[1..])[..n - 2];
      }
    }
  }

  /** The gate opens exactly for a first line that is YES between white space; any other
      spelling, word or broken input keeps it shut. */
  lemma GateOpensForYes(input: Input)
    ensures Confirmed(input) <==> (input.broken ==> '\n' in input.text) && IsPadded(FirstLine(input.text), "YES")
  {
    var line := FirstLine(input.text);
    var left := TrimLeft(line);
    if TrimRight(left) == YES {
      TrimLeftSplits(line);
      var a :| AllSpace(a) && line == a + left;
      TrimRightSplits(left);
      var b :| AllSpace(b) && left == TrimRight(left) + b;
      assert line == a + YES + b;
    }
    if IsPadded(line, YES) {
      var a, b :| AllSpace(a) && AllSpace(b) && line == a + YES + b;
      assert a + YES + b == a + (YES + b);
      TrimLeftOf(a, YES + b);
      TrimRightOf(YES, b);
    }
  }

  /** `confirmCopy`. */
  method ConfirmCopy(input: Input) returns (ok: bool)
    ensures ok == Confirmed(input)
    ensures ok <==> (input.broken ==> '\n' in input.text) && IsPadded(FirstLine(input.text), "YES")
  {
    GateOpensForYes(input);
    if input.broken && '\n' !in input.text {
      return false;
    }
    var answer := TrimRight(TrimLeft(FirstLine(input.text)));
    return answer == YES;
  }

  // ---------------------------------------------------------------- the mailboxes

  /** One configured mailbox: its accounts, the answers of the servers and connections to come, and
      how the end of the context cuts its folders short. The source account is only read. */
  datatype Box = Box(
    name: string, source: Remote, sourceOracle: Oracle, target: Server, reachable: bool,
    throttle: Option<nat -> bool>, dial: nat -> bool, progress: int, now: Timestamp, stops: map<string, Ending>)

  function PlanFor(box: Box): Plan {
    Plan(box.name, box.sourceOracle, box.target.oracle, box.throttle, box.dial, box.progress, box.now, box.stops)
  }

  /** A worker pool, as far as its user can tell: whether it can be made, how many tasks it accepts,
      after how many turns of its tasks the wait for them times out, if at all, and whether it
      stops without an error. */
  datatype Pool = Pool(opens: bool, accepts: nat, patience: Option<nat>, closes: bool)

  /** A pool that gives no trouble with so many tasks. */
  predicate Willing(pool: Pool, tasks: nat) {
    pool.opens && pool.accepts >= tasks && pool.patience.None? && pool.closes
  }

  function Accepted(pool: Pool, tasks: nat): (n: nat)
    ensures n <= tasks
  {
    if pool.accepts < tasks then pool.accepts else tasks
  }

  predicate TimesOut(pool: Pool, turns: nat) { pool.patience.Some? && turns >= pool.patience.value }

  /** A new `Mailbox` object at the start of its copy. */
  function FirstRun(box: Box, c: Contents, target: Remote): Run {
    Run(Sides(World(c, target, Stats(0, 0, 0, 0), 0), box.source), 0)
  }

  /** No two mailboxes share a name or a target account. */
  ghost predicate Distinct(boxes: seq<Box>) {
    && (forall i, j :: 0 <= i < j < |boxes| ==> boxes[i].name != boxes[j].name)
    && (forall i, j :: 0 <= i < j < |boxes| ==> boxes[i].target != boxes[j].target)
  }

  function Targets(boxes: seq<Box>): set<Server> { set i | 0 <= i < |boxes| :: boxes[i].target }

  function Indices(n: nat): (r: set<nat>)
    ensures forall i :: i in r <==> 0 <= i < n
  {
    if n == 0 then {} else Indices(n - 1) + {n - 1}
  }

  // ---------------------------------------------------------------- cleaning

  /** `cleanTargetMailbox` with its connection. */
  method CleanMailbox(box: Box) returns (ok: bool, ghost made: Client?)
    requires Cleanable(box.target.account)
    modifies box.target
    ensures Within(box.target.account, old(box.target.account))
    ensures ok ==> IsCleaned(box.target.account, old(box.target.account))
    ensures box.reachable && AlwaysAcks(box.target.oracle) ==> ok
    ensures made != null <==> box.reachable
    ensures made != null ==> fresh(made) && made.server == box.target && made.closes == 1 && (ok ==> made.gone)
    ensures ok ==> made != null
  {
    hide Within, Cleanable, IsCleaned, TailWithin, SafeSince;
    WithinItself(box.target.account);
    if !box.reachable {
      return false, null;
    }
    var client := new Client(box.target);
    made := client;
    ok := CleanTargetMailbox(client);
    var closed := client.Close();
    ok := ok && closed;
  }

  lemma WithinItself(a: Account)
    ensures Within(a, a)
  {
  }

  /** Every target can be reached and acknowledges all commands. */
  ghost predicate AllReachable(boxes: seq<Box>) {
    forall i :: 0 <= i < |boxes| ==> boxes[i].reachable && AlwaysAcks(boxes[i].target.oracle)
  }

  /** One cleaning task: it touches no other target. */
  method CleanOne(boxes: seq<Box>, i: nat, ghost after: seq<Account>) returns (cleaned: bool, ghost a: Account)
    requires Distinct(boxes) && i < |boxes| && Cleanable(boxes[i].target.account) && AccountsAre(boxes, after)
    modifies boxes[i].target
    ensures AccountsAre(boxes, after[i := a])
    ensures Within(a, after[i]) && (cleaned ==> IsCleaned(a, after[i]))
    ensures boxes[i].reachable && AlwaysAcks(boxes[i].target.oracle) ==> cleaned
  {
    hide Within, Cleanable, IsCleaned, AlwaysAcks;
    ghost var made;
    cleaned, made := CleanMailbox(boxes[i]);
    a := boxes[i].target.account;
  }

  ghost predicate AccountsAre(boxes: seq<Box>, accounts: seq<Account>)
    reads Targets(boxes)
  {
    |accounts| == |boxes| && forall i :: 0 <= i < |boxes| ==> boxes[i].target.account == accounts[i]
  }

  /** The accepted cleaning tasks, in any order, until all are through or the wait times out. */
  method CleanQueued(boxes: seq<Box>, queue: set<nat>, pool: Pool, ghost idle: set<nat>, ghost before: seq<Account>)
    returns (left: set<nat>, errors: nat, ghost after: seq<Account>)
    requires Distinct(boxes) && AccountsAre(boxes, before) && queue !! idle && queue + idle == Indices(|boxes|)
    requires forall i :: 0 <= i < |boxes| ==> Cleanable(before[i])
    modifies Targets(boxes)
    ensures AccountsAre(boxes, after) && CleanedSoFar(boxes, before, after, left + idle, errors)
    ensures pool.patience.None? ==> left == {}
  {
    hide Within, Cleanable, IsCleaned, AlwaysAcks;
    left, errors, after := queue, 0, before;
    var turns := 0;
    NothingCleanedYet(boxes, before);
    hide AllReachable, CleanedSoFar, Distinct, Indices;
    while left != {} && !TimesOut(pool, turns)
      invariant left <= queue && AccountsAre(boxes, after)
      invariant forall i :: i in left ==> 0 <= i < |boxes| && after[i] == before[i]
      invariant CleanedSoFar(boxes, before, after, left + idle, errors)
      decreases left
    {
      ghost var some := Inhabitant(left);
      var i :| i in left;
      var cleaned, a := CleanOne(boxes, i, after);
      OneMoreCleaned(boxes, before, after, left + idle, errors, i, a, cleaned);
      assert left + idle - {i} == (left - {i}) + idle;
      after := after[i := a];
      if !cleaned {
        errors := errors + 1;
      }
      left, turns := left - {i}, turns + 1;
    }
  }

  /** `cleanTargets`: all mailboxes that the pool takes are attempted, in any order, until it times out;
      true if none is left out and none failed. A task in the middle of which the time limit strikes
      is one whose server refuses everything from there on. */
  method CleanTargets(boxes: seq<Box>, pool: Pool) returns (ok: bool)
    requires Distinct(boxes) && forall i :: 0 <= i < |boxes| ==> Cleanable(boxes[i].target.account)
    modifies Targets(boxes)
    ensures forall i :: 0 <= i < |boxes| ==> Within(boxes[i].target.account, old(boxes[i].target.account))
    ensures ok ==> forall i :: 0 <= i < |boxes| ==> IsCleaned(boxes[i].target.account, old(boxes[i].target.account))
    ensures ok ==> pool.opens && pool.accepts >= |boxes|
    ensures AllReachable(boxes) && Willing(pool, |boxes|) ==> ok
  {
    hide Within, Cleanable, IsCleaned, AllReachable, CleanedSoFar, Distinct;
    ghost var before := seq(|boxes|, i requires 0 <= i < |boxes| => old(boxes[i].target.account));
    var queued := if pool.opens then Accepted(pool, |boxes|) else 0;
    var idle := Indices(|boxes|) - Indices(queued);
    assert Indices(queued) + idle == Indices(|boxes|);
    var left, errors, after := CleanQueued(boxes, Indices(queued), pool, idle, before);
    AllCleanedNow(boxes, before, after, left + idle, errors);
    return pool.opens && left == {} && idle == {} && errors == 0;
  }

  /** The mailboxes outside `left` have been attempted, with so many errors. */
  ghost predicate CleanedSoFar(boxes: seq<Box>, before: seq<Account>, after: seq<Account>, left: set<nat>,
                               errors: nat)
  {
    && |before| == |after| == |boxes|
    && (forall i :: 0 <= i < |boxes| ==> Within(after[i], before[i]))
    && (errors > 0 ==> !AllReachable(boxes))
    && (errors == 0 ==> forall i :: 0 <= i < |boxes| && i !in left ==> IsCleaned(after[i], before[i]))
  }

  lemma NothingCleanedYet(boxes: seq<Box>, before: seq<Account>)
    requires |before| == |boxes|
    ensures CleanedSoFar(boxes, before, before, Indices(|boxes|), 0)
  {
    hide Within;
    forall i | 0 <= i < |boxes| ensures Within(before[i], before[i]) { WithinItself(before[i]); }
  }

  lemma OneMoreCleaned(boxes: seq<Box>, before: seq<Account>, after: seq<Account>, left: set<nat>, errors: nat,
                       i: nat, a: Account, cleaned: bool)
    requires CleanedSoFar(boxes, before, after, left, errors) && i in left && i < |boxes|
    requires Within(a, before[i]) && (cleaned ==> IsCleaned(a, before[i]))
    requires boxes[i].reachable && AlwaysAcks(boxes[i].target.oracle) ==> cleaned
    ensures CleanedSoFar(boxes, before, after[i := a], left - {i}, if cleaned then errors else errors + 1)
  {
    hide Within, IsCleaned, AlwaysAcks;
  }

  lemma AllCleanedNow(boxes: seq<Box>, before: seq<Account>, after: seq<Account>, left: set<nat>, errors: nat)
    requires CleanedSoFar(boxes, before, after, left, errors)
    ensures forall i :: 0 <= i < |boxes| ==> Within(after[i], before[i])
    ensures errors == 0 && left == {} ==> forall i :: 0 <= i < |boxes| ==> IsCleaned(after[i], before[i])
    ensures AllReachable(boxes) ==> errors == 0
  {
    hide Within, IsCleaned, AllReachable;
  }

  // ---------------------------------------------------------------- clearing the state

  ghost predicate IsCleared(c: Contents, mb: string) { mb in c ==> c[mb] == NewMailbox(mb) }

  /** The mailbox is not configured. */
  ghost predicate IsForeign(boxes: seq<Box>, mb: string) {
    forall i :: 0 <= i < |boxes| ==> boxes[i].name != mb
  }

  /** Clears the records of all configured mailboxes, and no others. */
  method ClearAll(s: State, boxes: seq<Box>)
    requires s.Valid()
    modifies s.Repr
    ensures s.Valid() && fresh(s.Repr - old(s.Repr)) && old(s.Repr) <= s.Repr
    ensures forall i :: 0 <= i < |boxes| ==> IsCleared(s.View, boxes[i].name)
    ensures forall mb :: IsForeign(boxes, mb) ==> SameAt(s.View, old(s.View), mb)
  {
    hide State.Valid;
    for i := 0 to |boxes|
      invariant s.Valid() && fresh(s.Repr - old(s.Repr)) && old(s.Repr) <= s.Repr
      invariant forall j :: 0 <= j < i ==> IsCleared(s.View, boxes[j].name)
      invariant forall mb :: IsForeign(boxes, mb) ==> SameAt(s.View, old(s.View), mb)
    {
      ghost var before := s.View;
      s.ClearMailbox(boxes[i].name);
      forall mb | IsForeign(boxes, mb) ensures SameAt(s.View, old(s.View), mb) {
        assert SameAt(before, old(s.View), mb) && boxes[i].name != mb;
      }
    }
  }

  lemma ClearedIsNew(c: Contents, mb: string)
    requires IsCleared(c, mb)
    ensures forall f :: RecOf(c, mb, f) == SyncState.NewFolder(f)
  {
  }

  // ---------------------------------------------------------------- copying in parallel

  /** One locked call on the state. */
  method Call(s: State, mb: string, op: Op) returns (reply: Reply)
    requires s.Valid()
    modifies s.Repr
    ensures s.Valid() && fresh(s.Repr - old(s.Repr)) && old(s.Repr) <= s.Repr
    ensures s.View == Apply(old(s.View), mb, op) && reply == SyncState.Answer(old(s.View), mb, op)
    ensures s.dirty == (old(s.dirty) || Dirties(old(s.View), mb, op))
  {
    hide State.Valid, PutFolder, RecOf, OnlyFolder, SameStamps;
    reply := Void;
    match op
    case GetMailbox => var ms := s.GetMailbox(mb);
    case GetFolder(f) => var fs := s.GetFolder(mb, f);
    case SetUIDValidity(f, v) => var changed := s.SetUIDValidity(mb, f, v); reply := Flag(changed);
    case MarkSynced(f, uid) => var marked := s.MarkSynced(mb, f, uid); reply := Flag(marked);
    case MarkMultipleSynced(f, uids) => s.MarkMultipleSynced(mb, f, uids);
    case SetUIDMapping(f, source, target) => s.SetUIDMapping(mb, f, source, target);
    case UpdateLastSync(f, now) => s.UpdateLastSync(mb, f, now);
    case UpdateMailboxLastSync(now) => s.UpdateMailboxLastSync(mb, now);
    case ClearFolder(f) => s.ClearFolder(mb, f);
    case ClearMailbox => s.ClearMailbox(mb);
    case GetUIDValidity(f) => var v := s.GetUIDValidity(mb, f); reply := Number(v);
    case GetTargetUID(f, source) => var uid := s.GetTargetUID(mb, f, source); reply := Reply.Linked(uid);
    case IsSynced(f, uid) => var yes := s.IsSynced(mb, f, uid); reply := Flag(yes);
    case GetUnsyncedUIDs(f, uids) => var unsynced := s.GetUnsyncedUIDs(mb, f, uids); reply := Listed(unsynced);
    case GetHighestSyncedUID(f) => var uid := s.GetHighestSyncedUID(mb, f); reply := Number(uid);
    case GetSyncedCount(f) => var n := s.GetSyncedCount(mb, f); reply := Number(n);
  }

  lemma {:induction false} InterleaveOneMore(tasks: seq<Task<End>>, c: Contents, schedule: seq<nat>, i: nat)
    requires IsSchedule(schedule, |tasks|) && i < |tasks|
    ensures IsSchedule(schedule + [i], |tasks|)
    ensures var (ts, d) := Interleave(tasks, c, schedule); Interleave(tasks, c, schedule + [i]) == StepTask(ts, d, i)
    decreases schedule
  {
    assert forall k :: 0 <= k < |schedule + [i]| ==> (schedule + [i])[k] < |tasks|;
    if schedule == [] {
      assert ([i])[1..] == [];
    } else {
      var (ts, d) := StepTask(tasks, c, schedule[0]);
      assert (schedule + [i])[0] == schedule[0] && (schedule + [i])[1..] == schedule[1..] + [i];
      InterleaveOneMore(ts, d, schedule[1..], i);
    }
  }

  function Sum(s: seq<nat>): nat { if s == [] then 0 else s[0] + Sum(s[1..]) }

  lemma {:induction false} SumDescends(s: seq<nat>, i: nat, n: nat)
    requires i < |s| && n < s[i]
    ensures Sum(s[i := n]) < Sum(s)
  {
    if i == 0 {
      assert s[0 := n][1..] == s[1..];
    } else {
      assert s[i := n][0] == s[0] && s[i := n][1..] == s[1..][i - 1 := n];
      SumDescends(s[1..], i - 1, n);
    }
  }

  /** Each task is through after so many more calls of its own. */
  ghost predicate EndsIn(ts: seq<Task<End>>, c: Contents, left: seq<nat>) {
    |left| == |ts| && forall i :: 0 <= i < |ts| ==> Advance(ts[i].mailbox, ts[i].prog, c, left[i]).0.Done?
  }

  lemma StepEndsSooner(ts: seq<Task<End>>, c: Contents, left: seq<nat>, i: nat)
    requires EndsIn(ts, c, left) && DistinctMailboxes(ts) && i < |ts| && ts[i].prog.Ask?
    ensures |left| == |ts| && left[i] > 0 && EndsIn(StepTask(ts, c, i).0, StepTask(ts, c, i).1, left[i := left[i] - 1])
    ensures DistinctMailboxes(StepTask(ts, c, i).0)
  {
    var (ts', d) := StepTask(ts, c, i);
    assert Advance(ts[i].mailbox, ts[i].prog, c, left[i]).0.Done?;
    forall j | 0 <= j < |ts| && j != i ensures Advance(ts'[j].mailbox, ts'[j].prog, d, left[j]).0.Done? {
      assert ts[j].mailbox != ts[i].mailbox;
      TickElsewhere(ts[i].mailbox, ts[i].prog, c, ts[j].mailbox);
      AdvanceIsLocal(ts[j].mailbox, ts[j].prog, d, c, left[j]);
    }
  }

  predicate HasFailed(t: Task<End>) { t.prog.Done? && t.prog.end.error.Some? }

  /** The number of tasks that ended with an error. */
  ghost function FailedTasks(ts: seq<Task<End>>): nat { |set i | i in Indices(|ts|) && HasFailed(ts[i])| }

  /** Every mailbox has a task, and each of them has come to its end. */
  ghost predicate AllThrough(boxes: seq<Box>, ts: seq<Task<End>>) {
    |ts| == |boxes| && forall i :: 0 <= i < |ts| ==> ts[i].prog.Done?
  }

  /** The tasks that have reported an error. */
  ghost function FailedOf(ts: seq<Task<End>>, running: set<nat>): set<nat> {
    set i | i in Indices(|ts|) && i !in running && HasFailed(ts[i])
  }

  lemma FailedAfterCall(ts: seq<Task<End>>, running: set<nat>, i: nat, t: Task<End>)
    requires i in running && i < |ts|
    ensures FailedOf(ts[i := t], running) == FailedOf(ts, running)
  {
  }

  lemma FailedAfterReport(ts: seq<Task<End>>, running: set<nat>, i: nat)
    requires i in running && i < |ts|
    ensures i !in FailedOf(ts, running)
    ensures FailedOf(ts, running - {i}) == FailedOf(ts, running) + (if HasFailed(ts[i]) then {i} else {})
  {
  }

  lemma NothingDoneYet(ts: seq<Task<End>>, c: Contents)
    ensures FailedOf(ts, Indices(|ts|)) == {} && Interleave(ts, c, []) == (ts, c)
  {
  }

  lemma AllHaveReported(ts: seq<Task<End>>)
    ensures FailedOf(ts, {}) == set i | i in Indices(|ts|) && HasFailed(ts[i])
  {
  }

  /** Task number `i` makes its next call. */
  method TakeTurn(s: State, ts: seq<Task<End>>, i: nat) returns (next: Task<End>)
    requires s.Valid() && i < |ts| && ts[i].prog.Ask?
    modifies s.Repr
    ensures s.Valid() && fresh(s.Repr - old(s.Repr)) && old(s.Repr) <= s.Repr
    ensures (ts[i := next], s.View) == StepTask(ts, old(s.View), i)
  {
    hide State.Valid, Apply, SyncState.Answer;
    var reply := Call(s, ts[i].mailbox, ts[i].prog.op);
    next := ts[i].(prog := ts[i].prog.next(reply));
  }

  /** Where a run of the pool stands: `schedule` has led there, each task is through after so many more
      calls, those outside `running` have reported, and so many of them an error. */
  ghost predicate Progress(tasks: seq<Task<End>>, c0: Contents, schedule: seq<nat>, ts: seq<Task<End>>, c: Contents,
                           left: seq<nat>, running: set<nat>, errors: nat)
  {
    && IsSchedule(schedule, |tasks|) && (ts, c) == Interleave(tasks, c0, schedule)
    && DistinctMailboxes(ts) && EndsIn(ts, c, left)
    && running <= Indices(|ts|) && (forall i :: i in Indices(|ts|) && i !in running ==> ts[i].prog.Done?)
    && errors == |FailedOf(ts, running)|
  }

  lemma ProgressAtFirst(tasks: seq<Task<End>>, c: Contents, left: seq<nat>)
    requires DistinctMailboxes(tasks) && EndsIn(tasks, c, left)
    ensures Progress(tasks, c, [], tasks, c, left, Indices(|tasks|), 0)
  {
    NothingDoneYet(tasks, c);
  }

  lemma ProgressByCall(tasks: seq<Task<End>>, c0: Contents, schedule: seq<nat>, ts: seq<Task<End>>, c: Contents,
                       left: seq<nat>, running: set<nat>, errors: nat, i: nat, next: Task<End>, d: Contents)
    requires Progress(tasks, c0, schedule, ts, c, left, running, errors)
    requires i in running && i < |ts| && ts[i].prog.Ask? && (ts[i := next], d) == StepTask(ts, c, i)
    ensures |left| == |ts| && left[i] > 0 && Sum(left[i := left[i] - 1]) < Sum(left)
    ensures Progress(tasks, c0, schedule + [i], ts[i := next], d, left[i := left[i] - 1], running, errors)
  {
    hide Interleave, EndsIn, DistinctMailboxes, FailedOf, StepTask, Sum;
    StepEndsSooner(ts, c, left, i);
    InterleaveOneMore(tasks, c0, schedule, i);
    FailedAfterCall(ts, running, i, next);
    SumDescends(left, i, left[i] - 1);
  }

  lemma ProgressByReport(tasks: seq<Task<End>>, c0: Contents, schedule: seq<nat>, ts: seq<Task<End>>, c: Contents,
                         left: seq<nat>, running: set<nat>, errors: nat, i: nat)
    requires Progress(tasks, c0, schedule, ts, c, left, running, errors)
    requires i in running && i < |ts| && ts[i].prog.Done?
    ensures Progress(tasks, c0, schedule, ts, c, left, running - {i}, if HasFailed(ts[i]) then errors + 1 else errors)
  {
    hide Interleave, EndsIn, DistinctMailboxes, FailedOf, HasFailed;
    FailedAfterReport(ts, running, i);
  }

  lemma ProgressAtLast(tasks: seq<Task<End>>, c0: Contents, schedule: seq<nat>, ts: seq<Task<End>>, c: Contents,
                       left: seq<nat>, running: set<nat>, errors: nat)
    requires Progress(tasks, c0, schedule, ts, c, left, running, errors)
    ensures IsSchedule(schedule, |tasks|) && (ts, c) == Interleave(tasks, c0, schedule) && |ts| == |tasks|
    ensures forall i :: i in running ==> 0 <= i < |ts|
    ensures running == {} ==>
      (forall i :: 0 <= i < |ts| ==> ts[i].prog.Done?) && errors == |set i | i in Indices(|ts|) && HasFailed(ts[i])|
  {
    AllHaveReported(ts);
    hide Interleave, EndsIn, DistinctMailboxes, FailedOf, HasFailed;
  }

  /** The worker pool: as long as a task is not through, an arbitrary one makes its next call, or,
      being through, reports, until the wait times out. Every run of the pool is some interleaving of
      the tasks; all runs end, and unless it times out the errors counted are exactly those of the
      tasks that ended with one. */
  method RunTasks(s: State, tasks: seq<Task<End>>, pool: Pool, ghost left0: seq<nat>)
    returns (ts: seq<Task<End>>, through: bool, errors: nat, ghost schedule: seq<nat>)
    requires s.Valid() && DistinctMailboxes(tasks) && EndsIn(tasks, s.View, left0)
    modifies s.Repr
    ensures s.Valid() && fresh(s.Repr - old(s.Repr)) && old(s.Repr) <= s.Repr
    ensures IsSchedule(schedule, |tasks|) && (ts, s.View) == Interleave(tasks, old(s.View), schedule)
    ensures pool.patience.None? ==> through
    ensures through ==> forall i :: 0 <= i < |ts| ==> ts[i].prog.Done?
    ensures through ==> errors == |set i | i in Indices(|ts|) && HasFailed(ts[i])|
  {
    ghost var c0, left := s.View, left0;
    ts, errors, schedule := tasks, 0, [];
    var running, turns := Indices(|tasks|), 0;
    ProgressAtFirst(tasks, c0, left);
    hide State.Valid, Progress, Interleave, EndsIn, DistinctMailboxes, Sum, StepTask;
    while running != {} && !TimesOut(pool, turns)
      invariant s.Valid() && fresh(s.Repr - old(s.Repr)) && old(s.Repr) <= s.Repr
      invariant Progress(tasks, c0, schedule, ts, s.View, left, running, errors)
      decreases Sum(left), |running|
    {
      ghost var some := Inhabitant(running);
      var i :| i in running;
      ProgressAtLast(tasks, c0, schedule, ts, s.View, left, running, errors);
      if ts[i].prog.Ask? {
        ghost var c := s.View;
        var next := TakeTurn(s, ts, i);
        ProgressByCall(tasks, c0, schedule, ts, c, left, running, errors, i, next, s.View);
        ts, schedule, left := ts[i := next], schedule + [i], left[i := left[i] - 1];
      } else {
        ProgressByReport(tasks, c0, schedule, ts, s.View, left, running, errors, i);
        if ts[i].prog.end.error.Some? {
          errors := errors + 1;
        }
        running := running - {i};
      }
      turns := turns + 1;
    }
    through := running == {};
    ProgressAtLast(tasks, c0, schedule, ts, s.View, left, running, errors);
  }

  /** What the copy of a mailbox alone leads to, from the given records and target. */
  function Alone(box: Box, c: Contents, target: Remote): (Run, Option<MailboxError>) {
    CopyMailbox(PlanFor(box), FirstRun(box, c, target))
  }

  ghost predicate AsAlone(box: Box, c0: Contents, target0: Remote, c: Contents, target: Remote) {
    var w := Alone(box, c0, target0).0.sides.world;
    SameAt(c, w.state, box.name) && target == w.target
  }

  predicate FailsAlone(box: Box, c: Contents, target: Remote) { Alone(box, c, target).1.Some? }

  /** The mailboxes that fail alone. */
  ghost function FailedAlone(boxes: seq<Box>, remotes: seq<Remote>, c: Contents): set<nat>
    requires |remotes| == |boxes|
  {
    set i | i in Indices(|boxes|) && FailsAlone(boxes[i], c, remotes[i])
  }

  lemma NoneFailsAlone(boxes: seq<Box>, remotes: seq<Remote>, c: Contents)
    requires |remotes| == |boxes|
    ensures |FailedAlone(boxes, remotes, c)| == 0 <==> forall i :: 0 <= i < |boxes| ==>
      !FailsAlone(boxes[i], c, remotes[i])
  {
    hide FailsAlone;
    assert forall i :: i in FailedAlone(boxes, remotes, c) <==> 0 <= i < |boxes| && FailsAlone(boxes[i], c, remotes[i]);
  }

  ghost predicate AreTargets(boxes: seq<Box>, remotes: seq<Remote>)
    reads Targets(boxes)
  {
    |remotes| == |boxes| && forall i :: 0 <= i < |boxes| ==> remotes[i] == boxes[i].target.Value()
  }

  function TaskFor(box: Box, target: Remote): Task<End> {
    Task(box.name, MailboxProgram(PlanFor(box), FirstRun(box, map[], target)))
  }

  ghost predicate TasksFor(tasks: seq<Task<End>>, boxes: seq<Box>, remotes: seq<Remote>) {
    |tasks| <= |boxes| && |remotes| == |boxes| && forall i :: 0 <= i < |tasks| ==>
        tasks[i] == TaskFor(boxes[i], remotes[i])
  }

  lemma TaskRuns(box: Box, c: Contents, target: Remote)
    ensures var (r, err) := Alone(box, c, target);
            Reaches(box.name, TaskFor(box, target).prog, c, Done(End(BlankRun(r), err)), r.sides.world.state)
  {
    MailboxRuns(PlanFor(box), FirstRun(box, c, target));
  }

  lemma EnoughCalls(box: Box, c: Contents, target: Remote) returns (n: nat)
    ensures var t := TaskFor(box, target); Advance(t.mailbox, t.prog, c, n).0.Done?
  {
    TaskRuns(box, c, target);
    var (r, err) := Alone(box, c, target);
    n :| Advance(box.name, TaskFor(box, target).prog, c, n) == (Done(End(BlankRun(r), err)), r.sides.world.state);
  }

  lemma TaskEndsAsAlone(boxes: seq<Box>, remotes: seq<Remote>, tasks: seq<Task<End>>, c: Contents, schedule: seq<nat>,
                        i: nat)
    requires Distinct(boxes) && TasksFor(tasks, boxes, remotes) && |tasks| == |boxes| && i < |boxes|
    requires IsSchedule(schedule, |tasks|) && Interleave(tasks, c, schedule).0[i].prog.Done?
    ensures
      var (ts, d) := Interleave(tasks, c, schedule);
      && AsAlone(boxes[i], c, remotes[i], d, ts[i].prog.end.run.sides.world.target)
      && HasFailed(ts[i]) == FailsAlone(boxes[i], c, remotes[i])
  {
    hide Alone, CopyMailbox, Interleave;
    var (r, err) := Alone(boxes[i], c, remotes[i]);
    TaskRuns(boxes[i], c, remotes[i]);
    assert forall j :: 0 <= j < |tasks| ==> tasks[j].mailbox == boxes[j].name;
    EndsAsAlone(tasks, c, schedule, i, Done(End(BlankRun(r), err)), r.sides.world.state);
  }

  lemma AllEndAsAlone(boxes: seq<Box>, remotes: seq<Remote>, tasks: seq<Task<End>>, c: Contents, schedule: seq<nat>)
    requires Distinct(boxes) && TasksFor(tasks, boxes, remotes) && |tasks| == |boxes| && IsSchedule(schedule, |tasks|)
    requires forall i :: 0 <= i < |tasks| ==> Interleave(tasks, c, schedule).0[i].prog.Done?
    ensures var (ts, d) := Interleave(tasks, c, schedule);
      && (forall i :: 0 <= i < |boxes| ==> AsAlone(boxes[i], c, remotes[i], d, ts[i].prog.end.run.sides.world.target))
      && (set i | i in Indices(|ts|) && HasFailed(ts[i])) == FailedAlone(boxes, remotes, c)
  {
    hide AsAlone, FailsAlone, Interleave, TaskFor, HasFailed;
    var (ts, d) := Interleave(tasks, c, schedule);
    forall i | 0 <= i < |boxes|
      ensures AsAlone(boxes[i], c, remotes[i], d, ts[i].prog.end.run.sides.world.target)
      ensures HasFailed(ts[i]) == FailsAlone(boxes[i], c, remotes[i])
    {
      TaskEndsAsAlone(boxes, remotes, tasks, c, schedule, i);
    }
  }

  /** The tasks as they are put into the queue of the pool. */
  method BuildTasks(boxes: seq<Box>, accepted: nat, ghost remotes: seq<Remote>, ghost c: Contents)
    returns (tasks: seq<Task<End>>, ghost left: seq<nat>)
    requires AreTargets(boxes, remotes) && accepted <= |boxes|
    ensures TasksFor(tasks, boxes, remotes) && |tasks| == accepted && EndsIn(tasks, c, left)
  {
    hide TaskFor;
    tasks, left := [], [];
    for i := 0 to accepted
      invariant TasksFor(tasks, boxes, remotes) && |tasks| == i && EndsIn(tasks, c, left)
    {
      ghost var n := EnoughCalls(boxes[i], c, remotes[i]);
      tasks := tasks + [TaskFor(boxes[i], boxes[i].target.Value())];
      left := left + [n];
    }
  }

  /** The target as a task has it in its hands. */
  function TargetOf(q: Prog<End>): Remote {
    match q
    case Done(end) => end.run.sides.world.target
    case Ask(own, _, _) => own.target
  }

  /** What the tasks have done on their targets so far. */
  method SettleTargets(boxes: seq<Box>, ts: seq<Task<End>>)
    requires Distinct(boxes) && |ts| <= |boxes|
    modifies Targets(boxes)
    ensures forall i :: 0 <= i < |ts| ==> boxes[i].target.Value() == TargetOf(ts[i].prog)
    ensures forall i :: |ts| <= i < |boxes| ==> boxes[i].target.Value() == old(boxes[i].target.Value())
  {
    for i := 0 to |ts|
      invariant forall j :: 0 <= j < i ==> boxes[j].target.Value() == TargetOf(ts[j].prog)
      invariant forall j :: i <= j < |boxes| ==> boxes[j].target.Value() == old(boxes[j].target.Value())
    {
      boxes[i].target.Settle(TargetOf(ts[i].prog));
    }
  }

  /** How the parallel copy ends for its caller. */
  datatype Parallel = Through(errors: nat) | NotEnqueued | OutOfTime

  /** The parallel copy. It is some interleaving of the tasks that were accepted. If all are and the wait
      does not time out, each mailbox ends as if it had been copied alone, and the errors counted
      are those of the mailboxes that fail alone. */
  method CopyMailboxes(s: State, boxes: seq<Box>, pool: Pool, ghost remotes: seq<Remote>)
    returns (result: Parallel, ghost tasks: seq<Task<End>>, ghost ts: seq<Task<End>>, ghost schedule: seq<nat>)
    requires s.Valid() && Distinct(boxes) && AreTargets(boxes, remotes) && s.Repr !! Targets(boxes)
    modifies s.Repr, Targets(boxes)
    ensures s.Valid() && fresh(s.Repr - old(s.Repr)) && old(s.Repr) <= s.Repr
    ensures TasksFor(tasks, boxes, remotes) && |tasks| == Accepted(pool, |boxes|)
    ensures IsSchedule(schedule, |tasks|) && (ts, s.View) == Interleave(tasks, old(s.View), schedule)
    ensures forall i :: 0 <= i < |ts| ==> boxes[i].target.Value() == TargetOf(ts[i].prog)
    ensures forall i :: |ts| <= i < |boxes| ==> boxes[i].target.Value() == remotes[i]
    ensures result.Through? ==>
      forall i :: 0 <= i < |boxes| ==> AsAlone(boxes[i], old(s.View), remotes[i], s.View, boxes[i].target.Value())
    ensures result.Through? ==> result.errors == |FailedAlone(boxes, remotes, old(s.View))|
    ensures result.Through? ==> AllThrough(boxes, ts) && result.errors == FailedTasks(ts)
    ensures forall mb :: IsForeign(boxes, mb) ==> SameAt(s.View, old(s.View), mb)
    ensures result.NotEnqueued? <==> pool.accepts < |boxes|
    ensures result.OutOfTime? ==> pool.patience.Some?
    ensures Willing(pool, |boxes|) ==> result.Through?
  {
    hide State.Valid, AsAlone, FailsAlone, Interleave, TaskFor, HasFailed, EndsIn, SameAt;
    ghost var c := s.View;
    var queue, left := BuildTasks(boxes, Accepted(pool, |boxes|), remotes, c);
    tasks := queue;
    NamesOfTasks(boxes, remotes, tasks);
    var now, through, failures;
    now, through, failures, schedule := RunTasks(s, queue, pool, left);
    ts := now;
    forall mb | IsForeign(boxes, mb) ensures SameAt(s.View, c, mb) {
      ForeignUntouched(boxes, remotes, tasks, c, schedule, mb);
    }
    SettleTargets(boxes, now);
    if |queue| < |boxes| {
      return NotEnqueued, tasks, ts, schedule;
    }
    if !through {
      return OutOfTime, tasks, ts, schedule;
    }
    AllEndAsAlone(boxes, remotes, tasks, c, schedule);
    assert |ts| == |boxes|;
    return Through(failures), tasks, ts, schedule;
  }

  lemma ForeignUntouched(boxes: seq<Box>, remotes: seq<Remote>, tasks: seq<Task<End>>, c: Contents,
                         schedule: seq<nat>, mb: string)
    requires TasksFor(tasks, boxes, remotes) && IsSchedule(schedule, |tasks|)
    requires IsForeign(boxes, mb)
    ensures SameAt(Interleave(tasks, c, schedule).1, c, mb)
  {
    hide Interleave, SameAt;
    OthersUntouched(tasks, c, schedule, mb);
  }

  lemma NamesOfTasks(boxes: seq<Box>, remotes: seq<Remote>, tasks: seq<Task<End>>)
    requires Distinct(boxes) && TasksFor(tasks, boxes, remotes)
    ensures DistinctMailboxes(tasks)
  {
  }

  // ---------------------------------------------------------------- the whole run

  datatype RunError =
    | NotConfirmed | CleanupFailed | LoadFailed | SaveClearedFailed | PoolFailed | EnqueueFailed | TimedOut
    | SaveFailed | MailboxesFailed(count: nat) | StopFailed

  /** The records and a target account as one mailbox sees them. */
  function Seen(c: Contents, target: Remote): World { World(c, target, Stats(0, 0, 0, 0), 0) }

  /** The source is a proper account, and the records of the mailbox agree with its target. */
  ghost predicate IsSound(box: Box, c: Contents, target: Remote) {
    AllSound(PlanFor(box), box.source.account, Seen(c, target))
  }

  /** Every selectable source folder has been brought over whole, and nothing foreign is there. */
  ghost predicate IsHome(box: Box, c: Contents, target: Remote) {
    && (forall f :: CanSelect(box.source.account, f) ==> Home(PlanFor(box), box.source.account, f, Seen(c, target)))
    && NothingForeign(box.source.account, target.account)
  }

  /** Nothing fails for this mailbox, and the target has UIDs enough for its messages. */
  ghost predicate IsSmooth(box: Box, target: Account, gap: nat) {
    FaultFree(PlanFor(box), gap) && HasRoom(box.source.account, target, gap)
  }

  /** The same, told of the target before it is cleaned: only INBOX keeps its UIDNEXT. */
  ghost predicate WillBeSmooth(box: Box, original: Account, gap: nat)
    requires INBOX in original.folders
  {
    && box.reachable && FaultFree(PlanFor(box), gap)
    && forall f :: CanSelect(box.source.account, f) ==>
         Fits(|box.source.account.folders[f].msgs|, if f == INBOX then original.folders[INBOX].uidNext else 1 + gap,
              gap)
  }

  lemma CleanedIsSmooth(box: Box, original: Account, target: Account, gap: nat)
    requires Cleanable(original) && IsCleaned(target, original) && WillBeSmooth(box, original, gap)
    ensures IsSmooth(box, target, gap)
  {
    hide Fits, FaultFree;
  }

  lemma SmoothSucceeds(box: Box, c: Contents, target: Remote, gap: nat)
    requires ValidAccount(box.source.account) && FreshStart(PlanFor(box), FirstRun(box, c, target))
    requires IsSmooth(box, target.account, gap)
    ensures !FailsAlone(box, c, target)
  {
    hide CopyMailbox, FreshStart, ValidAccount, FaultFree, HasRoom;
    MailboxSucceeds(PlanFor(box), FirstRun(box, c, target), gap);
  }

  lemma HomeRespectsRecords(p: Plan, src: Account, f: string, w: World, w': World)
    requires f in src.folders && Home(p, src, f, w)
    requires w'.target.account == w.target.account && RecOf(w'.state, p.mailbox, f) == RecOf(w.state, p.mailbox, f)
    ensures Home(p, src, f, w')
  {
    hide Tied, RecOf;
  }

  lemma SoundRespectsRecords(p: Plan, src: Account, w: World, w': World)
    requires AllSound(p, src, w) && w'.target.account == w.target.account && SameAt(w'.state, w.state, p.mailbox)
    ensures AllSound(p, src, w')
  {
    hide Tied;
  }

  lemma CleanedIsFresh(box: Box, c: Contents, a0: Account, target: Remote)
    requires IsCleared(c, box.name) && Cleanable(a0) && a0.delim != '%' && IsCleaned(target.account, a0)
    ensures FreshStart(PlanFor(box), FirstRun(box, c, target))
  {
    ClearedIsNew(c, box.name);
    assert ValidFolder(a0.folders[INBOX]);
    hide RecOf;
  }

  /** What the copy of a mailbox leaves behind, seen through the shared state. */
  lemma CopiedMailbox(box: Box, c0: Contents, target0: Remote, c: Contents, target: Remote)
    requires ValidAccount(box.source.account) && FreshStart(PlanFor(box), FirstRun(box, c0, target0))
    requires AsAlone(box, c0, target0, c, target)
    ensures IsSound(box, c, target) && NothingForeign(box.source.account, target.account)
    ensures !FailsAlone(box, c0, target0) && Uncancelled(PlanFor(box)) ==> IsHome(box, c, target)
    ensures !FailsAlone(box, c0, target0) && Uncancelled(PlanFor(box)) && AlwaysAcks(box.target.oracle) ==>
              IsWhole(PlanFor(box), box.source.account, Seen(c, target))
  {
    var p, r, src := PlanFor(box), FirstRun(box, c0, target0), box.source.account;
    var w := CopyMailbox(p, r).0.sides.world;
    FreshStartIsSound(p, r, src);
    CopyMailboxKeepsSound(p, r);
    NothingForeignAfterwards(p, r);
    hide CopyMailbox, FreshStart, AllSound, Home, NothingForeign, ValidAccount, RecOf, IsWhole, AlwaysAcks, Uncancelled;
    SoundRespectsRecords(p, src, w, Seen(c, target));
    if !FailsAlone(box, c0, target0) && Uncancelled(p) {
      SuccessMeansHome(p, r);
      forall f | CanSelect(src, f) ensures Home(p, src, f, Seen(c, target)) {
        SameRecords(c, w.state, box.name, f);
        HomeRespectsRecords(p, src, f, w, Seen(c, target));
      }
      if AlwaysAcks(box.target.oracle) {
        SuccessMeansWhole(p, r);
        forall f ensures RecOf(c, box.name, f) == RecOf(w.state, box.name, f) { SameRecords(c, w.state, box.name, f); }
        WholeRespectsRecords(p, src, w, Seen(c, target));
      }
    }
  }

  lemma SameRecords(c: Contents, d: Contents, mb: string, f: string)
    requires SameAt(c, d, mb)
    ensures RecOf(c, mb, f) == RecOf(d, mb, f)
  {
  }

  /** All records agree with the targets, and nothing foreign is on these. */
  ghost predicate AllSoundNow(boxes: seq<Box>, c: Contents)
    reads Targets(boxes)
  {
    forall i :: 0 <= i < |boxes| ==>
      && IsSound(boxes[i], c, boxes[i].target.Value())
      && NothingForeign(boxes[i].source.account, boxes[i].target.account)
  }

  ghost predicate AllHomeNow(boxes: seq<Box>, c: Contents)
    reads Targets(boxes)
  {
    forall i :: 0 <= i < |boxes| ==> IsHome(boxes[i], c, boxes[i].target.Value())
  }

  /** Every mailbox is copied whole: the UID map of each folder is a bijection onto exact images, and the
      verifier passes the mailbox exactly if no message was left out as deleted. */
  ghost predicate AllWholeNow(boxes: seq<Box>, c: Contents)
    reads Targets(boxes)
  {
    forall i :: 0 <= i < |boxes| ==>
      var p, src, w := PlanFor(boxes[i]), boxes[i].source.account, Seen(c, boxes[i].target.Value());
      IsWhole(p, src, w) && IsProven(p, src, w)
  }

  ghost predicate AllAcknowledge(boxes: seq<Box>) {
    forall i :: 0 <= i < |boxes| ==> AlwaysAcks(boxes[i].target.oracle)
  }

  /** The context does not end before the run does. */
  ghost predicate AllUncancelled(boxes: seq<Box>) {
    forall i :: 0 <= i < |boxes| ==> Uncancelled(PlanFor(boxes[i]))
  }

  ghost predicate AllSmoothNow(boxes: seq<Box>, gap: nat)
    reads Targets(boxes)
  {
    forall i :: 0 <= i < |boxes| ==> IsSmooth(boxes[i], boxes[i].target.account, gap)
  }

  /** In the middle of the parallel copy: every task stands where the records of its mailbox agree with
      the target in its hands, and the mailboxes without a task are as they were. */
  ghost predicate AllFineNow(boxes: seq<Box>, ts: seq<Task<End>>, c: Contents)
    reads Targets(boxes)
  {
    && |ts| <= |boxes|
    && (forall i :: 0 <= i < |ts| ==>
          && boxes[i].target.Value() == TargetOf(ts[i].prog)
          && Fine(PlanFor(boxes[i]), boxes[i].source.account, ts[i].prog, c))
    && (forall i :: |ts| <= i < |boxes| ==> IsSound(boxes[i], c, boxes[i].target.Value()))
  }

  /** The targets are cleaned, and the sources proper. */
  ghost predicate AllCleaned(boxes: seq<Box>, originals: seq<Account>)
    reads Targets(boxes)
  {
    && |originals| == |boxes|
    && forall i :: 0 <= i < |boxes| ==>
         && ValidAccount(boxes[i].source.account)
         && Cleanable(originals[i]) && originals[i].delim != '%'
         && IsCleaned(boxes[i].target.account, originals[i])
  }

  /** The parallel copy begins with these targets and records: all fresh. */
  ghost predicate AllFresh(boxes: seq<Box>, remotes: seq<Remote>, c: Contents) {
    && |remotes| == |boxes|
    && forall i :: 0 <= i < |boxes| ==>
         ValidAccount(boxes[i].source.account) && FreshStart(PlanFor(boxes[i]), FirstRun(boxes[i], c, remotes[i]))
  }

  lemma CleanedAreFresh(boxes: seq<Box>, originals: seq<Account>, remotes: seq<Remote>, c: Contents)
    requires |originals| == |boxes| == |remotes|
    requires forall i :: 0 <= i < |boxes| ==>
      && ValidAccount(boxes[i].source.account) && Cleanable(originals[i]) && originals[i].delim != '%'
      && IsCleaned(remotes[i].account, originals[i]) && IsCleared(c, boxes[i].name)
    ensures AllFresh(boxes, remotes, c)
  {
    hide ValidAccount, Cleanable, IsCleaned, IsCleared, FreshStart;
    forall i | 0 <= i < |boxes| ensures FreshStart(PlanFor(boxes[i]), FirstRun(boxes[i], c, remotes[i])) {
      CleanedIsFresh(boxes[i], c, originals[i], remotes[i]);
    }
  }

  lemma AllCopied(boxes: seq<Box>, remotes: seq<Remote>, c0: Contents, c: Contents)
    requires AllFresh(boxes, remotes, c0)
    requires forall i :: 0 <= i < |boxes| ==> AsAlone(boxes[i], c0, remotes[i], c, boxes[i].target.Value())
    ensures AllSoundNow(boxes, c)
    ensures |FailedAlone(boxes, remotes, c0)| == 0 && AllUncancelled(boxes) ==>
              AllHomeNow(boxes, c) && (AllAcknowledge(boxes) ==> AllWholeNow(boxes, c))
  {
    hide ValidAccount, AsAlone, FailsAlone, IsSound, IsHome, IsWhole, IsProven, FreshStart, AlwaysAcks, FailedAlone,
      NothingForeign, Uncancelled;
    forall i | 0 <= i < |boxes|
      ensures IsSound(boxes[i], c, boxes[i].target.Value())
      ensures NothingForeign(boxes[i].source.account, boxes[i].target.account)
      ensures !FailsAlone(boxes[i], c0, remotes[i]) && Uncancelled(PlanFor(boxes[i])) ==>
                IsHome(boxes[i], c, boxes[i].target.Value())
      ensures
        && !FailsAlone(boxes[i], c0, remotes[i]) && Uncancelled(PlanFor(boxes[i]))
        && AlwaysAcks(boxes[i].target.oracle)
        ==>
        && IsWhole(PlanFor(boxes[i]), boxes[i].source.account, Seen(c, boxes[i].target.Value()))
        && IsProven(PlanFor(boxes[i]), boxes[i].source.account, Seen(c, boxes[i].target.Value()))
    {
      CopiedMailbox(boxes[i], c0, remotes[i], c, boxes[i].target.Value());
      if IsWhole(PlanFor(boxes[i]), boxes[i].source.account, Seen(c, boxes[i].target.Value())) {
        WholeIsProven(PlanFor(boxes[i]), boxes[i].source.account, Seen(c, boxes[i].target.Value()));
      }
    }
    NoneFailsAlone(boxes, remotes, c0);
  }

  lemma AllSucceed(boxes: seq<Box>, remotes: seq<Remote>, c: Contents, gap: nat)
    requires AllFresh(boxes, remotes, c)
    requires forall i :: 0 <= i < |boxes| ==> IsSmooth(boxes[i], remotes[i].account, gap)
    ensures |FailedAlone(boxes, remotes, c)| == 0
  {
    hide ValidAccount, FailsAlone, FreshStart, IsSmooth, FailedAlone;
    forall i | 0 <= i < |boxes| ensures !FailsAlone(boxes[i], c, remotes[i]) {
      SmoothSucceeds(boxes[i], c, remotes[i], gap);
    }
    NoneFailsAlone(boxes, remotes, c);
  }

  /** One task, wherever the schedule has brought it. */
  lemma TaskIsFine(boxes: seq<Box>, remotes: seq<Remote>, tasks: seq<Task<End>>, c: Contents, schedule: seq<nat>,
                   i: nat)
    requires Distinct(boxes) && AllFresh(boxes, remotes, c) && TasksFor(tasks, boxes, remotes)
    requires IsSchedule(schedule, |tasks|) && i < |tasks|
    ensures var (ts, d) := Interleave(tasks, c, schedule);
            Fine(PlanFor(boxes[i]), boxes[i].source.account, ts[i].prog, d)
  {
    hide Fine, FreshStart, Interleave, MailboxProgram, ValidAccount, AllSound;
    var plans := seq(|tasks|, j requires 0 <= j < |tasks| => PlanFor(boxes[j]));
    var runs := seq(|tasks|, j requires 0 <= j < |tasks| => FirstRun(boxes[j], c, remotes[j]));
    forall j | 0 <= j < |tasks| ensures tasks[j] == TaskOf(plans[j], runs[j]) {
      assert BlankRun(runs[j]) == FirstRun(boxes[j], map[], remotes[j]);
    }
    FreshStartIsSound(plans[i], runs[i], boxes[i].source.account);
    EveryStateIsFine(plans, runs, tasks, c, schedule, i);
  }

  /** A mailbox without a task is as it was. */
  lemma TasklessIsSound(boxes: seq<Box>, remotes: seq<Remote>, tasks: seq<Task<End>>, c: Contents, schedule: seq<nat>,
                        i: nat)
    requires Distinct(boxes) && AllFresh(boxes, remotes, c) && TasksFor(tasks, boxes, remotes)
    requires IsSchedule(schedule, |tasks|) && |tasks| <= i < |boxes|
    ensures IsSound(boxes[i], Interleave(tasks, c, schedule).1, remotes[i])
  {
    hide FreshStart, Interleave, MailboxProgram, ValidAccount, AllSound;
    var p, r := PlanFor(boxes[i]), FirstRun(boxes[i], c, remotes[i]);
    FreshStartIsSound(p, r, boxes[i].source.account);
    OthersUntouched(tasks, c, schedule, boxes[i].name);
    var d := Interleave(tasks, c, schedule).1;
    SoundRespectsRecords(p, boxes[i].source.account, r.sides.world, Seen(d, remotes[i]));
  }

  lemma AllAreFine(boxes: seq<Box>, remotes: seq<Remote>, tasks: seq<Task<End>>, c0: Contents, schedule: seq<nat>,
                   ts: seq<Task<End>>, c: Contents)
    requires Distinct(boxes) && AllFresh(boxes, remotes, c0) && TasksFor(tasks, boxes, remotes)
    requires IsSchedule(schedule, |tasks|) && (ts, c) == Interleave(tasks, c0, schedule)
    requires forall i :: 0 <= i < |ts| ==> boxes[i].target.Value() == TargetOf(ts[i].prog)
    requires forall i :: |ts| <= i < |boxes| ==> boxes[i].target.Value() == remotes[i]
    ensures AllFineNow(boxes, ts, c)
  {
    hide Fine, Interleave, IsSound, AllFresh, Distinct;
    forall i | 0 <= i < |ts| ensures Fine(PlanFor(boxes[i]), boxes[i].source.account, ts[i].prog, c) {
      TaskIsFine(boxes, remotes, tasks, c0, schedule, i);
    }
    forall i | |ts| <= i < |boxes| ensures IsSound(boxes[i], c, boxes[i].target.Value()) {
      TasklessIsSound(boxes, remotes, tasks, c0, schedule, i);
    }
  }

  ghost function RemotesOf(boxes: seq<Box>): (r: seq<Remote>)
    reads Targets(boxes)
    ensures |r| == |boxes| && forall i :: 0 <= i < |boxes| ==> r[i] == boxes[i].target.Value()
  {
    if boxes == [] then []
    else
      var last := |boxes| - 1;
      assert forall i :: 0 <= i < last ==> boxes[..last][i].target == boxes[i].target;
      RemotesOf(boxes[..last]) + [boxes[last].target.Value()]
  }

  /** The parallel copy from cleared records and cleaned targets. */
  method CopyCleared(s: State, boxes: seq<Box>, pool: Pool, ghost originals: seq<Account>, ghost gap: nat)
    returns (result: Parallel, ghost ts: seq<Task<End>>)
    requires s.Valid() && Distinct(boxes) && AllCleaned(boxes, originals) && s.Repr !! Targets(boxes)
    requires forall i :: 0 <= i < |boxes| ==> IsCleared(s.View, boxes[i].name)
    modifies s.Repr, Targets(boxes)
    ensures s.Valid() && fresh(s.Repr - old(s.Repr)) && old(s.Repr) <= s.Repr
    ensures AllFineNow(boxes, ts, s.View)
    ensures result.Through? ==> AllSoundNow(boxes, s.View)
    ensures result.Through? ==> AllThrough(boxes, ts) && result.errors == FailedTasks(ts)
    ensures forall mb :: IsForeign(boxes, mb) ==> SameAt(s.View, old(s.View), mb)
    ensures result.NotEnqueued? <==> pool.accepts < |boxes|
    ensures result.OutOfTime? ==> pool.patience.Some?
    ensures result == Through(0) && AllUncancelled(boxes) ==>
              AllHomeNow(boxes, s.View) && (AllAcknowledge(boxes) ==> AllWholeNow(boxes, s.View))
    ensures Willing(pool, |boxes|) && old(AllSmoothNow(boxes, gap)) ==> result == Through(0)
  {
    hide State.Valid, ValidAccount, Cleanable, IsCleaned, IsCleared, AsAlone, FailsAlone, IsSmooth, Interleave, Fine,
      AllFresh, AllSoundNow, AllHomeNow, AllWholeNow, AllAcknowledge, AllFineNow, AllUncancelled, SameAt;
    ghost var c0, remotes, tasks, schedule := s.View, RemotesOf(boxes), [], [];
    CleanedAreFresh(boxes, originals, remotes, c0);
    if AllSmoothNow(boxes, gap) { AllSucceed(boxes, remotes, c0, gap); }
    result, tasks, ts, schedule := CopyMailboxes(s, boxes, pool, remotes);
    AllAreFine(boxes, remotes, tasks, c0, schedule, ts, s.View);
    if result.Through? { AllCopied(boxes, remotes, c0, s.View); }
  }

  /** What becomes of the file operations of a run. */
  datatype FileFaults = FileFaults(tempRemoved: bool, readable: bool, first: SaveFaults, last: SaveFaults)

  /** The state file holds cleared records for all mailboxes. */
  ghost predicate ClearedOnDisk(files: Files, boxes: seq<Box>) {
    LoadOf(files).Loaded? && forall i :: 0 <= i < |boxes| ==> IsCleared(LoadOf(files).contents, boxes[i].name)
  }

  lemma LoadSaysWhy(files: Files, readable: bool)
    ensures ReadOf(files, readable).Loaded? <==> readable && LoadOf(files).Loaded?
  {
  }

  lemma ClearedIsOnDisk(files: Files, c: Contents, boxes: seq<Box>)
    requires LoadOf(files) == Loaded(c) && forall i :: 0 <= i < |boxes| ==> IsCleared(c, boxes[i].name)
    ensures ClearedOnDisk(files, boxes)
  {
    hide LoadOf, IsCleared;
  }

  /** The temporary file does not matter. */
  lemma ClearedByMain(a: Files, b: Files, boxes: seq<Box>)
    requires ClearedOnDisk(a, boxes) && a.main == b.main
    ensures ClearedOnDisk(b, boxes)
  {
  }

  /** Loads the records, clears those of the configured mailboxes, and saves. */
  method LoadAndClear(boxes: seq<Box>, path: string, disk: Disk, now: Timestamp, faults: FileFaults)
    returns (err: Option<RunError>, s: State?)
    modifies disk
    ensures err == Some(LoadFailed) <==> !faults.readable || !LoadOf(old(disk.Image())).Loaded?
    ensures err == Some(SaveClearedFailed) <==> err != Some(LoadFailed) && !SaveSucceeds(faults.first)
    ensures err in {None, Some(LoadFailed), Some(SaveClearedFailed)}
    ensures err == None ==>
      && s != null && s.Valid() && fresh(s.Repr) && s in s.Repr && ClearedOnDisk(disk.Image(), boxes)
      && (forall i :: 0 <= i < |boxes| ==> IsCleared(s.View, boxes[i].name))
      && OthersKept(boxes, s.View, LoadOf(old(disk.Image())))
  {
    hide IsCleared, LoadOf, SaveSteps, AfterSave, Encode, IsWholeDoc, StateStore.SameRecords, ReloadFiles, SameAt,
      ClearedOnDisk, SaveSucceeds;
    LoadSaysWhy(disk.Image(), faults.readable);
    var result;
    result, s := Load(path, disk, faults.tempRemoved, faults.readable);
    if s == null {
      return Some(LoadFailed), s;
    }
    assert s in s.Repr;
    hide State.Valid;
    ClearAll(s, boxes);
    var saved := StateFile.Save(s, disk, now, faults.first);
    if !saved {
      return Some(SaveClearedFailed), s;
    }
    ClearedIsOnDisk(disk.Image(), s.View, boxes);
    return None, s;
  }

  /** The mailboxes that are not configured have the records that were loaded. */
  ghost predicate OthersKept(boxes: seq<Box>, c: Contents, loaded: LoadResult) {
    loaded.Loaded? &&
    forall mb :: IsForeign(boxes, mb) ==> SameAt(c, loaded.contents, mb)
  }

  lemma StillKept(boxes: seq<Box>, c: Contents, before: Contents, loaded: LoadResult)
    requires OthersKept(boxes, before, loaded)
    requires forall mb :: IsForeign(boxes, mb) ==> SameAt(c, before, mb)
    ensures OthersKept(boxes, c, loaded)
  {
    forall mb | IsForeign(boxes, mb) ensures SameAt(c, loaded.contents, mb) { assert SameAt(c, before, mb); }
  }

  /** From the cleaned targets on: load, clear, save, copy, save. */
  method CopyAndSave(boxes: seq<Box>, path: string, disk: Disk, now: Timestamp, faults: FileFaults, pool: Pool,
                     ghost originals: seq<Account>, ghost gap: nat)
    returns (err: Option<RunError>, s: State?, ghost ts: seq<Task<End>>)
    requires Distinct(boxes) && AllCleaned(boxes, originals)
    modifies disk, Targets(boxes)
    ensures err !in {Some(NotConfirmed), Some(CleanupFailed)}
    ensures err in {Some(LoadFailed), Some(SaveClearedFailed), Some(PoolFailed)} ==> AllCleaned(boxes, originals)
    ensures err in {Some(PoolFailed), Some(EnqueueFailed), Some(TimedOut)} ==> ClearedOnDisk(disk.Image(), boxes)
    ensures err in {Some(EnqueueFailed), Some(TimedOut)} ==> s != null && s.Valid() && AllFineNow(boxes, ts, s.View)
    ensures Finished(err) ==> s != null && s.Valid() && AllSoundNow(boxes, s.View) && AllThrough(boxes, ts)
    ensures Finished(err) && SaveSucceeds(faults.last) ==> s != null && LoadOf(disk.Image()) == Loaded(s.View)
    ensures err == Some(SaveFailed) <==> Finished(err) && !SaveSucceeds(faults.last)
    ensures err == Some(SaveFailed) ==> ClearedOnDisk(disk.Image(), boxes)
    ensures forall n :: err == Some(MailboxesFailed(n)) <==>
      Finished(err) && SaveSucceeds(faults.last) && n > 0 && n == FailedTasks(ts)
    ensures Finished(err) ==> s != null && OthersKept(boxes, s.View, LoadOf(old(disk.Image())))
    ensures err ==
      if !faults.readable || !LoadOf(old(disk.Image())).Loaded? then Some(LoadFailed)
      else if !SaveSucceeds(faults.first) then Some(SaveClearedFailed)
      else if !pool.opens then Some(PoolFailed)
      else if pool.accepts < |boxes| then Some(EnqueueFailed)
      else if err == Some(TimedOut) && pool.patience.Some? then Some(TimedOut)
      else if !SaveSucceeds(faults.last) then Some(SaveFailed)
      else if FailedTasks(ts) > 0 then Some(MailboxesFailed(FailedTasks(ts)))
      else if pool.closes then None
      else Some(StopFailed)
    ensures err in {None, Some(StopFailed)} && AllUncancelled(boxes) ==>
      s != null && AllHomeNow(boxes, s.View) && (AllAcknowledge(boxes) ==> AllWholeNow(boxes, s.View))
    ensures
      && LoadOf(old(disk.Image())).Loaded? && faults.readable && SaveSucceeds(faults.first) && SaveSucceeds(faults.last)
      && Willing(pool, |boxes|) && old(AllSmoothNow(boxes, gap))
      ==> err == None
  {
    hide AllCleaned, AllSoundNow, AllHomeNow, AllWholeNow, AllAcknowledge, AllSmoothNow, AllFineNow, AllUncancelled,
      IsCleared, SaveSucceeds, LoadOf, AllThrough, FailedTasks, ClearedOnDisk, SaveSteps, AfterSave, Encode, IsWholeDoc,
      StateStore.SameRecords, OthersKept, SameAt, State.Valid;
    ts := [];
    err, s := LoadAndClear(boxes, path, disk, now, faults);
    if err.Some? {
      return err, s, ts;
    }
    if !pool.opens {
      return Some(PoolFailed), s, ts;
    }
    ghost var c0 := s.View;
    var copied;
    copied, ts := CopyCleared(s, boxes, pool, originals, gap);
    match copied {
      case NotEnqueued => return Some(EnqueueFailed), s, ts;
      case OutOfTime => return Some(TimedOut), s, ts;
      case Through(errors) =>
        ghost var before := disk.Image();
        StillKept(boxes, s.View, c0, LoadOf(old(disk.Image())));
        var saved := StateFile.Save(s, disk, now, faults.last);
        if !saved {
          ClearedByMain(before, disk.Image(), boxes);
          return Some(SaveFailed), s, ts;
        }
        if errors > 0 {
          return Some(MailboxesFailed(errors)), s, ts;
        }
        return if pool.closes then None else Some(StopFailed), s, ts;
    }
  }

  /** All tasks were through when the run ended. */
  predicate Finished(err: Option<RunError>) {
    err.None? || err.value.SaveFailed? || err.value.MailboxesFailed? || err.value.StopFailed?
  }

  lemma AllWillBeSmooth(boxes: seq<Box>, originals: seq<Account>, gap: nat)
    requires AllCleaned(boxes, originals)
    requires forall i :: 0 <= i < |boxes| ==> INBOX in originals[i].folders && WillBeSmooth(boxes[i], originals[i], gap)
    ensures AllSmoothNow(boxes, gap)
  {
    hide ValidAccount, Cleanable, IsCleaned, WillBeSmooth, IsSmooth;
    forall i | 0 <= i < |boxes| ensures IsSmooth(boxes[i], boxes[i].target.account, gap) {
      CleanedIsSmooth(boxes[i], originals[i], boxes[i].target.account, gap);
    }
  }

  lemma SmoothAcknowledges(box: Box, original: Account, gap: nat)
    requires INBOX in original.folders && WillBeSmooth(box, original, gap)
    ensures box.reachable && AlwaysAcks(box.target.oracle)
  {
  }

  /** `performCopy`. Unless the user types YES nothing at all happens; unless every target could be
      cleaned nothing is loaded, saved or copied. After that the records agree with the targets
      wherever the run ends: at whatever call of whatever task if the pool or the time limit cuts it
      off, and for all mailboxes if the tasks are through, however many fail and wherever the context
      ends; then nothing foreign is on the targets either, and the state file holds these records if
      it could be saved. The error is that of the first step that fails; failed mailboxes are counted
      after the records of all have been saved. If the run returns nil undisturbed, every mailbox is
      home; if moreover the targets acknowledged everything, each UID map is a bijection onto exact
      images and the verifier passes each mailbox exactly if no message was left out as deleted. And
      if nothing fails, the run returns nil. All this for any answers of the servers and any
      interleaving of the tasks. */
  method PerformCopy(input: Input, boxes: seq<Box>, path: string, disk: Disk, now: Timestamp, faults: FileFaults,
                     cleaning: Pool, copying: Pool, ghost gap: nat)
    returns (err: Option<RunError>, s: State?, ghost ts: seq<Task<End>>)
    requires Distinct(boxes)
    requires forall i :: 0 <= i < |boxes| ==>
      && ValidAccount(boxes[i].source.account)
      && Cleanable(boxes[i].target.account) && boxes[i].target.account.delim != '%'
    modifies disk, Targets(boxes)
    ensures !Confirmed(input) <==> err == Some(NotConfirmed)
    ensures err in {Some(NotConfirmed), Some(CleanupFailed)} ==> disk.Image() == old(disk.Image())
    ensures err == Some(NotConfirmed) ==>
      forall i :: 0 <= i < |boxes| ==> boxes[i].target.Value() == old(boxes[i].target.Value())
    ensures err == Some(CleanupFailed) ==>
      forall i :: 0 <= i < |boxes| ==> Within(boxes[i].target.account, old(boxes[i].target.account))
    ensures err in {Some(LoadFailed), Some(SaveClearedFailed), Some(PoolFailed)} ==>
      forall i :: 0 <= i < |boxes| ==> IsCleaned(boxes[i].target.account, old(boxes[i].target.account))
    ensures err in {Some(PoolFailed), Some(EnqueueFailed), Some(TimedOut)} ==> ClearedOnDisk(disk.Image(), boxes)
    ensures err in {Some(EnqueueFailed), Some(TimedOut)} ==> s != null && s.Valid() && AllFineNow(boxes, ts, s.View)
    ensures Finished(err) ==> s != null && s.Valid() && AllSoundNow(boxes, s.View) && AllThrough(boxes, ts)
    ensures Finished(err) && SaveSucceeds(faults.last) ==> s != null && LoadOf(disk.Image()) == Loaded(s.View)
    ensures err == Some(SaveFailed) <==> Finished(err) && !SaveSucceeds(faults.last)
    ensures err == Some(SaveFailed) ==> ClearedOnDisk(disk.Image(), boxes)
    ensures forall n :: err == Some(MailboxesFailed(n)) <==>
      Finished(err) && SaveSucceeds(faults.last) && n > 0 && n == FailedTasks(ts)
    ensures Finished(err) ==> s != null && OthersKept(boxes, s.View, LoadOf(old(disk.Image())))
    ensures err in {Some(NotConfirmed), Some(CleanupFailed)} ||
      err ==
        if !faults.readable || !LoadOf(old(disk.Image())).Loaded? then Some(LoadFailed)
        else if !SaveSucceeds(faults.first) then Some(SaveClearedFailed)
        else if !copying.opens then Some(PoolFailed)
        else if copying.accepts < |boxes| then Some(EnqueueFailed)
        else if err == Some(TimedOut) && copying.patience.Some? then Some(TimedOut)
        else if !SaveSucceeds(faults.last) then Some(SaveFailed)
        else if FailedTasks(ts) > 0 then Some(MailboxesFailed(FailedTasks(ts)))
        else if copying.closes then None
        else Some(StopFailed)
    ensures err in {None, Some(StopFailed)} && AllUncancelled(boxes) ==>
      s != null && AllHomeNow(boxes, s.View) && (AllAcknowledge(boxes) ==> AllWholeNow(boxes, s.View))
    ensures
      && Confirmed(input) && Willing(cleaning, |boxes|) && Willing(copying, |boxes|)
      && LoadOf(old(disk.Image())).Loaded? && faults.readable && SaveSucceeds(faults.first) && SaveSucceeds(faults.last)
      && (forall i :: 0 <= i < |boxes| ==>
            INBOX in old(boxes[i].target.account).folders && WillBeSmooth(boxes[i], old(boxes[i].target.account), gap))
      ==> err == None
  {
    hide State.Valid, Within, IsCleaned, Cleanable, ValidAccount, AllSoundNow, AllHomeNow, AllWholeNow, AllAcknowledge,
      AllFineNow, AllUncancelled, WillBeSmooth, AllSmoothNow, AlwaysAcks, SaveSucceeds, LoadOf, ClearedOnDisk,
      AllThrough, FailedTasks, OthersKept;
    ts := [];
    var confirmed := ConfirmCopy(input);
    if !confirmed {
      return Some(NotConfirmed), null, ts;
    }
    ghost var originals := seq(|boxes|, i requires 0 <= i < |boxes| => old(boxes[i].target.account));
    ghost var smooth := forall i :: 0 <= i < |boxes| ==>
      INBOX in originals[i].folders && WillBeSmooth(boxes[i], originals[i], gap);
    if smooth {
      forall i | 0 <= i < |boxes| ensures boxes[i].reachable && AlwaysAcks(boxes[i].target.oracle) {
        SmoothAcknowledges(boxes[i], originals[i], gap);
      }
    }
    var cleaned := CleanTargets(boxes, cleaning);
    if !cleaned {
      return Some(CleanupFailed), null, ts;
    }
    if smooth { AllWillBeSmooth(boxes, originals, gap); }
    err, s, ts := CopyAndSave(boxes, path, disk, now, faults, copying, originals, gap);
  }
}
