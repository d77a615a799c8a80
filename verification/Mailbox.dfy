/** The `Mailbox` object of internal/mailbox: its clients, counters and methods, each proved
    against the functions of MessageCopy.dfy, FolderCopy.dfy and MailboxRun.dfy. */
module MailboxObject {
  import opened Basics
  import opened Imap
  import opened ImapClient
  import opened SyncState
  import H = StateHeap
  import opened MessageCopy
  import P = Pipeline
  import Milestones
  import opened FolderCopy
  import opened FolderTree
  import opened Bookkeeping
  import R = MailboxRun

  /** `wait.Throttle`, as far as its callers can tell: it runs the task or gives up with an error. */
  class Throttle {
    const admits: nat -> bool
    var calls: nat

    constructor (admits: nat -> bool)
      ensures this.admits == admits && calls == 0
    {
      this.admits, calls := admits, 0;
    }
  }

  /** The variables of one folder copy beside the world: those of the fetcher goroutine, the
      channel, and those of the copier loop. */
  datatype Pipe = Pipe(fetcher: P.Fetcher, channel: seq<P.Batch>, copier: P.Copier, done: nat, fails: nat,
                       ladder: Milestones.Ladder, failure: Option<P.Failure>)

  ghost function Whole(p: Pipe, w: World, cancelled: bool): P.State {
    P.State(p.fetcher, p.channel, p.copier, cancelled, P.Tally(w, p.done, p.fails, p.ladder, p.failure))
  }

  /** The batch requests sent so far. */
  ghost function Asked(s: P.State): nat {
    s.fetcher.start / P.BATCH_SIZE + (if s.fetcher.Sending? || P.FailurePending(s) then 1 else 0)
  }

  /** A step of the copier is no request, whatever it makes of a failed batch. */
  lemma AskedStays(env: P.Env, s: P.State)
    requires P.ControlInv(env, s) && P.CopierCanStep(s) && !s.cancelled
    ensures Asked(P.CopierStep(env, s)) == Asked(s)
  {
    if s.copier.Receiving? && s.channel != [] {
      var s' := P.CopierStep(env, s);
      assert s.channel == [s.channel[0]] + s.channel[1..];
      if s.channel[0].FetchFailed? {
        assert P.FetchFailed in s.channel && !P.Broken(s);
        assert s'.tally.failure == Some(P.FetchError);
      } else {
        assert P.FetchFailed in s.channel <==> P.FetchFailed in s'.channel;
      }
    } else if s.copier.Copying? && s.copier.rest != [] {
      assert P.CopierStep(env, s).tally.failure == s.tally.failure;
    }
  }

  predicate WillFetch(env: P.Env, s: P.State) {
    s.fetcher.Checking? && s.fetcher.start < |env.uids| && !s.cancelled
  }

  lemma NextBatch(start: nat)
    ensures (start + P.BATCH_SIZE) / P.BATCH_SIZE == start / P.BATCH_SIZE + 1
  {
  }

  /** The fetcher asks once for each batch, when it has passed its check of the context. */
  lemma AskedByFetcher(env: P.Env, s: P.State)
    requires P.ControlInv(env, s) && P.FetcherCanStep(s) && !s.cancelled
    ensures Asked(P.FetcherStep(env, s)) == Asked(s) + (if WillFetch(env, s) then 1 else 0)
    ensures WillFetch(env, s) ==> Asked(s) == s.fetcher.start / P.BATCH_SIZE
  {
    hide P.FetchAt, P.ProcessMessage;
    if s.fetcher.Sending? {
      var b := s.fetcher.batch;
      assert forall x :: x in s.channel + [b] <==> x in s.channel || x == b;
      NextBatch(s.fetcher.start);
    }
  }

  /** The n-th request asks for the n-th fifty UIDs. */
  lemma RequestedBatch(env: P.Env, folder: Folder, oracle: Oracle, tick: nat, start: nat, end: nat)
    requires env.fetch == Fetching(folder, oracle, tick) && start < |env.uids|
    requires end == if start + P.BATCH_SIZE > |env.uids| then |env.uids| else start + P.BATCH_SIZE
    ensures P.FetchAt(env, start) ==
      BatchFrom(FetchReply(folder, env.uids[start..end], oracle(tick + start / P.BATCH_SIZE)))
  {
    hide FetchReply;
    assert P.Request(env, start) == env.uids[start..end];
  }

  function AtMost(n: nat, limit: nat): (m: nat)
    ensures m <= limit && (n <= limit ==> m == n) && (n > limit ==> m == limit)
  {
    if n > limit then limit else n
  }

  /** The first `n` requests for the given UIDs: number `k` has the fifty from number 50 * k on. */
  ghost function Fifties(uids: seq<uint32>, n: nat): (r: seq<seq<uint32>>)
    ensures |r| == n
  {
    seq(n, k requires 0 <= k < n => uids[AtMost(50 * k, |uids|)..AtMost(50 * k + 50, |uids|)])
  }

  lemma OneMoreFifty(uids: seq<uint32>, start: nat, end: nat)
    requires start < |uids| && start % P.BATCH_SIZE == 0 && end == AtMost(start + P.BATCH_SIZE, |uids|)
    ensures Fifties(uids, start / P.BATCH_SIZE + 1) == Fifties(uids, start / P.BATCH_SIZE) + [uids[start..end]]
  {
  }

  /** `more` are the first requests for the UIDs, as many as the server has answered meanwhile. */
  ghost predicate Fetched(before: seq<seq<uint32>>, fetches: seq<seq<uint32>>, uids: seq<uint32>, first: nat,
                          tick: nat)
  {
    first <= tick && fetches == before + Fifties(uids, tick - first)
  }

  lemma NothingFetched(before: seq<seq<uint32>>, uids: seq<uint32>, tick: nat)
    ensures Fetched(before, before, uids, tick, tick)
  {
  }

  lemma OneMoreFetched(before: seq<seq<uint32>>, fetches: seq<seq<uint32>>, uids: seq<uint32>, first: nat, start: nat,
                       end: nat)
    requires start < |uids| && start % P.BATCH_SIZE == 0 && end == AtMost(start + P.BATCH_SIZE, |uids|)
    requires Fetched(before, fetches, uids, first, first + start / P.BATCH_SIZE)
    ensures Fetched(before, fetches + [uids[start..end]], uids, first, first + start / P.BATCH_SIZE + 1)
  {
    OneMoreFifty(uids, start, end);
    hide Fifties;
  }

  /** A run that no failed fetch and no end of the context has stopped makes a request for each fifty UIDs begun. */
  lemma AllRequestsMade(env: P.Env)
    requires Noted(env, Undisturbed) != Some(P.FetchError)
    ensures Requests(env, Undisturbed) == (|env.uids| + 49) / 50
  {
    P.UpcomingCount(env, 0);
  }

  /** Of `n` messages processed, those neither copied nor skipped have failed; if any has, there is an
      error, and if it is no other it has their number. */
  ghost predicate Accounted(before: MessageCopy.Stats, after: MessageCopy.Stats, failure: Option<P.Failure>, n: nat) {
    var left := n - (after.copied - before.copied) - (after.skipped - before.skipped);
    && before.copied <= after.copied && before.skipped <= after.skipped && left >= 0
    && (failure == None ==> left == 0)
    && forall k :: failure == Some(P.MessagesFailed(k)) ==> k > 0 && k == left
  }

  lemma AllAccounted(ctx: Context, w: World, msgs: seq<Message>, noted: Option<P.Failure>)
    requires noted.Some? ==> !noted.value.MessagesFailed?
    ensures var (w', fails) := CopyAll(ctx, w, msgs);
            Accounted(w.stats, w'.stats, P.Verdict(noted, fails), |msgs|)
  {
    CopyAllCounts(ctx, w, msgs);
    var (w', fails) := CopyAll(ctx, w, msgs);
    assert noted.None? ==> P.Verdict(noted, fails) == if fails > 0 then Some(P.MessagesFailed(fails)) else None;
  }

  lemma NoFetchError(env: P.Env, fails: nat)
    requires P.Verdict(Noted(env, Undisturbed), fails) != Some(P.FetchError)
    ensures Noted(env, Undisturbed) == None
  {
  }

  lemma AllProcessed(env: P.Env, source: Folder, oracle: Oracle, tick: nat)
    requires env.fetch == Fetching(source, oracle, tick) && Noted(env, Undisturbed) == None
    requires NoDup(env.uids) && forall u :: u in env.uids ==> u in source.msgs
    ensures |Processed(env, Undisturbed)| == |env.uids|
  {
    DeliveredCount(env, source, oracle, tick, 0);
  }

  lemma StartOfPipeline(env: P.Env, w: World, s: P.State)
    requires s == P.Initial(env, w).(cancelled := s.cancelled)
    ensures P.Inv(env, w, s) && Asked(s) == 0
  {
    P.InitialInv(env, w);
    if s.cancelled { P.StepKeepsInv(env, w, P.Initial(env, w), s, P.ContextEnds); }
  }

  lemma StepOfPipeline(env: P.Env, w: World, s: P.State, s': P.State, actor: P.Actor)
    requires P.Inv(env, w, s) && P.Step(env, s, s', actor)
    ensures P.Inv(env, w, s') && P.Below(P.MeasureOf(env, s'), P.MeasureOf(env, s))
  {
    P.StepKeepsInv(env, w, s, s', actor);
    P.StepDescends(env, s, s', actor);
  }

  /** How the pipeline has ended, `requests` batches having been asked for. */
  ghost function EndingOf(s: P.State, requests: nat): Ending {
    if s.cancelled then Stopped(s.tally.done, requests, s.tally.failure) else Undisturbed
  }

  lemma UncancelledEnding(s: P.State, requests: nat)
    requires !s.cancelled
    ensures EndingOf(s, requests) == Undisturbed
  {
  }

  lemma EndOfPipeline(env: P.Env, w: World, s: P.State, requests: nat)
    requires P.Inv(env, w, s) && s.copier.Finished? && (!s.cancelled ==> requests == Asked(s))
    ensures
      var ending := EndingOf(s, requests);
      && (s.tally.world, s.tally.fails) == CopyAll(env.ctx, w, Processed(env, ending))
      && s.tally.failure == Noted(env, ending) && requests == Requests(env, ending)
  {
    P.ProcessIsCopyAll(env, P.Start(env, w), P.Delivered(env)[..s.tally.done]);
    if !s.cancelled {
      P.FinishedUncancelled(env, w, s);
      P.RequestsMade(env, w, s);
      P.SequentialIsDelivered(env, P.Start(env, w), 0);
      P.ProcessIsCopyAll(env, P.Start(env, w), P.Delivered(env));
    }
  }

  lemma MarkIsApplied(c: Contents, mb: string, f: string, uid: uint32)
    requires uid != 0
    ensures Apply(c, mb, Op.MarkSynced(f, uid)) == PutFolder(c, mb, f, Mark(RecOf(c, mb, f), uid))
  {
  }

  lemma LinkIsApplied(c: Contents, mb: string, f: string, source: uint32, target: uint32)
    ensures Apply(c, mb, Op.SetUIDMapping(f, source, target)) ==
      if source == 0 || target == 0 then c else PutFolder(c, mb, f, Link(RecOf(c, mb, f), source, target))
  {
  }

  lemma ValidityIsApplied(c: Contents, mb: string, f: string, validity: uint32)
    ensures Apply(c, mb, Op.SetUIDValidity(f, validity)) == PutFolder(c, mb, f, Revalidate(RecOf(c, mb, f), validity))
  {
  }

  /** What `AppendMessage` comes to beside the records. */
  lemma AppendComesTo(ctx: Context, w: World, msg: Message)
    requires msg.uid != 0
    ensures
      var (account, uid) := Append(w.target.account, ctx.folder, Settable(msg.flags), msg.date, msg.body,
                                   ctx.target(w.target.tick));
      var (w', ok) := MessageCopy.AppendMessage(ctx, w, msg);
      && w'.target == Remote(account, w.target.tick + 1) && ok == uid.Some? && w'.throttled == w.throttled
      && w'.stats == w.stats.(copied := w.stats.copied + (if ok then 1 else 0),
                              bytes := w.stats.bytes + (if ok then |msg.body| else 0))
      && (ok ==> HasFolder(w'.state, ctx.mailbox, ctx.folder) &&
                 msg.uid in w'.state[ctx.mailbox].folders[ctx.folder].synced)
  {
  }

  /** What a folder copy reports, `todo` being what was to be copied of the `size` messages. Nil means that
      all of it is copied or skipped, or that all messages were skipped as there was nothing to do; an
      error for failed messages has their number. */
  ghost predicate Reports(err: Option<FolderError>, todo: seq<uint32>, size: nat, before: MessageCopy.Stats,
                          after: MessageCopy.Stats, cancelled: bool)
  {
    var settled := (after.copied - before.copied) + (after.skipped - before.skipped);
    && (err == None && todo == [] ==> after == before.(skipped := before.skipped + size))
    && (err == None && todo != [] && !cancelled ==> settled == |todo|)
    && (forall k :: err == Some(LoopFailed(P.MessagesFailed(k))) ==>
          k > 0 && (!cancelled ==> k == |todo| - settled))
  }

  lemma ReportsAtOnce(src: Folder, was: FolderRec, opening: Opening, before: MessageCopy.Stats,
                      after: MessageCopy.Stats, cancelled: bool)
    requires opening.Over? && (opening.error.Some? ==> !opening.error.value.LoopFailed?)
    requires opening == Over(None) ==> OpensTo(src, was, opening, before, after)
    ensures Reports(opening.error, [], |src.msgs|, before, after, cancelled)
    ensures NoDup<uint32>([]) && (opening == Over(None) ==> forall u :: u in [] <==> IsToDo(src, was, u))
  {
    hide IsToDo;
  }

  lemma ReportsAfterLoop(src: Folder, was: FolderRec, uids: seq<uint32>, before: MessageCopy.Stats,
                         between: MessageCopy.Stats, after: MessageCopy.Stats, failure: Option<P.Failure>, n: nat,
                         cancelled: bool)
    requires OpensTo(src, was, ToCopy(uids), before, between) && Accounted(between, after, failure, n)
    requires !cancelled && failure != Some(P.FetchError) ==> Accounted(between, after, failure, |uids|)
    ensures Reports(if failure.None? then None else Some(LoopFailed(failure.value)), uids, |src.msgs|, before, after,
                    cancelled)
    ensures uids != [] && NoDup(uids) && forall u :: u in uids <==> IsToDo(src, was, u)
  {
    hide IsToDo, NoDup;
  }

  lemma ToDoIsThere(src: Folder, was: FolderRec, uids: seq<uint32>, opening: Opening, before: MessageCopy.Stats,
                    after: MessageCopy.Stats)
    requires OpensTo(src, was, opening, before, after) && opening == ToCopy(uids)
    ensures NoDup(uids) && forall u :: u in uids ==> u in src.msgs
  {
  }

  lemma OpeningErrors(job: FolderJob, s: FolderCopy.Sides)
    ensures
      var opening := Open(job, s).1;
      opening.Over? && opening.error.Some? ==>
        opening.error.value != NotConnected && !opening.error.value.LoopFailed?
  {
    hide FetchAllReply, Ensure, Apply, Outside;
  }

  /** The creation loop before entry number `i`: what is left is the rest of `CreateMissing`. */
  ghost predicate Making(oracle: Oracle, first: Remote, present: set<string>, sorted: seq<Entry>, i: nat, r: Remote,
                         n: nat, made: seq<Creation>)
  {
    && i <= |sorted|
    && (var (last, more) := CreateMissing(oracle, r, present, sorted[i..]);
        CreateMissing(oracle, first, present, sorted) == (last, n + more))
    && NamesCreated(made) == NamesOutside(present, sorted[..i]) && n == AckedIn(made)
  }

  lemma NothingMade(oracle: Oracle, first: Remote, present: set<string>, sorted: seq<Entry>)
    ensures Making(oracle, first, present, sorted, 0, first, 0, [])
  {
    hide CreateMissing;
    assert sorted[0..] == sorted && sorted[..0] == [];
  }

  lemma PassOver(oracle: Oracle, first: Remote, present: set<string>, sorted: seq<Entry>, i: nat, r: Remote, n: nat,
                 made: seq<Creation>)
    requires i < |sorted| && Making(oracle, first, present, sorted, i, r, n, made)
    requires sorted[i].IsNoSelect() || sorted[i].name in present
    ensures Making(oracle, first, present, sorted, i + 1, r, n, made)
  {
    OneMoreName(present, sorted, i);
    assert sorted[i..][0] == sorted[i] && sorted[i..][1..] == sorted[i + 1..];
    hide NamesOutside, NamesCreated, AckedIn, Create;
  }

  lemma OneMoreMade(oracle: Oracle, first: Remote, present: set<string>, sorted: seq<Entry>, i: nat, r: Remote, n: nat,
                    made: seq<Creation>, account: Account, created: bool)
    requires i < |sorted| && !sorted[i].IsNoSelect() && sorted[i].name !in present
    requires made != [] && made[|made| - 1] == Creation(sorted[i].name, created)
    requires Making(oracle, first, present, sorted, i, r, n, made[..|made| - 1])
    requires (account, created) == Create(r.account, sorted[i].name, oracle(r.tick))
    ensures Making(oracle, first, present, sorted, i + 1, Remote(account, r.tick + 1), if created then n + 1 else n,
                   made)
  {
    hide NamesOutside, NamesCreated, AckedIn, Create, CreateMissing;
    OneMoreName(present, sorted, i);
    CreateMissingNext(oracle, r, present, sorted, i);
    var before := made[..|made| - 1];
    OneMoreCreation(before, made[|made| - 1]);
    assert made == before + [made[|made| - 1]];
  }

  lemma CreateMissingNext(oracle: Oracle, r: Remote, present: set<string>, sorted: seq<Entry>, i: nat)
    requires i < |sorted| && !sorted[i].IsNoSelect() && sorted[i].name !in present
    ensures
      var (account, created) := Create(r.account, sorted[i].name, oracle(r.tick));
      var (last, more) := CreateMissing(oracle, Remote(account, r.tick + 1), present, sorted[i + 1..]);
      CreateMissing(oracle, r, present, sorted[i..]) == (last, more + if created then 1 else 0)
  {
    assert sorted[i..][0] == sorted[i] && sorted[i..][1..] == sorted[i + 1..];
    hide Create;
  }

  lemma AllMade(oracle: Oracle, first: Remote, present: set<string>, sorted: seq<Entry>, r: Remote, n: nat,
                made: seq<Creation>)
    requires Making(oracle, first, present, sorted, |sorted|, r, n, made)
    ensures CreateMissing(oracle, first, present, sorted) == (r, n)
    ensures NamesCreated(made) == NamesOutside(present, sorted) && n == AckedIn(made)
  {
    assert sorted[|sorted|..] == [] && sorted[..|sorted|] == sorted;
  }

  lemma FoldersNotListed(p: R.Plan, r: R.Run)
    ensures
      var src, tgt := r.sides.source, r.sides.world.target;
      var listed, present := ListReply(src.account, p.source(src.tick)), ListReply(tgt.account, p.target(tgt.tick));
      && (listed.None? ==> R.CopyFolders(p, r) == (R.SourceTick(r), false))
      && (listed.Some? && present.None? ==> R.CopyFolders(p, r) == (R.TargetTick(R.SourceTick(r)), false))
  {
    hide ListReply, CreateMissing, R.NamesOf, SortByName;
  }

  /** The run `r` after a command to the source and these changes. */
  function Later(r: R.Run, target: Remote, created: int): R.Run {
    var w := r.sides.world;
    r.(sides := FolderCopy.Sides(w.(target := target, stats := w.stats.(foldersCreated := created)),
                                 Answered(r.sides.source)))
  }

  lemma FoldersDone(p: R.Plan, r: R.Run, es: seq<Entry>, present: set<string>, target: Remote, created: int)
    requires ListReply(r.sides.source.account, p.source(r.sides.source.tick)) == Some(es)
    requires
      var tgt := r.sides.world.target;
      var listed := ListReply(tgt.account, p.target(tgt.tick));
      && listed.Some? && present == R.NamesOf(listed.value) && r.sides.world.stats.foldersCreated <= created
      && (target, created - r.sides.world.stats.foldersCreated) ==
         CreateMissing(p.target, Answered(tgt), present, SortByName(es, false))
    ensures R.CopyFolders(p, r) == (Later(r, target, created), true)
  {
    hide ListReply, CreateMissing, R.NamesOf, SortByName;
  }

  /** `copy` from its second listing on, once that has arrived. */
  lemma ListedInSteps(p: R.Plan, r: R.Run, es: seq<Entry>, r2: R.Run, n: nat, connected: bool)
    requires ListReply(r.sides.source.account, p.source(r.sides.source.tick)) == Some(es)
    requires (r2, n, connected) == R.CopyEach(p, R.SourceTick(r), es)
    ensures R.CopyListed(p, r) == (R.NoteSync(p, r2), Some(n), connected)
  {
    hide ListReply, R.CopyEach, R.NoteSync;
  }

  lemma SelectedIsSelectable(a: Account, f: string, ans: Answer)
    ensures SelectReply(a, f, ans).Some? ==> CanSelect(a, f)
  {
  }

  lemma NotListed(p: R.Plan, r: R.Run)
    requires p.stops == map[]
    ensures !p.source(r.sides.source.tick).outcome.Acked? ==>
      forall stops :: R.CopyListed(p.(stops := stops), r) == (R.SourceTick(r), None, true)
  {
  }

  lemma AnswersDecide(a: Account, ans: Answer)
    ensures ListReply(a, ans).Some? <==> ans.outcome.Acked?
    ensures AckedIn([]) == 0
  {
  }

  lemma NamesAreKeys(a: Account, ans: Answer)
    requires ListReply(a, ans).Some?
    ensures R.NamesOf(ListReply(a, ans).value) == a.folders.Keys
  {
    ListingNamesAll(a, ans);
    hide ListReply;
  }

  /** The folder copies that were tried, none of a folder that cannot be selected or was tried before, and the
      errors counted. Without errors all selectable folders were. */
  ghost predicate TriedAll(src: Account, errors: Option<nat>, tried: seq<Attempt>, connected: bool) {
    && (errors == None ==> tried == [])
    && (errors.Some? ==> errors.value == FailuresIn(tried) && (connected || errors.value > 0))
    && NoDup(NamesTried(tried)) && (forall f :: f in NamesTried(tried) ==> CanSelect(src, f))
    && (errors.Some? && connected ==> forall f :: CanSelect(src, f) ==> f in NamesTried(tried))
  }

  lemma AllTried(src: Account, ans: Answer, errors: nat, tried: seq<Attempt>, connected: bool)
    requires ListReply(src, ans).Some?
    requires var names := NamesOutside({}, ListReply(src, ans).value);
             NamesTried(tried) <= names && (connected ==> NamesTried(tried) == names)
    requires errors == FailuresIn(tried) && (connected || errors > 0)
    ensures TriedAll(src, Some(errors), tried, connected)
  {
    hide ListReply, NamesOutside, CanSelect, NamesTried, FailuresIn;
    ListedSelectable(src, ans);
    NamesOfPart(tried, NamesOutside({}, ListReply(src, ans).value));
  }

  lemma NoneTried(src: Account)
    ensures TriedAll(src, None, [], true)
  {
  }

  /** Past its listings a copy has tried folders, and is a sync of the mailbox. */
  predicate PastListings(err: Option<R.MailboxError>) {
    err.None? || err.value.FoldersFailed? || err.value.DisconnectFailed?
  }

  /** What the result of a copy says about the folders: an error for folders has the number of those that failed;
      without one each selectable folder was copied, and none with an error. */
  ghost predicate Concludes(err: Option<R.MailboxError>, tried: seq<Attempt>, src: Account) {
    && (!PastListings(err) ==> tried == [])
    && (forall k :: err == Some(R.FoldersFailed(k)) <==> PastListings(err) && k > 0 && k == FailuresIn(tried))
    && NoDup(NamesTried(tried)) && (forall f :: f in NamesTried(tried) ==> CanSelect(src, f))
    && (err in {None, Some(R.DisconnectFailed)} ==>
          (forall f :: CanSelect(src, f) ==> f in NamesTried(tried)) && forall i :: 0 <= i < |tried| ==> tried[i].ok)
  }

  lemma NothingConcluded(src: Account)
    ensures Concludes(Some(R.ConnectFailed), [], src)
  {
  }

  lemma TriedConcludes(src: Account, errors: Option<nat>, tried: seq<Attempt>, connected: bool,
                       err: Option<R.MailboxError>)
    requires TriedAll(src, errors, tried, connected)
    requires errors.None? ==> err == Some(R.FolderListFailed)
    requires errors.Some? ==>
      if errors.value > 0 then err == Some(R.FoldersFailed(errors.value)) else err in {None, Some(R.DisconnectFailed)}
    ensures Concludes(err, tried, src) && (err in {None, Some(R.DisconnectFailed)} ==> connected)
  {
    hide NoDup, NamesTried, CanSelect;
    var n := FailuresIn(tried);
    hide FailuresIn;
  }

  lemma NamesOfPart(tried: seq<Attempt>, names: seq<string>)
    requires NamesTried(tried) <= names && NoDup(names)
    ensures NoDup(NamesTried(tried)) && forall f :: f in NamesTried(tried) ==> f in names
  {
    var part := NamesTried(tried);
    forall i, j | 0 <= i < j < |part| ensures part[i] != part[j] { assert part[i] == names[i] && part[j] == names[j]; }
    forall f | f in part ensures f in names {
      var i :| 0 <= i < |part| && part[i] == f;
      assert names[i] == f;
    }
  }

  /** The loop over the folders before number `i`: what was tried since `before`, and the errors. */
  ghost predicate Trying(before: seq<Attempt>, attempts: seq<Attempt>, folders: seq<Entry>, i: nat, tried: seq<Attempt>,
                         errors: nat)
  {
    && i <= |folders| && attempts == before + tried && errors == FailuresIn(tried)
    && NamesTried(tried) == NamesOutside({}, folders[..i])
  }

  lemma NothingTried(before: seq<Attempt>, folders: seq<Entry>)
    ensures Trying(before, before, folders, 0, [], 0)
    ensures FailuresIn([]) == 0 && NamesTried([]) == [] && NoDup(NamesTried([]))
  {
    assert before == before + [];
  }

  lemma NotTried(before: seq<Attempt>, attempts: seq<Attempt>, folders: seq<Entry>, i: nat, tried: seq<Attempt>,
                 errors: nat)
    requires i < |folders| && folders[i].IsNoSelect() && Trying(before, attempts, folders, i, tried, errors)
    ensures Trying(before, attempts, folders, i + 1, tried, errors)
  {
    OneMoreName({}, folders, i);
    hide NamesOutside, NamesTried, FailuresIn;
  }

  lemma OneMoreTried(before: seq<Attempt>, attempts: seq<Attempt>, folders: seq<Entry>, i: nat, tried: seq<Attempt>,
                     errors: nat)
    requires i < |folders| && !folders[i].IsNoSelect() && tried != [] && attempts != []
    requires var last := tried[|tried| - 1]; last == attempts[|attempts| - 1] && last.name == folders[i].name
    requires Trying(before, attempts[..|attempts| - 1], folders, i, tried[..|tried| - 1], errors)
    ensures Trying(before, attempts, folders, i + 1, tried, if tried[|tried| - 1].ok then errors else errors + 1)
  {
    hide NamesOutside, NamesTried, FailuresIn;
    OneMoreName({}, folders, i);
    var last := tried[|tried| - 1];
    OneMoreAttempt(tried[..|tried| - 1], last);
    assert tried == tried[..|tried| - 1] + [last];
    assert attempts == attempts[..|attempts| - 1] + [last];
    assert attempts == (before + tried[..|tried| - 1]) + [last] == before + tried;
  }

  lemma TriedSoFar(before: seq<Attempt>, attempts: seq<Attempt>, folders: seq<Entry>, i: nat, tried: seq<Attempt>,
                   errors: nat)
    requires Trying(before, attempts, folders, i, tried, errors)
    ensures attempts == before + tried && errors == FailuresIn(tried)
    ensures NamesTried(tried) <= NamesOutside({}, folders)
    ensures i == |folders| ==> NamesTried(tried) == NamesOutside({}, folders)
  {
    OutsideIsPrefix({}, folders, i);
    assert folders[..|folders|] == folders;
  }

  lemma StampCounts(c: Contents, mb: string, f: string, now: Timestamp)
    ensures
      var c' := Apply(c, mb, Op.UpdateLastSync(f, now));
      && SyncsOf(c', mb) == SyncsOf(c, mb) + 1 && LastSyncOf(c', mb) == now
      && HasFolder(c', mb, f) && c'[mb].folders[f].lastSync == now
  {
    FolderStampSays(c, mb, f, now);
    hide Apply;
  }

  lemma NothingAsked(fetches: seq<seq<uint32>>)
    ensures fetches == fetches + Fifties([], 0)
  {
  }

  /** The loop over the folders before number `i`, as `MailboxRun.CopyEach` sees it. */
  ghost predicate Rounds(p: R.Plan, stops: map<string, Ending>, r: R.Run, folders: seq<Entry>, i: nat, current: R.Run,
                         errors: nat)
  {
    && i <= |folders| && (forall j :: i <= j < |folders| ==> folders[j].name !in stops)
    && (current, errors, true) == R.CopyEach(p.(stops := stops), r, folders[..i])
  }

  lemma NoRounds(p: R.Plan, r: R.Run, folders: seq<Entry>)
    ensures Rounds(p, map[], r, folders, 0, r, 0)
  {
    R.CopyEachOfNothing(p.(stops := map[]), r);
  }

  lemma RoundSkipped(p: R.Plan, stops: map<string, Ending>, r: R.Run, folders: seq<Entry>, i: nat, current: R.Run,
                     errors: nat)
    requires i < |folders| && folders[i].IsNoSelect() && Rounds(p, stops, r, folders, i, current, errors)
    ensures Rounds(p, stops, r, folders, i + 1, current, errors)
  {
    hide R.CopyEach;
    assert folders[..i + 1] == folders[..i] + [folders[i]];
    R.CopyEachOneMore(p.(stops := stops), r, folders[..i], folders[i]);
  }

  lemma RoundDone(p: R.Plan, stops: map<string, Ending>, r: R.Run, folders: seq<Entry>, i: nat, current: R.Run,
                  errors: nat, ending: Ending)
    requires i < |folders| && !folders[i].IsNoSelect() && DistinctNames(folders)
    requires Rounds(p, stops, r, folders, i, current, errors)
    ensures
      var stops' := if ending.Undisturbed? then stops else stops[folders[i].name := ending];
      var (next, failed, connected) := R.Round(p.(stops := map[folders[i].name := ending]), current, folders[i].name);
      var errors' := if failed then errors + 1 else errors;
      if connected then Rounds(p, stops', r, folders, i + 1, next, errors')
      else (next, errors', false) == R.CopyEach(p.(stops := stops'), r, folders)
  {
    hide R.CopyEach, R.Round;
    var q, e := p.(stops := stops), folders[i];
    var stops' := if ending.Undisturbed? then stops else stops[e.name := ending];
    assert folders[..i + 1] == folders[..i] + [e];
    R.RoundEnds(q, r, folders[..i], e, ending, current, errors);
    assert q.(stops := map[e.name := ending]) == p.(stops := map[e.name := ending]);
    if !R.Round(p.(stops := map[e.name := ending]), current, e.name).2 {
      assert folders == folders[..i + 1] + folders[i + 1..];
      R.CopyEachGivesUp(p.(stops := stops'), r, folders[..i + 1], folders[i + 1..]);
    }
  }

  lemma AllRounds(p: R.Plan, stops: map<string, Ending>, r: R.Run, folders: seq<Entry>, current: R.Run, errors: nat)
    requires Rounds(p, stops, r, folders, |folders|, current, errors)
    ensures (current, errors, true) == R.CopyEach(p.(stops := stops), r, folders)
  {
    hide R.CopyEach;
    assert folders[..|folders|] == folders;
  }

  ghost predicate ClosedOnce(clients: set<Client>)
    reads clients
  {
    forall c :: c in clients ==> c.closes == 1
  }

  class Mailbox {
    const name: string
    const sourceServer: Server
    const targetServer: Server
    const state: H.State
    const throttle: Throttle?
    const progress: int
    const now: Timestamp
    const dial: nat -> bool
    const cancellable: bool                // whether the context can end at all
    var dials: nat
    var cancelled: bool                    // the context has ended
    var sourceClient: Client?
    var targetClient: Client?
    var foldersCreated: int
    var messagesCopied: int
    var messagesSkipped: int
    var bytesCopied: int
    ghost var dialled: set<Client>         // every client ever connected
    ghost var attempts: seq<Attempt>     // all folder copies

    /** `New`: without connections, all counters 0. */
    constructor (name: string, sourceServer: Server, targetServer: Server, state: H.State, throttle: Throttle?,
                 progress: int, now: Timestamp, dial: nat -> bool, cancellable: bool)
      requires sourceServer != targetServer && state.Valid()
      requires {sourceServer, targetServer} !! state.Repr && (throttle != null ==> throttle !in state.Repr)
      ensures Valid() && !Connected() && dialled == {} && attempts == [] && dials == 0 && !cancelled
      ensures this.name == name && this.sourceServer == sourceServer && this.targetServer == targetServer
      ensures this.state == state && this.throttle == throttle
      ensures this.progress == progress && this.now == now && this.dial == dial && this.cancellable == cancellable
      ensures Stats() == MessageCopy.Stats(0, 0, 0, 0)
    {
      this.name, this.sourceServer, this.targetServer, this.state := name, sourceServer, targetServer, state;
      this.throttle, this.progress, this.now, this.dial, this.cancellable := throttle, progress, now, dial, cancellable;
      dials, cancelled, sourceClient, targetClient := 0, false, null, null;
      foldersCreated, messagesCopied, messagesSkipped, bytesCopied := 0, 0, 0, 0;
      dialled, attempts := {}, [];
    }

    ghost predicate Connected()
      reads this
    {
      sourceClient != null && targetClient != null
    }

    /** Everything beside the connections: the parts are distinct and the state is valid. */
    ghost predicate Parts()
      reads this, state, state.Repr
    {
      && sourceServer != targetServer
      && state.Valid()
      && {this, sourceServer, targetServer} !! state.Repr
      && (throttle != null ==> throttle !in state.Repr)
    }

    /** The lifecycle invariant at every boundary: the clients are both there or both missing, and
        no other connection is open or was closed twice. */
    ghost predicate Lifecycle()
      reads this, dialled
    {
      && (sourceClient == null <==> targetClient == null)
      && (sourceClient != null ==> sourceClient in dialled && sourceClient.server == sourceServer)
      && (targetClient != null ==> targetClient in dialled && targetClient.server == targetServer)
      && (sourceClient != null ==> sourceClient != targetClient)
      && OpenAre(sourceClient, targetClient)
    }

    /** Of all clients ever connected exactly these are not yet closed, the others closed once. */
    ghost predicate OpenAre(a: Client?, b: Client?)
      reads this, dialled
    {
      forall c :: c in dialled ==> if c == a || c == b then c.closes == 0 && !c.gone else c.closes == 1
    }

    ghost predicate Valid()
      reads this, state, state.Repr, dialled
    {
      Parts() && Lifecycle() && dialled !! state.Repr
    }

    ghost function Stats(): Stats
      reads this
    {
      MessageCopy.Stats(foldersCreated, messagesCopied, messagesSkipped, bytesCopied)
    }

    ghost function World(): World
      reads this, state, targetServer, throttle
    {
      MessageCopy.World(state.View, targetServer.Value(), Stats(), if throttle == null then 0 else throttle.calls)
    }

    ghost function Sides(): Sides
      reads this, state, sourceServer, targetServer, throttle
    {
      FolderCopy.Sides(World(), sourceServer.Value())
    }

    ghost function Ctx(f: string): Context {
      Context(name, f, targetServer.oracle, if throttle == null then None else Some(throttle.admits))
    }

    ghost function Job(f: string): FolderJob {
      FolderJob(Ctx(f), sourceServer.oracle, progress, now, Undisturbed)
    }

    ghost function Throttles(): (r: set<object>)
      ensures forall o :: o in r ==> o == throttle
    {
      if throttle == null then {} else {throttle}
    }

    // ---------------------------------------------------------------- messages

    /** `appendMessage`. It passes through exactly the worlds of `AppendMoments`. */
    method AppendMessage(f: string, msg: Message) returns (ok: bool, ghost seen: seq<World>)
      requires Parts() && targetClient != null && targetClient.server == targetServer && msg.uid != 0
      modifies this`messagesCopied, this`bytesCopied, state.Repr, targetServer
      ensures Parts() && fresh(state.Repr - old(state.Repr)) && old(state.Repr) <= state.Repr
      ensures (World(), ok) == MessageCopy.AppendMessage(Ctx(f), old(World()), msg)
      ensures seen == AppendMoments(Ctx(f), old(World()), msg)
    {
      hide H.State.Valid, Append, PutFolder, RecOf, OnlyFolder, SameStamps, HasFolder, Mark, Link, Apply;
      var uid := targetClient.Append(f, msg);
      seen := [World()];
      if uid.None? {
        return false, seen;
      }
      var marked := state.MarkSynced(name, f, msg.uid);
      MarkIsApplied(old(state.View), name, f, msg.uid);
      ghost var c := state.View;
      seen := seen + [World()];
      state.SetUIDMapping(name, f, msg.uid, uid.value);
      LinkIsApplied(c, name, f, msg.uid, uid.value);
      seen := seen + [World()];
      messagesCopied, bytesCopied := messagesCopied + 1, bytesCopied + |msg.body|;
      seen := seen + [World()];
      return true, seen;
    }

    /** Whether the UID is recorded as synced for the folder. */
    ghost predicate Recorded(f: string, u: uint32)
      reads state
    {
      HasFolder(state.View, name, f) && u in state.View[name].folders[f].synced
    }

    /** `copyMessage`. The worlds that other tasks can observe meanwhile are those of `Moments`. A message
        without UID fails; one that is synced or flagged as deleted is skipped; any other one
        goes to the throttle, and if that lets it pass to the target. */
    method CopyMessage(f: string, msg: Message) returns (ok: bool, ghost seen: seq<World>)
      requires Parts() && targetClient != null && targetClient.server == targetServer
      modifies this`messagesCopied, this`bytesCopied, this`messagesSkipped, state.Repr, targetServer, Throttles()
      ensures Parts() && fresh(state.Repr - old(state.Repr)) && old(state.Repr) <= state.Repr
      ensures (World(), ok) == MessageCopy.CopyMessage(Ctx(f), old(World()), msg)
      ensures seen == Moments(Ctx(f), old(World()), msg)
      ensures msg.uid == 0 ==> !ok && World() == old(World())
      ensures msg.uid != 0 && (old(Recorded(f, msg.uid)) || "\\Deleted" in msg.flags) ==>
        && ok && state.View == old(state.View) && targetServer.Value() == old(targetServer.Value())
        && messagesSkipped == old(messagesSkipped) + 1 && messagesCopied == old(messagesCopied)
        && (throttle != null ==> throttle.calls == old(throttle.calls))
      ensures msg.uid != 0 && !old(Recorded(f, msg.uid)) && "\\Deleted" !in msg.flags ==>
        && messagesSkipped == old(messagesSkipped)
        && (throttle != null ==> throttle.calls == old(throttle.calls) + 1)
        && (throttle != null && !throttle.admits(old(throttle.calls)) ==>
              !ok && state.View == old(state.View) && targetServer.Value() == old(targetServer.Value()))
        && (throttle == null || throttle.admits(old(throttle.calls)) ==>
              var (account, uid) := Append(old(targetServer.account), f, Settable(msg.flags), msg.date, msg.body,
                                           old(targetServer.Next()));
              && targetServer.account == account && targetServer.tick == old(targetServer.tick) + 1
              && ok == uid.Some? && messagesCopied == old(messagesCopied) + (if ok then 1 else 0)
              && bytesCopied == old(bytesCopied) + (if ok then |msg.body| else 0)
              && (ok ==> Recorded(f, msg.uid)))
    {
      hide H.State.Valid, SendAppend, RecordSynced, RecordMapping, AppendMoments, Append;
      seen := [World()];
      if msg.uid == 0 {
        return false, seen + [World()];
      }
      var synced := state.IsSynced(name, f, msg.uid);
      if synced {
        messagesSkipped := messagesSkipped + 1;
        return true, seen + [World()];
      }
      var deleted := HasFlag(msg.flags, DELETED);
      if deleted {
        messagesSkipped := messagesSkipped + 1;
        return true, seen + [World()];
      }
      if throttle != null {
        var admitted := throttle.admits(throttle.calls);
        throttle.calls := throttle.calls + 1;
        if !admitted {
          return false, seen + [World()];
        }
      }
      assert World() == Throttled(Ctx(f), old(World()));
      AppendComesTo(Ctx(f), World(), msg);
      hide MessageCopy.AppendMessage, Moments;
      ghost var appending;
      ok, appending := AppendMessage(f, msg);
      seen := seen + appending;
    }

    // ---------------------------------------------------------------- the pipeline

    /** One request of the fetcher. */
    method FetchBatch(uids: seq<uint32>, start: nat, ghost env: P.Env, ghost source: Remote,
                      ghost before: seq<seq<uint32>>)
      returns (batch: P.Batch)
      requires sourceClient != null && sourceClient.server == sourceServer && sourceServer != targetServer
      requires sourceClient.selected in sourceServer.account.folders && sourceServer.account == source.account
      requires env == FolderCopy.Job(env.ctx, source.account.folders[sourceClient.selected], sourceServer.oracle,
                                     source.tick, uids, progress)
      requires start < |uids| && sourceServer.tick == source.tick + start / P.BATCH_SIZE
      requires start % P.BATCH_SIZE == 0
      requires Fetched(before, sourceServer.fetches, uids, source.tick, sourceServer.tick)
      modifies sourceServer
      ensures batch == P.FetchAt(env, start) && World() == old(World())
      ensures sourceServer.account == source.account && sourceServer.tick == old(sourceServer.tick) + 1
      ensures Fetched(before, sourceServer.fetches, uids, source.tick, sourceServer.tick)
    {
      hide FetchReply, P.FetchAt, Fetched;
      var end := if start + P.BATCH_SIZE > |uids| then |uids| else start + P.BATCH_SIZE;
      RequestedBatch(env, source.account.folders[sourceClient.selected], sourceServer.oracle, source.tick, start, end);
      OneMoreFetched(before, sourceServer.fetches, uids, source.tick, start, end);
      var reply := sourceClient.FetchByUID(uids[start..end]);
      return BatchFrom(reply);
    }

    /** The fetcher goroutine's next step: test the loop condition and the context and fetch,
        send what was fetched, or close the channel. */
    method FetcherMoves(pipe: Pipe, uids: seq<uint32>, ghost env: P.Env, ghost source: Remote,
                        ghost before: seq<seq<uint32>>)
      returns (next: Pipe)
      requires sourceClient != null && sourceClient.server == sourceServer && sourceServer != targetServer
      requires sourceClient.selected in sourceServer.account.folders && sourceServer.account == source.account
      requires env == FolderCopy.Job(env.ctx, source.account.folders[sourceClient.selected], sourceServer.oracle,
                                     source.tick, uids, progress)
      requires var s := Whole(pipe, World(), cancelled);
        && P.ControlInv(env, s) && P.PositionInv(env, s) && P.FetcherCanStep(s)
        && (!cancelled ==> sourceServer.tick == source.tick + Asked(s))
      requires Fetched(before, sourceServer.fetches, uids, source.tick, sourceServer.tick)
      modifies sourceServer
      ensures Whole(next, World(), cancelled) == P.FetcherStep(env, Whole(pipe, World(), cancelled))
      ensures sourceServer.account == source.account && old(sourceServer.tick) <= sourceServer.tick
      ensures !cancelled ==> sourceServer.tick == source.tick + Asked(Whole(next, World(), cancelled))
      ensures Fetched(before, sourceServer.fetches, uids, source.tick, sourceServer.tick)
      ensures cancelled ==> sourceServer.fetches == old(sourceServer.fetches)
    {
      ghost var s := Whole(pipe, World(), cancelled);
      if !cancelled { AskedByFetcher(env, s); }
      assert pipe.fetcher.start % P.BATCH_SIZE == 0;
      hide Asked, P.ControlInv, P.PositionInv, P.FailurePending, P.FetchAt, Fetched;
      if pipe.fetcher.Checking? {
        var start := pipe.fetcher.start;
        if start >= |uids| || cancelled {
          return pipe.(fetcher := P.Leaving(start));
        }
        var batch := FetchBatch(uids, start, env, source, before);
        return pipe.(fetcher := P.Sending(start, batch));
      } else if pipe.fetcher.Sending? {
        var start, batch := pipe.fetcher.start, pipe.fetcher.batch;
        next := pipe.(channel := pipe.channel + [batch]);
        next := next.(fetcher := if batch.FetchFailed? then P.Leaving(start) else P.Checking(start + P.BATCH_SIZE));
      } else {
        return pipe.(fetcher := P.Closed(pipe.fetcher.start));
      }
    }

    /** One round of the copier's inner loop: copy the message, count it, check the milestone. */
    method CopierCopies(f: string, pipe: Pipe, ghost env: P.Env, total: nat) returns (next: Pipe)
      requires Parts() && targetClient != null && targetClient.server == targetServer
      requires env.ctx == Ctx(f) && env.progress == progress && |env.uids| == total
      requires pipe.copier.Copying? && pipe.copier.rest != [] && !cancelled
      modifies this`messagesCopied, this`bytesCopied, this`messagesSkipped, state.Repr, targetServer, Throttles()
      ensures Parts() && fresh(state.Repr - old(state.Repr)) && old(state.Repr) <= state.Repr
      ensures Whole(next, World(), cancelled) == P.CopierStep(env, old(Whole(pipe, World(), cancelled)))
    {
      hide H.State.Valid, MessageCopy.CopyMessage;
      var ok, _ := CopyMessage(f, pipe.copier.rest[0]);
      next := pipe.(copier := P.Copying(pipe.copier.rest[1..]));
      if !ok {
        next := next.(fails := pipe.fails + 1);
      }
      next := next.(done := pipe.done + 1);
      if progress > 0 && total > 0 && pipe.ladder.next > 0 && pipe.ladder.next <= 100 {
        var pct := next.done * 100 / total;
        if pct >= pipe.ladder.next {
          next := next.(ladder := Milestones.Ladder(pipe.ladder.next + progress, pipe.ladder.logged + [next.done]));
        }
      }
    }

    /** The copier's next step: receive a batch, note that it failed, copy its next message, stop
        at the end of the context, or see the channel closed. */
    method CopierMoves(f: string, pipe: Pipe, ghost env: P.Env, total: nat) returns (next: Pipe)
      requires Parts() && targetClient != null && targetClient.server == targetServer
      requires env.ctx == Ctx(f) && env.progress == progress && |env.uids| == total
      requires P.CopierCanStep(Whole(pipe, World(), cancelled))
      modifies this`messagesCopied, this`bytesCopied, this`messagesSkipped, state.Repr, targetServer, Throttles()
      ensures Parts() && fresh(state.Repr - old(state.Repr)) && old(state.Repr) <= state.Repr
      ensures Whole(next, World(), cancelled) == P.CopierStep(env, old(Whole(pipe, World(), cancelled)))
      ensures cancelled ==> World() == old(World())
    {
      hide H.State.Valid, P.ProcessMessage;
      if pipe.copier.Receiving? {
        if pipe.channel == [] {
          return pipe.(copier := P.Finished);
        }
        var batch := pipe.channel[0];
        next := pipe.(channel := pipe.channel[1..]);
        if batch.FetchFailed? {
          if pipe.failure == None {
            next := next.(failure := Some(P.FetchError));
          }
          return next;
        }
        return next.(copier := P.Copying(batch.msgs));
      }
      if pipe.copier.rest == [] {
        return pipe.(copier := P.Receiving);
      }
      if cancelled {
        next := pipe.(copier := P.Receiving);
        if pipe.failure == None {
          next := next.(failure := Some(P.ContextCancelled));
        }
        return next;
      }
      next := CopierCopies(f, pipe, env, total);
    }

    ghost predicate Linked()
      reads this, state
    {
      && sourceClient != null && sourceClient.server == sourceServer
      && targetClient != null && targetClient.server == targetServer
      && sourceClient != targetClient && {sourceClient, targetClient} !! state.Repr
    }

    /** One step of an arbitrary scheduler. One of the guards always holds, so no schedule gets
        stuck. */
    method Schedule(f: string, pipe: Pipe, uids: seq<uint32>, ghost env: P.Env, ghost w0: World, ghost source: Remote,
                    ghost before: seq<seq<uint32>>)
      returns (next: Pipe, ghost actor: P.Actor)
      requires Parts() && Linked() && sourceClient.selected == f
      requires f in source.account.folders && sourceServer.account == source.account
      requires env == FolderCopy.Job(Ctx(f), source.account.folders[f], sourceServer.oracle, source.tick, uids,
                                     progress)
      requires P.Inv(env, w0, Whole(pipe, World(), cancelled)) && !pipe.copier.Finished?
      requires !cancelled ==> sourceServer.tick == source.tick + Asked(Whole(pipe, World(), cancelled))
      requires Fetched(before, sourceServer.fetches, uids, source.tick, sourceServer.tick)
      modifies this`cancelled, this`messagesCopied, this`bytesCopied, this`messagesSkipped,
        state.Repr, sourceServer, targetServer, Throttles()
      ensures Parts() && fresh(state.Repr - old(state.Repr)) && old(state.Repr) <= state.Repr
      ensures sourceServer.account == source.account && old(sourceServer.tick) <= sourceServer.tick
      ensures !cancelled ==> sourceServer.tick == source.tick + Asked(Whole(next, World(), cancelled))
      ensures Fetched(before, sourceServer.fetches, uids, source.tick, sourceServer.tick)
      ensures cancelled ==> old(cancelled) || cancellable
      ensures old(cancelled) ==> cancelled
      ensures P.Step(env, old(Whole(pipe, World(), cancelled)), Whole(next, World(), cancelled), actor)
      ensures old(cancelled) ==> World() == old(World()) && sourceServer.fetches == old(sourceServer.fetches)
    {
      hide H.State.Valid, P.TallyInv, P.FlowInv, P.BreakInv, P.MessagesIn, P.Upcoming, P.ProcessMessage, Fetched;
      P.SomeoneMoves(env, w0, Whole(pipe, World(), cancelled));
      if {
        case !pipe.fetcher.Closed? && (pipe.fetcher.Sending? ==> |pipe.channel| < P.CAPACITY) =>
          next := FetcherMoves(pipe, uids, env, source, before);
          actor := P.FetcherActs;
        case pipe.copier.Copying? || (pipe.copier.Receiving? && (pipe.channel != [] || pipe.fetcher.Closed?)) =>
          if !cancelled { AskedStays(env, Whole(pipe, World(), cancelled)); }
          next := CopierMoves(f, pipe, env, |uids|);
          actor := P.CopierActs;
        case cancellable && !cancelled =>
          cancelled := true;
          next, actor := pipe, P.ContextEnds;
      }
    }

    /** The fetcher goroutine and the copier loop under an arbitrary scheduler. Every round makes the
        measure smaller, so all schedules end. */
    method Drive(f: string, first: Pipe, uids: seq<uint32>, ghost env: P.Env, ghost w0: World, ghost source: Remote,
                 ghost before: seq<seq<uint32>>)
      returns (pipe: Pipe)
      requires Parts() && Linked() && sourceClient.selected == f
      requires f in source.account.folders && sourceServer.account == source.account
      requires env == FolderCopy.Job(Ctx(f), source.account.folders[f], sourceServer.oracle, source.tick, uids,
                                     progress)
      requires P.Inv(env, w0, Whole(first, World(), cancelled))
      requires !cancelled ==> sourceServer.tick == source.tick + Asked(Whole(first, World(), cancelled))
      requires Fetched(before, sourceServer.fetches, uids, source.tick, sourceServer.tick)
      modifies this`cancelled, this`messagesCopied, this`bytesCopied, this`messagesSkipped,
        state.Repr, sourceServer, targetServer, Throttles()
      ensures Parts() && fresh(state.Repr - old(state.Repr)) && old(state.Repr) <= state.Repr
      ensures sourceServer.account == source.account && old(sourceServer.tick) <= sourceServer.tick
      ensures !cancelled ==> sourceServer.tick == source.tick + Asked(Whole(pipe, World(), cancelled))
      ensures Fetched(before, sourceServer.fetches, uids, source.tick, sourceServer.tick)
      ensures cancelled ==> old(cancelled) || cancellable
      ensures old(cancelled) ==> cancelled
      ensures pipe.copier.Finished? && P.Inv(env, w0, Whole(pipe, World(), cancelled))
      ensures old(cancelled) ==> World() == old(World()) && sourceServer.fetches == old(sourceServer.fetches)
    {
      hide H.State.Valid, P.Inv, P.Step, Asked, P.MeasureOf, World, Fetched;
      pipe := first;
      ghost var s := Whole(pipe, World(), cancelled);
      while !pipe.copier.Finished?
        invariant Parts() && Linked() && sourceClient.selected == f
        invariant fresh(state.Repr - old(state.Repr)) && old(state.Repr) <= state.Repr
        invariant sourceServer.account == source.account && old(sourceServer.tick) <= sourceServer.tick
        invariant !cancelled ==> sourceServer.tick == source.tick + Asked(s)
        invariant Fetched(before, sourceServer.fetches, uids, source.tick, sourceServer.tick)
        invariant s == Whole(pipe, World(), cancelled) && P.Inv(env, w0, s)
        invariant cancelled ==> old(cancelled) || cancellable
        invariant old(cancelled) ==> cancelled
        invariant old(cancelled) ==> World() == old(World()) && sourceServer.fetches == old(sourceServer.fetches)
        decreases P.MeasureOf(env, s).context, P.MeasureOf(env, s).fetcher, P.MeasureOf(env, s).channel,
          P.MeasureOf(env, s).copier
      {
        ghost var last := s;
        ghost var actor;
        pipe, actor := Schedule(f, pipe, uids, env, w0, source, before);
        s := Whole(pipe, World(), cancelled);
        StepOfPipeline(env, w0, last, s, actor);
      }
    }

    /** The pipeline of one folder, the context ending at any moment if it can. At the end the
        fetcher has closed the channel and asks for nothing more. What it has asked for are the UIDs in
        order, fifty at a time, and all of them if neither a failed fetch nor the context has stopped it.
        Then every message is copied, skipped, or counted in the error. */
    method RunPipeline(f: string, uids: seq<uint32>) returns (failure: Option<P.Failure>, ghost ending: Ending)
      requires Parts() && Linked() && sourceClient.selected == f && f in sourceServer.account.folders
      modifies this`cancelled, this`messagesCopied, this`bytesCopied, this`messagesSkipped,
        state.Repr, sourceServer, targetServer, Throttles()
      ensures Parts() && fresh(state.Repr - old(state.Repr)) && old(state.Repr) <= state.Repr
      ensures sourceServer.account == old(sourceServer.account)
      ensures cancelled ==> old(cancelled) || cancellable
      ensures old(cancelled) ==> cancelled
      ensures !cancelled ==> ending == Undisturbed
      ensures
        var env := EnvOf(Job(f), old(Sides()), uids);
        var (w, fails) := CopyAll(Ctx(f), old(World()), Processed(env, ending));
        && World() == w && failure == P.Verdict(Noted(env, ending), fails)
        && sourceServer.tick == old(sourceServer.tick) + Requests(env, ending)
      ensures Fetched(old(sourceServer.fetches), sourceServer.fetches, uids, old(sourceServer.tick), sourceServer.tick)
      ensures !cancelled && failure != Some(P.FetchError) ==>
        sourceServer.tick == old(sourceServer.tick) + (|uids| + 49) / 50
      ensures Accounted(old(Stats()), Stats(), failure, |Processed(EnvOf(Job(f), old(Sides()), uids), ending)|)
      ensures
        && !cancelled && failure != Some(P.FetchError) && NoDup(uids)
        && (forall u :: u in uids ==> u in sourceServer.account.folders[f].msgs)
        ==> Accounted(old(Stats()), Stats(), failure, |uids|)
      ensures SyncsOf(state.View, name) == old(SyncsOf(state.View, name))
      ensures old(cancelled) ==> World() == old(World()) && sourceServer.fetches == old(sourceServer.fetches)
    {
      ghost var env, w0, source := EnvOf(Job(f), Sides(), uids), World(), sourceServer.Value();
      var pipe := Pipe(P.Checking(0), [], P.Receiving, 0, 0, Milestones.Ladder(progress, []), None);
      StartOfPipeline(env, w0, Whole(pipe, w0, cancelled));
      NothingFetched(sourceServer.fetches, uids, source.tick);
      hide H.State.Valid, P.Inv, Asked, World, CopyAll, Processed, Noted, Requests, EndingOf, Fetched, Accounted,
        SyncsOf;
      pipe := Drive(f, pipe, uids, env, w0, source, sourceServer.fetches);
      ghost var s := Whole(pipe, World(), cancelled);
      ghost var requests := sourceServer.tick - source.tick;
      ending := EndingOf(s, requests);
      EndOfPipeline(env, w0, s, requests);
      failure := pipe.failure;
      if failure == None && pipe.fails > 0 {
        failure := Some(P.MessagesFailed(pipe.fails));
      }
      if !cancelled { UncancelledEnding(s, requests); }
      CopyAllKeepsStamps(Ctx(f), w0, Processed(env, ending));
      AllAccounted(Ctx(f), w0, Processed(env, ending), Noted(env, ending));
      if !cancelled && failure != Some(P.FetchError) {
        NoFetchError(env, s.tally.fails);
        AllRequestsMade(env);
        if NoDup(uids) && forall u :: u in uids ==> u in source.account.folders[f].msgs {
          AllProcessed(env, source.account.folders[f], sourceServer.oracle, source.tick);
        }
      }
    }

    // ---------------------------------------------------------------- one folder

    /** From selecting the target folder to the list of unsynced UIDs. */
    method PrepareFolder(f: string, info: Info) returns (opening: Opening)
      requires Parts() && Linked() && sourceClient.selected == f && f in sourceServer.account.folders
      modifies this`messagesSkipped, targetClient`selected, state.Repr, sourceServer, targetServer
      ensures Parts() && Linked() && fresh(state.Repr - old(state.Repr)) && old(state.Repr) <= state.Repr
      ensures (Sides(), opening) == Prepare(Job(f), old(Sides()), info)
      ensures opening.ToCopy? ==> targetClient.selected == f && CanSelect(targetServer.account, f)
      ensures sourceServer.account == old(sourceServer.account) && sourceServer.fetches == old(sourceServer.fetches)
    {
      hide H.State.Valid, PutFolder, RecOf, SelectReply, FetchAllReply, OnlyFolder, SameStamps, HasFolder, Revalidate,
        Apply, Outside;
      if info.messages == 0 {
        return Over(None);
      }
      SelectedIsSelectable(targetServer.account, f, targetServer.Next());
      var selected := targetClient.Select(f);
      if selected.None? {
        return Over(Some(SelectTargetFailed));
      }
      var changed := state.SetUIDValidity(name, f, info.uidValidity);
      ValidityIsApplied(old(state.View), name, f, info.uidValidity);
      var messages := sourceClient.FetchAll();
      if messages.None? {
        return Over(Some(FetchAllFailed));
      }
      if messages.value == [] {
        return Over(None);
      }
      var allUIDs := CollectUIDs(messages.value);
      var unsynced := state.GetUnsyncedUIDs(name, f, allUIDs);
      if unsynced == [] {
        messagesSkipped := messagesSkipped + |messages.value|;
        return Over(None);
      }
      return ToCopy(unsynced);
    }

    /** From selecting the source folder on; the target folder is created if it is missing. What is listed for
        copying are the messages not recorded as synced, or all of them after a change of UIDVALIDITY. */
    method OpenFolder(f: string) returns (opening: Opening)
      requires Parts() && Linked()
      modifies this`messagesSkipped, sourceClient`selected, targetClient`selected, state.Repr, sourceServer,
        targetServer
      ensures Parts() && Linked() && fresh(state.Repr - old(state.Repr)) && old(state.Repr) <= state.Repr
      ensures (Sides(), opening) == Open(Job(f), old(Sides()))
      ensures opening.ToCopy? ==> sourceClient.selected == f && f in sourceServer.account.folders
      ensures opening.ToCopy? ==> targetClient.selected == f && CanSelect(targetServer.account, f)
      ensures sourceServer.account == old(sourceServer.account) && sourceServer.fetches == old(sourceServer.fetches)
      ensures opening == Over(Some(SelectSourceFailed)) <==>
        !(old(sourceServer.Next()).outcome.Acked? && CanSelect(sourceServer.account, f))
      ensures opening.Over? && opening.error.Some? ==> Stats() == old(Stats())
      ensures opening !in {Over(Some(SelectSourceFailed)), Over(Some(EnsureFailed))} ==>
        OpensTo(sourceServer.account.folders[f], old(RecOf(state.View, name, f)), opening, old(Stats()), Stats())
      ensures SyncsOf(state.View, name) == old(SyncsOf(state.View, name))
    {
      OpenComesTo(Job(f), Sides());
      OpenKeepsStamps(Job(f), Sides());
      hide H.State.Valid, Prepare, Create, ExistsReply, RecOf, SyncsOf, LastSyncOf, OpensTo;
      var info := sourceClient.Select(f);
      if info.None? {
        return Over(Some(SelectSourceFailed));
      }
      var ensured := targetClient.EnsureFolder(f);
      if !ensured {
        return Over(Some(EnsureFailed));
      }
      opening := PrepareFolder(f, info.value);
    }

    ghost function LastCopyOf(f: string): Timestamp
      requires HasFolder(state.View, name, f)
      reads state
    {
      state.View[name].folders[f].lastSync
    }

    /** `copyFolder`: whatever the schedule, it does exactly what `FolderCopy.CopyFolder` says of
        the ending that the context allows it. */
    method CopyFolder(f: string)
      returns (err: Option<FolderError>, ghost ending: Ending, ghost todo: seq<uint32>)
      requires Parts() && (Connected() ==> Linked())
      modifies this`cancelled, this`messagesCopied, this`bytesCopied, this`messagesSkipped, this`attempts,
        dialled`selected, state.Repr, sourceServer, targetServer, Throttles()
      requires Connected() ==> {sourceClient, targetClient} <= dialled
      ensures Parts() && fresh(state.Repr - old(state.Repr)) && old(state.Repr) <= state.Repr
      ensures cancelled ==> old(cancelled) || cancellable
      ensures old(cancelled) ==> cancelled
      ensures !cancelled ==> ending == Undisturbed
      ensures attempts == old(attempts) + [Attempt(f, Connected(), err == None)]
        && sourceServer.account == old(sourceServer.account)
      ensures !Connected() ==> err == Some(NotConnected) && Sides() == old(Sides()) && todo == []
      ensures Connected() ==> (Sides(), err) == FolderCopy.CopyFolder(Job(f).(ending := ending), old(Sides()))
      ensures SyncsOf(state.View, name) == old(SyncsOf(state.View, name)) + (if err == None && todo != [] then 1 else 0)
      ensures err == None && todo != [] ==>
        LastSyncOf(state.View, name) == now && HasFolder(state.View, name, f) && LastCopyOf(f) == now
      ensures err == None || err.value.LoopFailed? ==>
        && f in sourceServer.account.folders && NoDup(todo)
        && (forall u :: u in todo <==> IsToDo(sourceServer.account.folders[f], old(RecOf(state.View, name, f)), u))
        && Reports(err, todo, |sourceServer.account.folders[f].msgs|, old(Stats()), Stats(), cancelled)
      ensures |old(sourceServer.fetches)| <= |sourceServer.fetches|
      ensures var n := |sourceServer.fetches| - |old(sourceServer.fetches)|;
              && sourceServer.fetches == old(sourceServer.fetches) + Fifties(todo, n)
              && (err == None && !cancelled ==> n == (|todo| + 49) / 50)
    {
      hide H.State.Valid, FolderCopy.CopyFolder;
      ending, todo := Undisturbed, [];
      if sourceClient == null || targetClient == null {
        err := Some(NotConnected);
      } else {
        err, ending, todo := CopyConnectedFolder(f);
      }
      attempts := attempts + [Attempt(f, Connected(), err == None)];
    }

    /** The rest of `copyFolder`, when both servers are connected. */
    method CopyConnectedFolder(f: string)
      returns (err: Option<FolderError>, ghost ending: Ending, ghost todo: seq<uint32>)
      requires Parts() && Linked()
      modifies this`cancelled, this`messagesCopied, this`bytesCopied, this`messagesSkipped,
        sourceClient`selected, targetClient`selected, state.Repr, sourceServer, targetServer, Throttles()
      ensures Parts() && fresh(state.Repr - old(state.Repr)) && old(state.Repr) <= state.Repr
      ensures cancelled ==> old(cancelled) || cancellable
      ensures old(cancelled) ==> cancelled
      ensures !cancelled ==> ending == Undisturbed
      ensures sourceServer.account == old(sourceServer.account) && err != Some(NotConnected)
      ensures (Sides(), err) == FolderCopy.CopyFolder(Job(f).(ending := ending), old(Sides()))
      ensures SyncsOf(state.View, name) == old(SyncsOf(state.View, name)) + (if err == None && todo != [] then 1 else 0)
      ensures err == None && todo != [] ==>
        LastSyncOf(state.View, name) == now && HasFolder(state.View, name, f) && LastCopyOf(f) == now
      ensures err == None || err.value.LoopFailed? ==>
        && f in sourceServer.account.folders && NoDup(todo)
        && (forall u :: u in todo <==> IsToDo(sourceServer.account.folders[f], old(RecOf(state.View, name, f)), u))
        && Reports(err, todo, |sourceServer.account.folders[f].msgs|, old(Stats()), Stats(), cancelled)
      ensures |old(sourceServer.fetches)| <= |sourceServer.fetches|
      ensures var n := |sourceServer.fetches| - |old(sourceServer.fetches)|;
              && sourceServer.fetches == old(sourceServer.fetches) + Fifties(todo, n)
              && (err == None && !cancelled ==> n == (|todo| + 49) / 50)
    {
      hide H.State.Valid, Open, CopyAll, Processed, Noted, Requests, RecOf, SyncsOf, LastSyncOf, OnlyFolder, IsToDo,
        Accounted, Fifties, Apply, HasFolder, NoDup, OpensTo, Reports;
      ending, todo := Undisturbed, [];
      ghost var s0, stats, was := Sides(), Stats(), RecOf(state.View, name, f);
      ghost var account := sourceServer.account;
      OpeningErrors(Job(f), s0);
      NothingAsked(sourceServer.fetches);
      var opening := OpenFolder(f);
      if opening.Over? {
        if opening.error.None? { ReportsAtOnce(account.folders[f], was, opening, stats, Stats(), cancelled); }
        return opening.error, ending, todo;
      }
      ghost var s1, between := Sides(), Stats();
      ToDoIsThere(account.folders[f], was, opening.uids, opening, stats, between);
      todo := opening.uids;
      var failure;
      failure, ending := RunPipeline(f, opening.uids);
      OpenIgnoresEnding(Job(f), ending, s0);
      ReportsAfterLoop(account.folders[f], was, todo, stats, between, Stats(), failure,
                       |Processed(EnvOf(Job(f), s1, todo), ending)|, cancelled);
      if failure.Some? {
        return Some(LoopFailed(failure.value)), ending, todo;
      }
      ghost var w := World();
      state.UpdateLastSync(name, f, now);
      assert World() == Stamp(Job(f), w);
      StampCounts(w.state, name, f, now);
      return None, ending, todo;
    }

    // ---------------------------------------------------------------- connections

    ghost function PlanOf(stops: map<string, Ending>): R.Plan {
      R.Plan(name, sourceServer.oracle, targetServer.oracle, if throttle == null then None else Some(throttle.admits),
             dial, progress, now, stops)
    }

    ghost function RunOf(): R.Run
      reads this, state, sourceServer, targetServer, throttle
    {
      R.Run(Sides(), dials)
    }

    /** `imap.Dial`, as far as its callers can tell. */
    method Dial(server: Server) returns (client: Client?)
      modifies this`dials, this`dialled
      ensures dials == old(dials) + 1 && (client != null <==> dial(old(dials)))
      ensures client == null ==> dialled == old(dialled)
      ensures client != null ==> fresh(client) && client.server == server && client.closes == 0 && !client.gone
      ensures client != null ==> dialled == old(dialled) + {client}
    {
      client := null;
      if dial(dials) {
        client := new Client(server);
        dialled := dialled + {client};
      }
      dials := dials + 1;
    }

    /** The second half of `connect`. If the target cannot be reached, the source is closed again. */
    method ConnectTarget(source: Client) returns (ok: bool)
      requires Parts() && dialled !! state.Repr && source in dialled && source.server == sourceServer
      requires sourceClient == source && targetClient == null && OpenAre(source, null)
      modifies this`sourceClient, this`targetClient, this`dials, this`dialled, source`closes, source`gone, sourceServer
      ensures Valid() && (ok <==> Connected()) && old(dialled) <= dialled && fresh(dialled - old(dialled))
      ensures World() == old(World()) && dials == old(dials) + 1 && ok == dial(old(dials))
      ensures sourceServer.Value() == if ok then old(sourceServer.Value()) else Answered(old(sourceServer.Value()))
    {
      hide H.State.Valid;
      var target := Dial(targetServer);
      targetClient := target;
      if target == null {
        var closed := source.Close();
        sourceClient := null;
        return false;
      }
      return true;
    }

    /** `connect`: afterwards both clients are there or both missing. */
    method Connect() returns (ok: bool)
      requires Valid()
      modifies this`sourceClient, this`targetClient, this`dials, this`dialled, sourceServer
      ensures Valid() && (ok <==> Connected()) && old(dialled) <= dialled && fresh(dialled - old(dialled))
      ensures old(Connected()) ==> ok && RunOf() == old(RunOf())
      ensures !old(Connected()) ==> (RunOf(), ok) == R.Connect(PlanOf(map[]), old(RunOf()))
      ensures !old(Connected()) ==> ok == (dial(old(dials)) && dial(old(dials) + 1))
      ensures ok ==> sourceServer.tick == old(sourceServer.tick) && targetServer.tick == old(targetServer.tick)
      ensures sourceServer.account == old(sourceServer.account) && targetServer.account == old(targetServer.account)
    {
      hide H.State.Valid;
      if sourceClient != null && targetClient != null {
        return true;
      }
      var source := Dial(sourceServer);
      sourceClient := source;
      if source == null {
        return false;
      }
      ok := ConnectTarget(source);
    }

    /** The last command was acknowledged. */
    ghost predicate LastAcked(server: Server)
      reads server
    {
      server.tick > 0 && server.oracle(server.tick - 1).outcome.Acked?
    }

    /** `disconnect`: both clients are dropped, whatever closing them says. */
    method Disconnect() returns (ok: bool)
      requires Valid()
      modifies this`sourceClient, this`targetClient, dialled`closes, dialled`gone, sourceServer, targetServer
      ensures Valid() && !Connected() && forall c :: c in dialled ==> c.closes == 1
      ensures old(Connected()) ==> (RunOf(), ok) == R.Disconnect(PlanOf(map[]), old(RunOf()))
      ensures old(Connected()) ==> ok == (LastAcked(sourceServer) && LastAcked(targetServer))
      ensures !old(Connected()) ==> ok && RunOf() == old(RunOf())
      ensures sourceServer.account == old(sourceServer.account) && targetServer.account == old(targetServer.account)
    {
      hide H.State.Valid;
      var source, target := sourceClient, targetClient;
      sourceClient, targetClient := null, null;
      ok := true;
      if source != null {
        var closed := source.Close();
        ok := ok && closed;
      }
      if target != null {
        var closed := target.Close();
        ok := ok && closed;
      }
    }

    // ---------------------------------------------------------------- the whole mailbox

    /** The creation loop of `copyFolders`: each selectable folder that is not present is asked for once, in the
        given order; failures are passed over, successes counted. */
    method CreateFolders(present: set<string>, sorted: seq<Entry>) returns (ghost made: seq<Creation>)
      requires targetClient != null && targetClient.server == targetServer
      modifies this`foldersCreated, targetServer
      ensures old(foldersCreated) <= foldersCreated
      ensures (targetServer.Value(), foldersCreated - old(foldersCreated)) ==
              CreateMissing(targetServer.oracle, old(targetServer.Value()), present, sorted)
      ensures targetServer.creations == old(targetServer.creations) + made
      ensures NamesCreated(made) == NamesOutside(present, sorted)
      ensures foldersCreated == old(foldersCreated) + AckedIn(made)
    {
      hide Create, CreateMissing, NamesCreated, NamesOutside, AckedIn;
      made := [];
      ghost var first, oracle := targetServer.Value(), targetServer.oracle;
      NothingMade(oracle, first, present, sorted);
      for i := 0 to |sorted|
        invariant old(foldersCreated) <= foldersCreated
        invariant targetServer.creations == old(targetServer.creations) + made
        invariant Making(oracle, first, present, sorted, i, targetServer.Value(), foldersCreated - old(foldersCreated),
                         made)
      {
        hide Making;
        ghost var r, n := targetServer.Value(), foldersCreated - old(foldersCreated);
        if sorted[i].IsNoSelect() {
          PassOver(oracle, first, present, sorted, i, r, n, made);
          continue;
        }
        if sorted[i].name !in present {
          var created := targetClient.CreateFolder(sorted[i].name);
          made := made + [Creation(sorted[i].name, created)];
          OneMoreMade(oracle, first, present, sorted, i, r, n, made, targetServer.account, created);
          if created {
            foldersCreated := foldersCreated + 1;
          }
        } else {
          PassOver(oracle, first, present, sorted, i, r, n, made);
        }
      }
      AllMade(oracle, first, present, sorted, targetServer.Value(), foldersCreated - old(foldersCreated), made);
    }

    /** The set of the names listed on the target. */
    static method CollectNames(es: seq<Entry>) returns (names: set<string>)
      ensures names == R.NamesOf(es)
    {
      names := {};
      for i := 0 to |es|
        invariant names == R.NamesOf(es[..i])
      {
        names := names + {es[i].name};
      }
      assert es[..|es|] == es;
    }

    /** `copyFolders`. It fails if a listing does. Else there is one CREATE for each selectable source folder
        that the target lacks, in ascending order, and those acknowledged are counted. */
    method CopyFolders() returns (ok: bool, ghost made: seq<Creation>)
      requires Parts() && Linked()
      modifies this`foldersCreated, sourceServer, targetServer
      ensures (RunOf(), ok) == R.CopyFolders(PlanOf(map[]), old(RunOf()))
      ensures sourceServer.account == old(sourceServer.account)
      ensures ok <==> old(sourceServer.Next()).outcome.Acked? && old(targetServer.Next()).outcome.Acked?
      ensures sourceServer.tick == old(sourceServer.tick) + 1
      ensures targetServer.creations == old(targetServer.creations) + made
      ensures foldersCreated == old(foldersCreated) + AckedIn(made)
      ensures !ok ==> made == []
      ensures ok ==> AreMissing(NamesCreated(made), sourceServer.account, old(targetServer.account))
    {
      AnswersDecide(sourceServer.account, sourceServer.Next());
      AnswersDecide(targetServer.account, targetServer.Next());
      made := [];
      ghost var sa, ta := sourceServer.Next(), targetServer.Next();
      hide H.State.Valid, ListReply, CreateMissing, NamesOutside, AckedIn, AreMissing, SortByName, NamesCreated,
        R.CopyFolders, R.NamesOf;
      ghost var p, r := PlanOf(map[]), RunOf();
      FoldersNotListed(p, r);
      var sourceFolders := sourceClient.ListFolders();
      if sourceFolders.None? {
        return false, made;
      }
      var targetFolders := targetClient.ListFolders();
      if targetFolders.None? {
        return false, made;
      }
      var present := CollectNames(targetFolders.value);
      assert targetServer.Value() == Answered(r.sides.world.target) && sourceServer.Value() == Answered(r.sides.source);
      NamesAreKeys(targetServer.account, ta);
      SortedAreMissing(sourceServer.account, sa, targetServer.account, present);
      made := CreateFolders(present, SortByName(sourceFolders.value, false));
      FoldersDone(p, r, sourceFolders.value, present, targetServer.Value(), foldersCreated);
      assert RunOf() == Later(r, targetServer.Value(), foldersCreated);
      return true, made;
    }

    /** The source account is a proper one, and the records of all its folders agree with the target. */
    ghost predicate Sound(src: Account)
      reads this, state, sourceServer, targetServer, throttle
    {
      sourceServer.account == src && ValidAccount(src) && R.AllSound(PlanOf(map[]), src, World())
    }

    /** Every folder copy since number `n` was begun with both servers connected. */
    ghost predicate NeverStartedAlone(n: nat)
      reads this
    {
      n <= |attempts| && forall i :: n <= i < |attempts| ==> attempts[i].connected
    }

    /** Disconnecting and connecting again after a failed folder. */
    method Reconnect() returns (ok: bool)
      requires Valid() && Connected()
      modifies this`sourceClient, this`targetClient, this`dials, this`dialled, dialled`closes, dialled`gone,
        sourceServer, targetServer
      ensures Valid() && (ok <==> Connected()) && old(dialled) <= dialled && fresh(dialled - old(dialled))
      ensures (RunOf(), ok) == R.Connect(PlanOf(map[]), R.Disconnect(PlanOf(map[]), old(RunOf())).0)
      ensures ok == (dial(old(dials)) && dial(old(dials) + 1)) && ClosedOnce(old(dialled))
      ensures sourceServer.account == old(sourceServer.account) && targetServer.account == old(targetServer.account)
    {
      hide H.State.Valid, R.Connect, R.Disconnect, Lifecycle, OpenAre;
      var closed := Disconnect();
      ok := Connect();
    }

    /** One folder, and the reconnect if it failed. */
    method CopyRound(f: string, ghost n: nat) returns (failed: bool, ghost ending: Ending)
      requires Valid() && Connected() && NeverStartedAlone(n)
      modifies this, dialled, state.Repr, sourceServer, targetServer, Throttles()
      ensures Valid() && fresh(state.Repr - old(state.Repr)) && old(state.Repr) <= state.Repr
      ensures old(dialled) <= dialled && fresh(dialled - old(dialled)) && NeverStartedAlone(n)
      ensures cancelled ==> old(cancelled) || cancellable
      ensures old(cancelled) ==> cancelled
      ensures !cancelled ==> ending == Undisturbed
      ensures (!failed ==> Connected()) && sourceServer.account == old(sourceServer.account)
      ensures (RunOf(), failed, Connected()) == R.Round(PlanOf(map[f := ending]), old(RunOf()), f)
      ensures attempts == old(attempts) + [Attempt(f, true, !failed)]
      ensures Connected() <==> !failed || (dial(old(dials)) && dial(old(dials) + 1))
      ensures if failed then ClosedOnce(old(dialled))
              else dials == old(dials) && sourceClient == old(sourceClient) && targetClient == old(targetClient)
      ensures old(SyncsOf(state.View, name)) <= SyncsOf(state.View, name)
    {
      hide H.State.Valid, FolderCopy.CopyFolder, R.Round, R.Connect, R.Disconnect, SyncsOf, Fifties, Reports, IsToDo,
        World;
      ghost var r := RunOf();
      var err;
      ghost var todo;
      err, ending, todo := CopyFolder(f);
      R.RoundInSteps(PlanOf(map[f := ending]), r, f);
      R.ReconnectIgnoresStops(PlanOf(map[]), map[f := ending], RunOf());
      if err == None {
        return false, ending;
      }
      var connected := Reconnect();
      return true, ending;
    }

    /** The loop over the listed folders; it gives up when it cannot reconnect. The selectable ones are tried in
        the order of the listing, all of them unless it gives up, and the errors are counted. */
    method CopyEach(folders: seq<Entry>, ghost n: nat)
      returns (errors: nat, ghost stops: map<string, Ending>, ghost tried: seq<Attempt>)
      requires Valid() && Connected() && NeverStartedAlone(n) && DistinctNames(folders)
      modifies this, dialled, state.Repr, sourceServer, targetServer, Throttles()
      ensures Valid() && fresh(state.Repr - old(state.Repr)) && old(state.Repr) <= state.Repr
      ensures old(dialled) <= dialled && fresh(dialled - old(dialled)) && NeverStartedAlone(n)
      ensures cancelled ==> old(cancelled) || cancellable
      ensures old(cancelled) ==> cancelled
      ensures !cancelled ==> stops == map[]
      ensures sourceServer.account == old(sourceServer.account)
      ensures (RunOf(), errors, Connected()) == R.CopyEach(PlanOf(stops), old(RunOf()), folders)
      ensures attempts == old(attempts) + tried && errors == FailuresIn(tried)
      ensures NamesTried(tried) <= NamesOutside({}, folders) && (Connected() || errors > 0)
      ensures Connected() ==> NamesTried(tried) == NamesOutside({}, folders)
      ensures old(SyncsOf(state.View, name)) <= SyncsOf(state.View, name)
    {
      hide H.State.Valid, R.Round, R.CopyEach, Lifecycle, OpenAre, SyncsOf, NamesTried, NamesOutside, FailuresIn,
        Trying, World, ClosedOnce, DistinctNames, Rounds;
      ghost var p, r := PlanOf(map[]), RunOf();
      errors, stops, tried := 0, map[], [];
      NothingTried(attempts, folders);
      NoRounds(p, r, folders);
      for i := 0 to |folders|
        invariant Valid() && Connected() && NeverStartedAlone(n)
        invariant fresh(state.Repr - old(state.Repr)) && old(state.Repr) <= state.Repr
        invariant old(dialled) <= dialled && fresh(dialled - old(dialled))
        invariant cancelled ==> old(cancelled) || cancellable
        invariant old(cancelled) ==> cancelled
        invariant !cancelled ==> stops == map[]
        invariant sourceServer.account == old(sourceServer.account)
        invariant Rounds(p, stops, r, folders, i, RunOf(), errors)
        invariant Trying(old(attempts), attempts, folders, i, tried, errors)
        invariant old(SyncsOf(state.View, name)) <= SyncsOf(state.View, name)
      {
        ghost var before := RunOf();
        if folders[i].IsNoSelect() {
          RoundSkipped(p, stops, r, folders, i, before, errors);
          NotTried(old(attempts), attempts, folders, i, tried, errors);
          continue;
        }
        var failed, ending := CopyRound(folders[i].name, n);
        RoundDone(p, stops, r, folders, i, before, errors, ending);
        tried := tried + [Attempt(folders[i].name, true, !failed)];
        OneMoreTried(old(attempts), attempts, folders, i, tried, errors);
        if ending != Undisturbed {
          stops := stops[folders[i].name := ending];
        }
        if failed {
          errors := errors + 1;
        }
        if sourceClient == null || targetClient == null {
          TriedSoFar(old(attempts), attempts, folders, i + 1, tried, errors);
          return errors, stops, tried;
        }
      }
      TriedSoFar(old(attempts), attempts, folders, |folders|, tried, errors);
      AllRounds(p, stops, r, folders, RunOf(), errors);
    }

    /** The second listing of `copy`, and the loop over it. */
    method ListAndCopy(ghost n: nat)
      returns (errors: Option<nat>, ghost stops: map<string, Ending>, ghost tried: seq<Attempt>)
      requires Valid() && Connected() && NeverStartedAlone(n)
      modifies this, dialled, state.Repr, sourceServer, targetServer, Throttles()
      ensures Valid() && fresh(state.Repr - old(state.Repr)) && old(state.Repr) <= state.Repr
      ensures old(dialled) <= dialled && fresh(dialled - old(dialled)) && NeverStartedAlone(n)
      ensures cancelled ==> old(cancelled) || cancellable
      ensures old(cancelled) ==> cancelled
      ensures !cancelled ==> stops == map[]
      ensures sourceServer.account == old(sourceServer.account)
      ensures errors.Some? <==> old(sourceServer.Next()).outcome.Acked?
      ensures errors.None? ==> RunOf() == R.SourceTick(old(RunOf())) && Connected()
      ensures errors.Some? ==>
        && var listed := ListReply(old(sourceServer.account), old(sourceServer.Next()));
        && listed.Some?
        && (RunOf(), errors.value, Connected()) == R.CopyEach(PlanOf(stops), R.SourceTick(old(RunOf())), listed.value)
      ensures attempts == old(attempts) + tried && TriedAll(sourceServer.account, errors, tried, Connected())
      ensures old(SyncsOf(state.View, name)) <= SyncsOf(state.View, name)
    {
      AnswersDecide(sourceServer.account, sourceServer.Next());
      NoneTried(sourceServer.account);
      hide H.State.Valid, R.CopyEach, ListReply, DistinctNames, NamesOutside, NamesTried, FailuresIn, SyncsOf, TriedAll,
        Lifecycle, OpenAre, World;
      stops, tried := map[], [];
      ghost var ans, listing := sourceServer.Next(), R.SourceTick(RunOf());
      var folders := sourceClient.ListFolders();
      if folders.None? {
        return None, stops, tried;
      }
      ListingNamesAll(sourceServer.account, ans);
      assert RunOf() == listing;
      var failures;
      failures, stops, tried := CopyEach(folders.value, n);
      AllTried(sourceServer.account, ans, failures, tried, Connected());
      return Some(failures), stops, tried;
    }

    /** `copy` from its own listing of the source folders on. Once that has arrived the copy counts as a sync of
        the mailbox. */
    method CopyListed(ghost n: nat)
      returns (errors: Option<nat>, ghost stops: map<string, Ending>, ghost tried: seq<Attempt>)
      requires Valid() && Connected() && NeverStartedAlone(n)
      modifies this, dialled, state.Repr, sourceServer, targetServer, Throttles()
      ensures Valid() && fresh(state.Repr - old(state.Repr)) && old(state.Repr) <= state.Repr
      ensures old(dialled) <= dialled && fresh(dialled - old(dialled)) && NeverStartedAlone(n)
      ensures cancelled ==> old(cancelled) || cancellable
      ensures old(cancelled) ==> cancelled
      ensures !cancelled ==> stops == map[]
      ensures sourceServer.account == old(sourceServer.account)
      ensures (RunOf(), errors, Connected()) == R.CopyListed(PlanOf(stops), old(RunOf()))
      ensures errors.Some? <==> old(sourceServer.Next()).outcome.Acked?
      ensures attempts == old(attempts) + tried && TriedAll(sourceServer.account, errors, tried, Connected())
      ensures errors.Some? ==> SyncsOf(state.View, name) > old(SyncsOf(state.View, name))
      ensures errors.Some? ==> LastSyncOf(state.View, name) == now
    {
      hide H.State.Valid, R.CopyEach, ListReply, R.NoteSync, SyncsOf, LastSyncOf, TriedAll, Lifecycle, OpenAre;
      ghost var r, ans := RunOf(), sourceServer.Next();
      NotListed(PlanOf(map[]), r);
      errors, stops, tried := ListAndCopy(n);
      if errors.Some? {
        ghost var before := RunOf();
        ListedInSteps(PlanOf(stops), r, ListReply(sourceServer.account, ans).value, before, errors.value, Connected());
        R.ConnectIgnoresStops(PlanOf(map[]), stops, before);
        NoteSync(before);
      }
    }

    /** The three folder listings of a copy will be answered: two by the source, one by the target. */
    ghost predicate ListingsArrive()
      reads sourceServer, targetServer
    {
      && sourceServer.Next().outcome.Acked? && targetServer.Next().outcome.Acked?
      && sourceServer.oracle(sourceServer.tick + 1).outcome.Acked?
    }

    /** `copy` between connecting and the deferred disconnecting. */
    method CopyOpened(ghost n: nat)
      returns (errors: Option<nat>, ghost stops: map<string, Ending>, ghost tried: seq<Attempt>)
      requires Valid() && Connected() && NeverStartedAlone(n)
      modifies this, dialled, state.Repr, sourceServer, targetServer, Throttles()
      ensures Valid() && fresh(state.Repr - old(state.Repr)) && old(state.Repr) <= state.Repr
      ensures old(dialled) <= dialled && fresh(dialled - old(dialled)) && NeverStartedAlone(n)
      ensures cancelled ==> old(cancelled) || cancellable
      ensures old(cancelled) ==> cancelled
      ensures !cancelled ==> stops == map[]
      ensures sourceServer.account == old(sourceServer.account)
      ensures (RunOf(), errors, Connected()) == R.CopyOpened(PlanOf(stops), old(RunOf()))
      ensures errors.Some? <==> old(ListingsArrive())
      ensures attempts == old(attempts) + tried && TriedAll(sourceServer.account, errors, tried, Connected())
      ensures errors.Some? ==> SyncsOf(state.View, name) > old(SyncsOf(state.View, name))
      ensures errors.Some? ==> LastSyncOf(state.View, name) == now
    {
      hide H.State.Valid, R.CopyFolders, R.CopyListed, SyncsOf, LastSyncOf, NamesCreated, AckedIn, AreMissing, TriedAll;
      NoneTried(sourceServer.account);
      stops, tried := map[], [];
      ghost var r := RunOf();
      var structured, made := CopyFolders();
      if !structured {
        return None, stops, tried;
      }
      errors, stops, tried := CopyListed(n);
      R.FoldersIgnoreStops(PlanOf(map[]), stops, r);
    }

    /** The time stamp of the mailbox. */
    method NoteSync(ghost r: R.Run)
      requires Valid() && r == RunOf()
      modifies state.Repr
      ensures Valid() && fresh(state.Repr - old(state.Repr)) && old(state.Repr) <= state.Repr
      ensures RunOf() == R.NoteSync(PlanOf(map[]), r)
      ensures SyncsOf(state.View, name) == old(SyncsOf(state.View, name)) + 1 && LastSyncOf(state.View, name) == now
    {
      hide H.State.Valid;
      state.UpdateMailboxLastSync(name, now);
    }

    /** `copy` once both servers are connected, the deferred disconnecting included. */
    method CopyAndDisconnect()
      returns (err: Option<R.MailboxError>, ghost stops: map<string, Ending>, ghost tried: seq<Attempt>)
      requires Valid() && Connected()
      modifies this, dialled, state.Repr, sourceServer, targetServer, Throttles()
      ensures Valid() && fresh(state.Repr - old(state.Repr)) && old(state.Repr) <= state.Repr
      ensures !Connected() && old(dialled) <= dialled && fresh(dialled - old(dialled))
      ensures NeverStartedAlone(|old(attempts)|)
      ensures cancelled ==> old(cancelled) || cancellable
      ensures old(cancelled) ==> cancelled
      ensures !cancelled ==> stops == map[]
      ensures sourceServer.account == old(sourceServer.account)
      ensures (RunOf(), err) == R.CopyConnected(PlanOf(stops), old(RunOf()))
      ensures err != Some(R.ConnectFailed) && (err == Some(R.FolderListFailed) <==> !old(ListingsArrive()))
      ensures attempts == old(attempts) + tried && Concludes(err, tried, sourceServer.account)
      ensures err == None ==> LastAcked(sourceServer) && LastAcked(targetServer)
      ensures err == Some(R.DisconnectFailed) ==> !(LastAcked(sourceServer) && LastAcked(targetServer))
      ensures PastListings(err) ==> SyncsOf(state.View, name) > old(SyncsOf(state.View, name))
      ensures PastListings(err) ==> LastSyncOf(state.View, name) == now
    {
      hide H.State.Valid, R.CopyOpened, R.Disconnect, SyncsOf, LastSyncOf, TriedAll, World, Concludes, Lifecycle,
        OpenAre, LastAcked;
      ghost var r := RunOf();
      var errors;
      errors, stops, tried := CopyOpened(|attempts|);
      ghost var r2, still := RunOf(), Connected();
      var closed := Disconnect();
      R.ConnectIgnoresStops(PlanOf(map[]), stops, r2);
      err := if errors.None? then Some(R.FolderListFailed)
             else if errors.value > 0 then Some(R.FoldersFailed(errors.value))
             else if closed then None else Some(R.DisconnectFailed);
      TriedConcludes(sourceServer.account, errors, tried, still, err);
    }

    /** `copy`. Whatever is reached, fails or is cancelled on the way: both clients are gone in the
        end, every client ever connected was closed exactly once, no folder copy was begun
        disconnected, the outcome is that of `MailboxRun.CopyMailbox` for some stops, none if the
        context does not end, and so the records agree with the target if they did before. The error
        tells which step failed or how many folders did; once the listings have arrived the copy counts
        as a sync of the mailbox. */
    method Copy() returns (err: Option<R.MailboxError>, ghost stops: map<string, Ending>, ghost tried: seq<Attempt>)
      requires Valid()
      modifies this, dialled, state.Repr, sourceServer, targetServer, Throttles()
      ensures Valid() && fresh(state.Repr - old(state.Repr)) && old(state.Repr) <= state.Repr
      ensures sourceClient == null && targetClient == null
      ensures old(dialled) <= dialled && forall c :: c in dialled ==> c.closes == 1
      ensures NeverStartedAlone(|old(attempts)|)
      ensures cancelled ==> old(cancelled) || cancellable
      ensures old(cancelled) ==> cancelled
      ensures !cancelled ==> stops == map[]
      ensures sourceServer.account == old(sourceServer.account)
      ensures old(Sound(sourceServer.account)) ==> Sound(sourceServer.account)
      ensures old(Connected()) ==> (RunOf(), err) == R.CopyConnected(PlanOf(stops), old(RunOf()))
      ensures !old(Connected()) ==> (RunOf(), err) == R.CopyMailbox(PlanOf(stops), old(RunOf()))
      ensures err == Some(R.ConnectFailed) <==> !old(Connected()) && !(dial(old(dials)) && dial(old(dials) + 1))
      ensures err == Some(R.FolderListFailed) <==> err != Some(R.ConnectFailed) && !old(ListingsArrive())
      ensures attempts == old(attempts) + tried && Concludes(err, tried, sourceServer.account)
      ensures err == None ==> LastAcked(sourceServer) && LastAcked(targetServer)
      ensures err == Some(R.DisconnectFailed) ==> !(LastAcked(sourceServer) && LastAcked(targetServer))
      ensures PastListings(err) ==> SyncsOf(state.View, name) > old(SyncsOf(state.View, name))
      ensures PastListings(err) ==> LastSyncOf(state.View, name) == now
    {
      hide H.State.Valid, R.AllSound, R.CopyConnected, R.Connect, ValidAccount, SyncsOf, LastSyncOf, Concludes,
        LastAcked;
      ghost var sound, r := Sound(sourceServer.account), RunOf();
      stops, tried := map[], [];
      NothingConcluded(sourceServer.account);
      var connected := Connect();
      R.ConnectIgnoresStops(PlanOf(map[]), stops, r);
      R.SoundRespectsAnswers(PlanOf(map[]), sourceServer.account, r.sides.world, World());
      if !connected {
        return Some(R.ConnectFailed), stops, tried;
      }
      ghost var r1 := RunOf();
      err, stops, tried := CopyAndDisconnect();
      R.ConnectIgnoresStops(PlanOf(map[]), stops, r);
      if sound { R.StopsKeepSound(PlanOf(map[]), stops, r1); }
    }
  }
}
