/** Copying one folder whole (internal/mailbox/copy.go, copyFolder): its steps as a function,
    what a successful run achieves, and what interrupting and resuming it achieves. */
module FolderCopy {
  import opened Basics
  import opened Imap
  import opened SyncState
  import opened MessageCopy
  import opened Agreement
  import opened Pipeline

  /** FETCH of batch `n`, the source having answered `tick` commands before the first one. */
  function Fetching(source: Folder, oracle: Oracle, tick: nat): (nat, seq<uint32>) -> Batch {
    (n: nat, uids: seq<uint32>) => BatchFrom(FetchReply(source, uids, oracle(tick + n)))
  }

  function BatchFrom(reply: Option<seq<Message>>): Batch {
    if reply.None? then FetchFailed else Fetched(reply.value)
  }

  /** The pipeline of one folder copy. */
  function Job(ctx: Context, source: Folder, oracle: Oracle, tick: nat, uids: seq<uint32>, progress: int): Env {
    Env(ctx, uids, Fetching(source, oracle, tick), progress)
  }

  lemma {:induction false} MessagesInMember(bs: seq<Batch>, i: nat)
    requires i < |MessagesIn(bs)|
    ensures exists b :: b in bs && MessagesIn(bs)[i] in MessagesOf(b)
  {
    var head := MessagesOf(bs[0]);
    if i < |head| {
      assert MessagesIn(bs)[i] == head[i] && bs[0] in bs;
    } else {
      MessagesInMember(bs[1..], i - |head|);
      assert MessagesIn(bs)[i] == MessagesIn(bs[1..])[i - |head|];
      var b :| b in bs[1..] && MessagesIn(bs)[i] in MessagesOf(b);
      assert b in bs;
    }
  }

  /** What the pipeline delivers is what the source holds. */
  lemma {:induction false} DeliversSource(env: Env, source: Folder, oracle: Oracle, tick: nat, start: nat)
    requires env.fetch == Fetching(source, oracle, tick)
    ensures AllFaithful(source, MessagesIn(Upcoming(env, start)))
    decreases |env.uids| - start
  {
    if start < |env.uids| {
      var b := FetchAt(env, start);
      var later := if b.FetchFailed? then [] else Upcoming(env, start + BATCH_SIZE);
      assert Upcoming(env, start) == [b] + later;
      assert ([b] + later)[1..] == later;
      if b.Fetched? { DeliversSource(env, source, oracle, tick, start + BATCH_SIZE); }
      FaithfulBatch(env, source, oracle, tick, start);
    }
  }

  ghost predicate Holds(msgs: seq<Message>, u: uint32) {
    exists i :: 0 <= i < |msgs| && msgs[i].uid == u
  }

  lemma ListingIsFaithful(source: Folder, order: seq<uint32>)
    requires forall u :: u in order ==> u in source.msgs
    ensures AllFaithful(source, Messages(source, order))
    ensures forall u :: u in order <==> Holds(Messages(source, order), u)
  {
    var msgs := Messages(source, order);
    forall i | 0 <= i < |msgs| ensures Faithful(source, msgs[i]) && msgs[i].uid in order {
      assert order[i] in order;
    }
    forall u | u in order ensures Holds(msgs, u) {
      var i :| 0 <= i < |order| && order[i] == u;
      assert msgs[i].uid == u;
    }
  }

  lemma ReplyIsFaithful(source: Folder, uids: seq<uint32>, ans: Answer)
    ensures
      var b := BatchFrom(FetchReply(source, uids, ans));
      && AllFaithful(source, MessagesOf(b))
      && (b.Fetched? ==> forall u :: u in uids && u in source.msgs ==> Holds(b.msgs, u))
  {
    if ans.outcome.Acked? {
      var order := UidOrder(Elements(uids) * source.msgs.Keys, ans.uids);
      ListingIsFaithful(source, order);
      hide Messages, Faithful, AllFaithful, Holds;
      assert FetchReply(source, uids, ans) == Some(Messages(source, order));
    }
  }

  lemma FaithfulBatch(env: Env, source: Folder, oracle: Oracle, tick: nat, start: nat)
    requires env.fetch == Fetching(source, oracle, tick) && start < |env.uids|
    ensures AllFaithful(source, MessagesOf(FetchAt(env, start)))
    ensures FetchAt(env, start).Fetched? ==>
              forall u :: u in Request(env, start) && u in source.msgs ==> Holds(FetchAt(env, start).msgs, u)
  {
    hide FetchReply, BatchFrom, AllFaithful, Holds;
    ReplyIsFaithful(source, Request(env, start), oracle(tick + start / BATCH_SIZE));
  }

  lemma HoldsInParts(a: seq<Message>, b: seq<Message>, u: uint32)
    requires Holds(a, u) || Holds(b, u)
    ensures Holds(a + b, u)
  {
    if Holds(a, u) {
      var i :| 0 <= i < |a| && a[i].uid == u;
      assert (a + b)[i].uid == u;
    } else {
      var i :| 0 <= i < |b| && b[i].uid == u;
      assert (a + b)[|a| + i].uid == u;
    }
  }

  /** What is not asked for in this batch is left for the later ones. */
  lemma AskedLater(env: Env, start: nat, u: uint32)
    requires start < |env.uids| && u in env.uids[start..] && u !in Request(env, start)
    ensures start + BATCH_SIZE < |env.uids| && u in env.uids[start + BATCH_SIZE..]
  {
    var end := if start + BATCH_SIZE > |env.uids| then |env.uids| else start + BATCH_SIZE;
    assert env.uids[start..] == env.uids[start..end] + env.uids[end..];
    assert u in env.uids[end..];
  }

  /** If no fetch fails, every requested UID that has a message is delivered. */
  lemma {:induction false} DeliversAll(env: Env, source: Folder, oracle: Oracle, tick: nat, start: nat, u: uint32)
    requires env.fetch == Fetching(source, oracle, tick)
    requires FetchFailed !in Upcoming(env, start)
    requires start <= |env.uids| && u in env.uids[start..] && u in source.msgs
    ensures Holds(MessagesIn(Upcoming(env, start)), u)
    decreases |env.uids| - start
  {
    var b := FetchAt(env, start);
    assert b == Upcoming(env, start)[0];
    var later := Upcoming(env, start + BATCH_SIZE);
    assert Upcoming(env, start) == [b] + later;
    assert ([b] + later)[1..] == later;
    assert MessagesIn(Upcoming(env, start)) == b.msgs + MessagesIn(later);
    FaithfulBatch(env, source, oracle, tick, start);
    hide FetchAt, Request, MessagesIn, Holds;
    if u !in Request(env, start) {
      AskedLater(env, start, u);
      DeliversAll(env, source, oracle, tick, start + BATCH_SIZE, u);
    }
    HoldsInParts(b.msgs, MessagesIn(later), u);
  }

  lemma NoDupPart(s: seq<uint32>, i: nat, j: nat)
    requires NoDup(s) && i <= j <= |s|
    ensures NoDup(s[i..j]) && |Elements(s[i..j])| == j - i
  {
    ElementsOfNoDup(s[i..j]);
  }

  lemma ReplyCount(source: Folder, uids: seq<uint32>, ans: Answer)
    requires NoDup(uids) && (forall u :: u in uids ==> u in source.msgs)
    requires BatchFrom(FetchReply(source, uids, ans)).Fetched?
    ensures |BatchFrom(FetchReply(source, uids, ans)).msgs| == |uids|
  {
    ElementsOfNoDup(uids);
    assert Elements(uids) * source.msgs.Keys == Elements(uids);
    ElementsOfNoDup(UidOrder(Elements(uids) * source.msgs.Keys, ans.uids));
  }

  /** If no fetch fails, as many messages are delivered as there were UIDs to ask for. */
  lemma {:induction false} DeliveredCount(env: Env, source: Folder, oracle: Oracle, tick: nat, start: nat)
    requires env.fetch == Fetching(source, oracle, tick)
    requires NoDup(env.uids) && forall u :: u in env.uids ==> u in source.msgs
    requires start <= |env.uids| && FetchFailed !in Upcoming(env, start)
    ensures |MessagesIn(Upcoming(env, start))| == |env.uids| - start
    decreases |env.uids| - start
  {
    if start < |env.uids| {
      var b := FetchAt(env, start);
      assert b == Upcoming(env, start)[0];
      var end := if start + BATCH_SIZE > |env.uids| then |env.uids| else start + BATCH_SIZE;
      var later := Upcoming(env, start + BATCH_SIZE);
      assert Upcoming(env, start) == [b] + later && ([b] + later)[1..] == later;
      NoDupPart(env.uids, start, end);
      ReplyCount(source, Request(env, start), oracle(tick + start / BATCH_SIZE));
      if end < |env.uids| { DeliveredCount(env, source, oracle, tick, end); }
    }
  }

  // ---------------------------------------------------------------- the steps of copyFolder

  /** How the loop of a folder copy ends: undisturbed, or by the end of the context. Then the first
      `processed` of the delivered messages have been processed and `requests` batches asked for,
      and `noted` is what the copier has in `copyErr`. */
  datatype Ending = Undisturbed | Stopped(processed: nat, requests: nat, noted: Option<Failure>)

  /** What is fixed for one folder copy beside the two accounts, the end of the context included. */
  datatype FolderJob = FolderJob(ctx: Context, source: Oracle, progress: int, now: Timestamp, ending: Ending)

  datatype FolderError =
    | NotConnected | SelectSourceFailed | EnsureFailed | SelectTargetFailed | FetchAllFailed
    | LoopFailed(failure: Failure)

  /** Both servers and everything in between. */
  datatype Sides = Sides(world: World, source: Remote)

  function Answered(r: Remote): Remote { r.(tick := r.tick + 1) }

  /** `EnsureFolder` on the target. */
  function Ensure(oracle: Oracle, r: Remote, f: string): (Remote, bool) {
    match ExistsReply(r.account, f, oracle(r.tick))
    case None => (Answered(r), false)
    case Some(true) => (Answered(r), true)
    case Some(false) =>
      var (account, ok) := Create(r.account, f, oracle(r.tick + 1));
      (Remote(account, r.tick + 2), ok)
  }

  /** How the opening steps end: the copy is over, or there are UIDs to copy. */
  datatype Opening = Over(error: Option<FolderError>) | ToCopy(uids: seq<uint32>)

  function SourceFolder(job: FolderJob, s: Sides): Folder
    requires job.ctx.folder in s.source.account.folders
  {
    s.source.account.folders[job.ctx.folder]
  }

  /** From selecting the target folder to the list of unsynced UIDs. */
  function Prepare(job: FolderJob, s: Sides, info: Info): (Sides, Opening)
    requires job.ctx.folder in s.source.account.folders
  {
    var f := job.ctx.folder;
    if info.messages == 0 then (s, Over(None))
    else
      var selected := SelectReply(s.world.target.account, f, job.ctx.target(s.world.target.tick));
      var s1 := s.(world := s.world.(target := Answered(s.world.target)));
      if selected.None? then (s1, Over(Some(SelectTargetFailed)))
      else
        var state := Apply(s.world.state, job.ctx.mailbox, Op.SetUIDValidity(f, info.uidValidity));
        var s2 := s1.(world := s1.world.(state := state));
        var listed := FetchAllReply(SourceFolder(job, s), job.source(s.source.tick));
        var s3 := s2.(source := Answered(s2.source));
        if listed.None? then (s3, Over(Some(FetchAllFailed)))
        else if listed.value == [] then (s3, Over(None))
        else
          var unsynced := Outside(Uids(listed.value), Record(job.ctx, s3.world).synced);
          if unsynced == [] then (s3.(world := CountSkipped(s3.world, |listed.value|)), Over(None))
          else (s3, ToCopy(unsynced))
  }

  function Open(job: FolderJob, s: Sides): (Sides, Opening) {
    var info := SelectReply(s.source.account, job.ctx.folder, job.source(s.source.tick));
    var s1 := s.(source := Answered(s.source));
    if info.None? then (s1, Over(Some(SelectSourceFailed)))
    else
      var (target, ok) := Ensure(job.ctx.target, s.world.target, job.ctx.folder);
      var s2 := s1.(world := s1.world.(target := target));
      if !ok then (s2, Over(Some(EnsureFailed))) else Prepare(job, s2, info.value)
  }

  function EnvOf(job: FolderJob, s: Sides, uids: seq<uint32>): Env
    requires job.ctx.folder in s.source.account.folders
  {
    Job(job.ctx, SourceFolder(job, s), job.source, s.source.tick, uids, job.progress)
  }

  /** How many of the delivered messages are processed. */
  function Reached(env: Env, ending: Ending): (n: nat)
    ensures n <= |Delivered(env)|
  {
    var all := |Delivered(env)|;
    if ending.Stopped? && ending.processed < all then ending.processed else all
  }

  function Processed(env: Env, ending: Ending): seq<Message> { Delivered(env)[..Reached(env, ending)] }

  function Requests(env: Env, ending: Ending): nat {
    if ending.Stopped? then ending.requests else |Upcoming(env, 0)|
  }

  function Noted(env: Env, ending: Ending): Option<Failure> {
    if ending.Stopped? then ending.noted else if FetchBreaks(env) then Some(FetchError) else None
  }

  /** The loop of `copyFolder`: a first part of the delivered messages, copied in sequence as every
      schedule copies them, and the time stamp that follows if no error is left. */
  function CopyLoop(job: FolderJob, s: Sides, uids: seq<uint32>): (Sides, Option<FolderError>)
    requires job.ctx.folder in s.source.account.folders
  {
    var env := EnvOf(job, s, uids);
    var (w, fails) := CopyAll(job.ctx, s.world, Processed(env, job.ending));
    var source := s.source.(tick := s.source.tick + Requests(env, job.ending));
    var failure := Verdict(Noted(env, job.ending), fails);
    if failure.Some? then (Sides(w, source), Some(LoopFailed(failure.value)))
    else (Sides(Stamp(job, w), source), None)
  }

  /** An undisturbed loop is the plain sequential one of Pipeline.dfy. */
  lemma UndisturbedIsSequential(job: FolderJob, s: Sides, uids: seq<uint32>)
    requires job.ctx.folder in s.source.account.folders && job.ending.Undisturbed?
    ensures
      var env := EnvOf(job, s, uids);
      var t := Sequential(env, Start(env, s.world), 0);
      && (t.world, t.fails) == CopyAll(job.ctx, s.world, Processed(env, job.ending))
      && t.failure == Noted(env, job.ending)
      && CopyLoop(job, s, uids).1 == (if Result(t) == None then None else Some(LoopFailed(Result(t).value)))
  {
    var env := EnvOf(job, s, uids);
    SequentialIsDelivered(env, Start(env, s.world), 0);
    ProcessIsCopyAll(env, Start(env, s.world), Delivered(env));
    assert Processed(env, job.ending) == Delivered(env);
  }

  function CopyFolder(job: FolderJob, s: Sides): (Sides, Option<FolderError>) {
    var (s1, opening) := Open(job, s);
    if opening.Over? then (s1, opening.error)
    else if job.ctx.folder !in s1.source.account.folders then (s1, Some(SelectSourceFailed))
    else CopyLoop(job, s1, opening.uids)
  }

  function Stamp(job: FolderJob, w: World): World {
    w.(state := Apply(w.state, job.ctx.mailbox, Op.UpdateLastSync(job.ctx.folder, job.now)))
  }

  /** What is to be copied: the messages not recorded as synced; all of them, if a known UIDVALIDITY changed. */
  ghost predicate IsToDo(src: Folder, was: FolderRec, u: uint32) {
    u in src.msgs && (u !in was.synced || (was.uidValidity != 0 && was.uidValidity != src.uidValidity))
  }

  /** What the opening steps come to for folder `src` with record `was`. */
  ghost predicate OpensTo(src: Folder, was: FolderRec, opening: Opening, before: Stats, after: Stats) {
    && (opening.ToCopy? ==>
          NoDup(opening.uids) && opening.uids != [] && forall u :: u in opening.uids <==> IsToDo(src, was, u))
    && (opening == Over(None) ==> forall u :: !IsToDo(src, was, u))
    && after == before.(skipped := before.skipped + if opening == Over(None) then |src.msgs| else 0)
  }

  lemma ListingOfAll(src: Folder, ans: Answer)
    requires ans.outcome.Acked?
    ensures
      var listed := FetchAllReply(src, ans);
      && listed.Some? && |listed.value| == |src.msgs| && NoDup(Uids(listed.value))
      && forall u :: u in Uids(listed.value) <==> u in src.msgs
  {
    var order := UidOrder(src.msgs.Keys, ans.uids);
    ElementsOfNoDup(order);
    assert Uids(Messages(src, order)) == order;
  }

  lemma RevalidatedRecord(job: FolderJob, c: Contents, validity: uint32)
    ensures RecOf(Apply(c, job.ctx.mailbox, Op.SetUIDValidity(job.ctx.folder, validity)), job.ctx.mailbox,
                  job.ctx.folder) == Revalidate(RecOf(c, job.ctx.mailbox, job.ctx.folder), validity)
  {
  }

  lemma UnsyncedAreToDo(src: Folder, was: FolderRec, uids: seq<uint32>)
    requires NoDup(uids) && forall u :: u in uids <==> u in src.msgs
    ensures
      var unsynced := Outside(uids, Revalidate(was, src.uidValidity).synced);
      NoDup(unsynced) && forall u :: u in unsynced <==> IsToDo(src, was, u)
  {
    var done := Revalidate(was, src.uidValidity).synced;
    OutsideKeepsNoDup(uids, done);
    forall u ensures u in Outside(uids, done) <==> u in uids && u !in done { OutsideCounts(uids, done, u); }
  }

  lemma PrepareComesTo(job: FolderJob, s: Sides)
    requires job.ctx.folder in s.source.account.folders
    ensures
      var src := SourceFolder(job, s);
      var (s1, opening) := Prepare(job, s, Info(|src.msgs|, src.uidValidity));
      && OpensTo(src, Record(job.ctx, s.world), opening, s.world.stats, s1.world.stats)
      && (opening.Over? ==> opening.error in {None, Some(SelectTargetFailed), Some(FetchAllFailed)})
      && (opening == Over(Some(SelectTargetFailed)) ==>
            !(job.ctx.target(s.world.target.tick).outcome.Acked? && CanSelect(s.world.target.account, job.ctx.folder)))
      && (opening == Over(Some(FetchAllFailed)) ==> !job.source(s.source.tick).outcome.Acked?)
  {
    hide Apply, RecOf, Outside, FetchAllReply, Revalidate, IsToDo, NoDup;
    var src, was := SourceFolder(job, s), Record(job.ctx, s.world);
    var ans := job.source(s.source.tick);
    if |src.msgs| == 0 {
      EmptyHasNothingToDo(src, was);
    } else if ans.outcome.Acked? {
      ListingOfAll(src, ans);
      RevalidatedRecord(job, s.world.state, src.uidValidity);
      var listed := FetchAllReply(src, ans).value;
      var unsynced := Outside(Uids(listed), Revalidate(was, src.uidValidity).synced);
      UnsyncedAreToDo(src, was, Uids(listed));
      NothingToDo(src, was, unsynced);
      assert Prepare(job, s, Info(|src.msgs|, src.uidValidity)).1.Over?
          || Prepare(job, s, Info(|src.msgs|, src.uidValidity)).1 == ToCopy(unsynced);
    } else {
      NoReply(src, ans);
    }
  }

  lemma EmptyHasNothingToDo(src: Folder, was: FolderRec)
    requires |src.msgs| == 0
    ensures forall u :: !IsToDo(src, was, u)
  {
    assert src.msgs.Keys == {};
  }

  lemma NoReply(src: Folder, ans: Answer)
    requires !ans.outcome.Acked?
    ensures FetchAllReply(src, ans).None?
  {
  }

  lemma NothingToDo(src: Folder, was: FolderRec, unsynced: seq<uint32>)
    requires forall u :: u in unsynced <==> IsToDo(src, was, u)
    ensures unsynced == [] <==> forall u :: !IsToDo(src, was, u)
  {
    if unsynced == [] {
    } else {
      assert unsynced[0] in unsynced;
    }
  }

  /** The opening steps list for copying exactly what is to be copied. If that is nothing, all
      messages of the folder count as skipped; else no counter moves. */
  lemma OpenComesTo(job: FolderJob, s: Sides)
    ensures
      var (s1, opening) := Open(job, s);
      var f, answer := job.ctx.folder, job.source(s.source.tick);
      && (opening == Over(Some(SelectSourceFailed)) <==> !(answer.outcome.Acked? && CanSelect(s.source.account, f)))
      && (opening.Over? && opening.error.Some? ==> s1.world.stats == s.world.stats)
      && (opening != Over(Some(SelectSourceFailed)) && opening != Over(Some(EnsureFailed)) ==>
            OpensTo(s.source.account.folders[f], Record(job.ctx, s.world), opening, s.world.stats, s1.world.stats))
      && (opening == Over(Some(FetchAllFailed)) ==> !job.source(s.source.tick + 1).outcome.Acked?)
  {
    var info := SelectReply(s.source.account, job.ctx.folder, job.source(s.source.tick));
    if info.Some? {
      var (target, ok) := Ensure(job.ctx.target, s.world.target, job.ctx.folder);
      hide Ensure, Prepare, IsToDo;
      if ok { PrepareComesTo(job, Sides(s.world.(target := target), Answered(s.source))); }
    }
  }

  lemma PrepareKeepsStamps(job: FolderJob, s: Sides, info: Info)
    requires job.ctx.folder in s.source.account.folders
    ensures
      var w' := Prepare(job, s, info).0.world;
      && SyncsOf(w'.state, job.ctx.mailbox) == SyncsOf(s.world.state, job.ctx.mailbox)
      && LastSyncOf(w'.state, job.ctx.mailbox) == LastSyncOf(s.world.state, job.ctx.mailbox)
  {
    CopyingKeepsStamps(s.world.state, job.ctx.mailbox, Op.SetUIDValidity(job.ctx.folder, info.uidValidity));
    hide Apply, SyncsOf, LastSyncOf, FetchAllReply, Outside;
  }

  /** The opening steps stamp nothing. */
  lemma OpenKeepsStamps(job: FolderJob, s: Sides)
    ensures
      var w' := Open(job, s).0.world;
      && SyncsOf(w'.state, job.ctx.mailbox) == SyncsOf(s.world.state, job.ctx.mailbox)
      && LastSyncOf(w'.state, job.ctx.mailbox) == LastSyncOf(s.world.state, job.ctx.mailbox)
  {
    hide SyncsOf, LastSyncOf, Ensure, Prepare;
    var info := SelectReply(s.source.account, job.ctx.folder, job.source(s.source.tick));
    if info.Some? {
      var target := Ensure(job.ctx.target, s.world.target, job.ctx.folder).0;
      PrepareKeepsStamps(job, Sides(s.world.(target := target), Answered(s.source)), info.value);
    }
  }

  // ---------------------------------------------------------------- what a copy achieves

  /** The records can be continued: they agree with the target and belong to this epoch of the
      source folder, or to none yet. */
  ghost predicate Ready(job: FolderJob, src: Folder, t0: Folder, w: World) {
    && Agrees(job.ctx, src, t0, w) && Settled(Record(job.ctx, w))
    && Record(job.ctx, w).uidValidity in {0, src.uidValidity}
  }

  /** Every live source message has exactly one linked image on the target. */
  ghost predicate Complete(job: FolderJob, src: Folder, t0: Folder, w: World) {
    && Agrees(job.ctx, src, t0, w)
    && Record(job.ctx, w).synced == Record(job.ctx, w).uidMap.Keys == Live(src)
  }

  ghost predicate Clean(job: FolderJob, t0: Folder, w: World) {
    CanSelect(w.target.account, job.ctx.folder) && Exact(t0, Record(job.ctx, w), Target(job.ctx, w))
  }

  lemma EnsureOfExisting(oracle: Oracle, r: Remote, f: string)
    requires CanSelect(r.account, f) && r.account.delim != '%'
    ensures Ensure(oracle, r, f).0.account == r.account
  {
    NameMatchesItself(f, r.account.delim);
  }

  /** The opening steps led from `s` to `s1` as they should: neither server changed, the
      records are as ready as before, and nothing is left to do if the copy ends here. */
  ghost predicate Opened(job: FolderJob, src: Folder, t0: Folder, s: Sides, s1: Sides, opening: Opening) {
    var r, r1 := Record(job.ctx, s.world), Record(job.ctx, s1.world);
    && s1.source.account == s.source.account && s1.world.target.account == s.world.target.account
    && Ready(job, src, t0, s1.world)
    && r1.synced == r.synced && r1.uidMap == r.uidMap
    && (opening == Over(None) ==> Live(src) <= r1.synced)
    && (opening.ToCopy? ==>
          && r1.uidValidity == src.uidValidity
          && forall u :: u in opening.uids <==> u in src.msgs && u !in r1.synced)
  }

  lemma PrepareKeepsReady(job: FolderJob, s: Sides, t0: Folder, info: Info)
    requires job.ctx.folder in s.source.account.folders && ValidFolder(SourceFolder(job, s))
    requires info == Info(|SourceFolder(job, s).msgs|, SourceFolder(job, s).uidValidity)
    requires Ready(job, SourceFolder(job, s), t0, s.world)
    ensures Opened(job, SourceFolder(job, s), t0, s, Prepare(job, s, info).0, Prepare(job, s, info).1)
  {
    hide FetchAllReply, Tied, Apply, RecOf, Live, Settled, Outside, ValidFolder;
    var src := SourceFolder(job, s);
    RevalidateKeeps(job, src, t0, s.world);
    UnsyncedListing(src, job.source(s.source.tick), Record(job.ctx, s.world).synced);
  }

  lemma OpenKeepsReady(job: FolderJob, s: Sides, t0: Folder)
    requires CanSelect(s.source.account, job.ctx.folder) && ValidFolder(SourceFolder(job, s))
    requires s.world.target.account.delim != '%'
    requires Ready(job, SourceFolder(job, s), t0, s.world)
    ensures Opened(job, SourceFolder(job, s), t0, s, Open(job, s).0, Open(job, s).1)
  {
    hide Ensure, Prepare, Tied, RecOf, Live, Settled, ValidFolder;
    var f := job.ctx.folder;
    EnsureOfExisting(job.ctx.target, s.world.target, f);
    var target := Ensure(job.ctx.target, s.world.target, f).0;
    var s2 := Sides(s.world.(target := target), Answered(s.source));
    PrepareKeepsReady(job, s2, t0, Info(|SourceFolder(job, s).msgs|, SourceFolder(job, s).uidValidity));
  }

  /** What is left to copy according to a listing of the source. */
  lemma UnsyncedListing(src: Folder, ans: Answer, synced: set<uint32>)
    ensures
      var listed := FetchAllReply(src, ans);
      && (listed.Some? ==> forall u :: u in Outside(Uids(listed.value), synced) <==> u in src.msgs && u !in synced)
      && (listed.Some? && Outside(Uids(listed.value), synced) == [] ==> Live(src) <= synced)
      && (listed == Some([]) ==> Live(src) == {})
      && (|src.msgs| == 0 ==> Live(src) == {})
  {
    if ans.outcome.Acked? {
      var order := UidOrder(src.msgs.Keys, ans.uids);
      assert Uids(Messages(src, order)) == order;
      var left := Outside(order, synced);
      forall u: uint32 ensures u in left <==> u in src.msgs && u !in synced {
        OutsideCounts(order, synced, u);
      }
      if left == [] {
        forall u | u in Live(src) ensures u in synced { assert u in left <==> u in src.msgs && u !in synced; }
      }
      assert order == [] ==> forall u :: u in src.msgs ==> u in order;
    }
  }

  lemma RevalidateKeeps(job: FolderJob, src: Folder, t0: Folder, w: World)
    requires Ready(job, src, t0, w)
    ensures
      var w' := w.(state := Apply(w.state, job.ctx.mailbox, Op.SetUIDValidity(job.ctx.folder, src.uidValidity)));
      && Ready(job, src, t0, w')
      && Record(job.ctx, w').synced == Record(job.ctx, w).synced
      && Record(job.ctx, w').uidMap == Record(job.ctx, w).uidMap
      && Record(job.ctx, w').uidValidity == src.uidValidity
  {
  }

  lemma StampKeeps(job: FolderJob, src: Folder, t0: Folder, w: World)
    requires Ready(job, src, t0, w)
    ensures Ready(job, src, t0, Stamp(job, w))
    ensures Stamp(job, w).target == w.target
    ensures Record(job.ctx, Stamp(job, w)) == Record(job.ctx, w).(lastSync := job.now)
  {
  }

  lemma FaithfulPrefix(src: Folder, msgs: seq<Message>, n: nat)
    requires AllFaithful(src, msgs) && n <= |msgs|
    ensures AllFaithful(src, msgs[..n])
  {
  }

  /** Any part of a run, wherever fault or cancellation stops it, leaves the records ready. */
  lemma PartOfRunIsReady(job: FolderJob, src: Folder, t0: Folder, env: Env, tick: nat, w: World, n: nat)
    requires env.ctx == job.ctx && env.fetch == Fetching(src, job.source, tick)
    requires Ready(job, src, t0, w) && n <= |Delivered(env)|
    ensures var w' := CopyAll(job.ctx, w, Delivered(env)[..n]).0;
            && Ready(job, src, t0, w')
            && Record(job.ctx, w).synced <= Record(job.ctx, w').synced
            && (NoLostReplies(job.ctx.target) && Clean(job, t0, w) ==> Clean(job, t0, w'))
  {
    DeliversSource(env, src, job.source, tick, 0);
    FaithfulPrefix(src, Delivered(env), n);
    hide Tied, Delivered, Record, AllFaithful, Live;
    RunKeepsAgreement(job.ctx, src, t0, w, Delivered(env)[..n]);
    if NoLostReplies(job.ctx.target) && Clean(job, t0, w) {
      RunKeepsExact(job.ctx, src, t0, w, Delivered(env)[..n]);
    }
  }

  /** A run over all that was unsynced, without any failure, leaves nothing unsynced. */
  lemma WholeRunCompletes(job: FolderJob, src: Folder, t0: Folder, env: Env, tick: nat, w: World)
    requires env.ctx == job.ctx && env.fetch == Fetching(src, job.source, tick)
    requires Ready(job, src, t0, w) && !FetchBreaks(env) && CopyAll(job.ctx, w, Delivered(env)).1 == 0
    requires forall u :: u in src.msgs && u !in Record(job.ctx, w).synced ==> u in env.uids
    ensures Complete(job, src, t0, CopyAll(job.ctx, w, Delivered(env)).0)
  {
    var d := Delivered(env);
    var w' := CopyAll(job.ctx, w, d).0;
    DeliversSource(env, src, job.source, tick, 0);
    RunKeepsAgreement(job.ctx, src, t0, w, d);
    forall u | u in Live(src) ensures u in Record(job.ctx, w').synced {
      if u !in Record(job.ctx, w).synced {
        assert u in env.uids[0..];
        DeliversAll(env, src, job.source, tick, 0, u);
        var i :| 0 <= i < |d| && d[i].uid == u;
      }
    }
    assert Record(job.ctx, w').synced == Live(src);
  }

  lemma AllSyncedIsComplete(job: FolderJob, src: Folder, t0: Folder, w: World)
    requires Ready(job, src, t0, w) && Live(src) <= Record(job.ctx, w).synced
    ensures Complete(job, src, t0, w)
  {
    assert Record(job.ctx, w).synced == Live(src);
  }

  /** Wherever fault or cancellation stops the loop, the records stay ready. */
  lemma LoopKeepsReady(job: FolderJob, s: Sides, t0: Folder, uids: seq<uint32>)
    requires job.ctx.folder in s.source.account.folders
    requires Ready(job, SourceFolder(job, s), t0, s.world)
    ensures
      var (s', err) := CopyLoop(job, s, uids);
      && s'.source.account == s.source.account
      && Ready(job, SourceFolder(job, s), t0, s'.world)
      && Record(job.ctx, s.world).synced <= Record(job.ctx, s'.world).synced
      && (NoLostReplies(job.ctx.target) && Clean(job, t0, s.world) ==> Clean(job, t0, s'.world))
  {
    var src := SourceFolder(job, s);
    var env := EnvOf(job, s, uids);
    hide Delivered, Upcoming, Tied, Live, Apply, RecOf, CopyAll, FetchBreaks, Stamp;
    PartOfRunIsReady(job, src, t0, env, s.source.tick, s.world, Reached(env, job.ending));
    StampKeeps(job, src, t0, CopyAll(job.ctx, s.world, Processed(env, job.ending)).0);
  }

  lemma LoopOutcome(job: FolderJob, s: Sides, t0: Folder, uids: seq<uint32>)
    requires job.ctx.folder in s.source.account.folders
    requires Ready(job, SourceFolder(job, s), t0, s.world)
    requires forall u :: u in SourceFolder(job, s).msgs && u !in Record(job.ctx, s.world).synced ==> u in uids
    ensures
      var (s', err) := CopyLoop(job, s, uids);
      && s'.source.account == s.source.account
      && Ready(job, SourceFolder(job, s), t0, s'.world)
      && Record(job.ctx, s.world).synced <= Record(job.ctx, s'.world).synced
      && (err == None && job.ending.Undisturbed? ==> Complete(job, SourceFolder(job, s), t0, s'.world))
      && (NoLostReplies(job.ctx.target) && Clean(job, t0, s.world) ==> Clean(job, t0, s'.world))
  {
    var src := SourceFolder(job, s);
    var env := EnvOf(job, s, uids);
    var (w', fails) := CopyAll(job.ctx, s.world, Processed(env, job.ending));
    var whole := job.ending.Undisturbed? && Verdict(Noted(env, job.ending), fails) == None;
    assert whole ==> !FetchBreaks(env) && fails == 0 && Processed(env, job.ending) == Delivered(env);
    LoopKeepsReady(job, s, t0, uids);
    hide Delivered, Upcoming, Tied, Live, Apply, RecOf, CopyAll, FetchBreaks, Stamp;
    if whole {
      PartOfRunIsReady(job, src, t0, env, s.source.tick, s.world, Reached(env, job.ending));
      StampKeeps(job, src, t0, w');
      WholeRunCompletes(job, src, t0, env, s.source.tick, s.world);
      AllSyncedIsComplete(job, src, t0, Stamp(job, w'));
    }
  }

  /** However the copy of a folder ends, by success, fault or cancellation, the records stay ready
      to be continued; and if it returns nil undisturbed, the folder is complete. */
  lemma CopyFolderOutcome(job: FolderJob, s: Sides, t0: Folder)
    requires CanSelect(s.source.account, job.ctx.folder) && ValidFolder(SourceFolder(job, s))
    requires s.world.target.account.delim != '%'
    requires Ready(job, SourceFolder(job, s), t0, s.world)
    ensures
      var (s', err) := CopyFolder(job, s);
      && s'.source.account == s.source.account
      && Ready(job, SourceFolder(job, s), t0, s'.world)
      && Record(job.ctx, s.world).synced <= Record(job.ctx, s'.world).synced
      && (err == None && job.ending.Undisturbed? ==> Complete(job, SourceFolder(job, s), t0, s'.world))
      && (NoLostReplies(job.ctx.target) && Clean(job, t0, s.world) ==> Clean(job, t0, s'.world))
  {
    hide Open, Tied, Live, RecOf, ValidFolder, CopyLoop;
    var (s1, opening) := Open(job, s);
    OpenKeepsReady(job, s, t0);
    if opening == Over(None) {
      AllSyncedIsComplete(job, SourceFolder(job, s), t0, s1.world);
    } else if opening.ToCopy? {
      LoopOutcome(job, s1, t0, opening.uids);
    }
  }

  // ---------------------------------------------------------------- interrupt and resume

  /** How a folder copy may end, the context ending at any moment of its pipeline or not at all. */
  ghost predicate MayEnd(job: FolderJob, s: Sides, s': Sides, err: Option<FolderError>) {
    exists ending: Ending :: (s', err) == CopyFolder(job.(ending := ending), s)
  }

  // ---------------------------------------------------------------- what a nil result means

  /** The copy returns nil and leaves `w` behind: there is nothing to copy, or the pipeline ends its
      run with no error left. */
  ghost predicate ReturnsNil(job: FolderJob, s: Sides, states: seq<State>, actors: seq<Actor>, w: World) {
    var (s1, opening) := Open(job, s);
    if opening.Over? then opening.error == None && w == s1.world
    else
      && job.ctx.folder in s1.source.account.folders
      && IsRun(EnvOf(job, s1, opening.uids), s1.world, states, actors)
      && var last := states[|states| - 1];
      && last.copier.Finished? && Result(last.tally) == None && w == Stamp(job, last.tally.world)
  }

  ghost predicate Disturbed(states: seq<State>) { states != [] && states[|states| - 1].cancelled }

  ghost predicate SameFolder(job: FolderJob, other: FolderJob) {
    job.ctx.mailbox == other.ctx.mailbox && job.ctx.folder == other.ctx.folder
  }

  /** Every copy of this folder from here that returns nil leaves it complete, whatever the servers
      answer and in whatever order the two processes move. */
  ghost predicate NilIsComplete(job: FolderJob, s: Sides, t0: Folder, cancellable: bool)
    requires job.ctx.folder in s.source.account.folders
  {
    forall other: FolderJob, states: seq<State>, actors: seq<Actor>, w: World ::
      SameFolder(job, other) && ReturnsNil(other, s, states, actors, w) && (Disturbed(states) ==> cancellable) ==>
        Complete(other, SourceFolder(job, s), t0, w)
  }

  lemma NilLeavesComplete(job: FolderJob, s: Sides, t0: Folder, states: seq<State>, actors: seq<Actor>, w: World)
    requires CanSelect(s.source.account, job.ctx.folder) && ValidFolder(SourceFolder(job, s))
    requires s.world.target.account.delim != '%' && Ready(job, SourceFolder(job, s), t0, s.world)
    requires ReturnsNil(job, s, states, actors, w)
    requires !Disturbed(states) || Live(SourceFolder(job, s)) <= Record(job.ctx, s.world).synced
    ensures Complete(job, SourceFolder(job, s), t0, w)
  {
    var (s1, opening) := Open(job, s);
    var src := SourceFolder(job, s);
    OpenKeepsReady(job, s, t0);
    if opening.Over? {
      AllSyncedIsComplete(job, src, t0, s1.world);
    } else {
      var env := EnvOf(job, s1, opening.uids);
      var last := states[|states| - 1];
      CopiesAPrefix(env, s1.world, states, actors, |states| - 1);
      if !last.cancelled {
        RefinesSequential(env, s1.world, states, actors);
        UndisturbedIsSequential(job.(ending := Undisturbed), s1, opening.uids);
      }
      hide Open, Tied, Live, RecOf, ValidFolder, IsRun, Delivered, Sequential, CopyAll, Upcoming, Stamp, Apply;
      PartOfRunIsReady(job, src, t0, env, s1.source.tick, s1.world, last.tally.done);
      StampKeeps(job, src, t0, last.tally.world);
      if !last.cancelled {
        LoopOutcome(job.(ending := Undisturbed), s1, t0, opening.uids);
      } else {
        AllSyncedIsComplete(job, src, t0, w);
      }
    }
  }

  const ACKED := Answer(Acked, 0, 0, 1, [], [], [], true)

  /** With acknowledging servers the opening steps end without error. */
  lemma OpensAcknowledged(job: FolderJob, s: Sides)
    requires CanSelect(s.source.account, job.ctx.folder) && CanSelect(s.world.target.account, job.ctx.folder)
    requires s.world.target.account.delim != '%'
    requires (forall k :: job.source(k).outcome.Acked?) && forall k :: job.ctx.target(k).outcome.Acked?
    ensures Open(job, s).1.Over? ==> Open(job, s).1.error == None
  {
    NameMatchesItself(job.ctx.folder, s.world.target.account.delim);
    hide Apply, RecOf, Outside, Messages;
  }

  lemma OpenIgnoresEnding(job: FolderJob, ending: Ending, s: Sides)
    ensures Open(job.(ending := ending), s) == Open(job, s)
  {
    hide Ensure, SelectReply, FetchAllReply, Outside, Apply, Record;
  }

  /** A stop before the first message, without an error. */
  lemma StoppedAtOnce(job: FolderJob, s: Sides, uids: seq<uint32>)
    requires job.ctx.folder in s.source.account.folders && job.ending == Stopped(0, 0, None)
    ensures CopyLoop(job, s, uids) == (Sides(Stamp(job, s.world), s.source), None)
  {
    hide Delivered, Stamp;
    assert Processed(EnvOf(job, s, uids), job.ending) == [];
  }

  /** Such a copy with something left to do has a run that the context ends at once: it returns nil,
      as one of its possible ends, and the folder is not complete. */
  lemma NilLeavesIncomplete(job: FolderJob, s: Sides, t0: Folder)
    returns (states: seq<State>, actors: seq<Actor>, w: World)
    requires CanSelect(s.source.account, job.ctx.folder) && ValidFolder(SourceFolder(job, s))
    requires s.world.target.account.delim != '%' && Ready(job, SourceFolder(job, s), t0, s.world)
    requires (forall k :: job.source(k).outcome.Acked?) && forall k :: job.ctx.target(k).outcome.Acked?
    requires !(Live(SourceFolder(job, s)) <= Record(job.ctx, s.world).synced)
    ensures ReturnsNil(job, s, states, actors, w) && !Complete(job, SourceFolder(job, s), t0, w)
    ensures MayEnd(job, s, Sides(w, Open(job, s).0.source), None) && w.target.account == s.world.target.account
  {
    OpensAcknowledged(job, s);
    OpenKeepsReady(job, s, t0);
    hide Open, Tied, Live, RecOf, ValidFolder, Apply, CopyLoop;
    var (s1, opening) := Open(job, s);
    var src := SourceFolder(job, s);
    states, actors := NilDespiteMissing(EnvOf(job, s1, opening.uids), s1.world);
    w := Stamp(job, s1.world);
    StampKeeps(job, src, t0, s1.world);
    var stopped := job.(ending := Stopped(0, 0, None));
    OpenIgnoresEnding(job, stopped.ending, s);
    StoppedAtOnce(stopped, s1, opening.uids);
    assert CopyFolder(stopped, s) == (Sides(w, s1.source), None) by { hide Stamp; }
    hide Stamp, CopyFolder, IsRun, Result;
  }

  /** A source INBOX with one message, an empty target INBOX, servers that acknowledge everything. */
  lemma OneToCopy() returns (job: FolderJob, s: Sides)
    ensures job.ctx.folder == INBOX && CanSelect(s.source.account, INBOX) && CanSelect(s.world.target.account, INBOX)
    ensures SourceFolder(job, s) == Folder([], 1, 2, map[1 := Stored([], 1, [])])
    ensures Target(job.ctx, s.world) == Folder([], 1, 1, map[])
    ensures Record(job.ctx, s.world) == SyncState.NewFolder(INBOX) && s.world.target.account.delim == '/'
    ensures (forall k :: job.source(k) == ACKED) && forall k :: job.ctx.target(k) == ACKED
  {
    var src, t0 := Folder([], 1, 2, map[1 := Stored([], 1, [])]), Folder([], 1, 1, map[]);
    job := FolderJob(Context("", INBOX, (_: nat) => ACKED, None), (_: nat) => ACKED, 0, 0, Undisturbed);
    s := Sides(World(map[], Remote(Account('/', map[INBOX := t0]), 0), Stats(0, 0, 0, 0), 0),
               Remote(Account('/', map[INBOX := src]), 0));
  }

  /** A copy that may return nil with its one message left behind. */
  lemma NilWithoutTheMessage() returns (job: FolderJob, s: Sides, s': Sides)
    ensures CanSelect(s.source.account, INBOX) && Live(s.source.account.folders[INBOX]) == {1}
    ensures MayEnd(job, s, s', None)
    ensures CanSelect(s'.world.target.account, INBOX) && s'.world.target.account.folders[INBOX].msgs == map[]
  {
    job, s := OneToCopy();
    hide Open, CopyFolder, Record;
    var t0 := Folder([], 1, 1, map[]);
    assert 1 in SourceFolder(job, s).msgs && 1 in Live(SourceFolder(job, s));
    assert Ready(job, SourceFolder(job, s), t0, s.world);
    var states, actors, w := NilLeavesIncomplete(job, s, t0);
    s' := Sides(w, Open(job, s).0.source);
    hide MayEnd, Ready, ReturnsNil, Complete;
    assert w.target.account.folders[INBOX] == t0;
  }

  /** Exactly when nil means complete: when the context cannot end, or everything is synced already. */
  lemma NilMeansCompleteExactly(job: FolderJob, s: Sides, t0: Folder, cancellable: bool)
    requires CanSelect(s.source.account, job.ctx.folder) && ValidFolder(SourceFolder(job, s))
    requires s.world.target.account.delim != '%' && Ready(job, SourceFolder(job, s), t0, s.world)
    ensures NilIsComplete(job, s, t0, cancellable) <==>
            !cancellable || Live(SourceFolder(job, s)) <= Record(job.ctx, s.world).synced
  {
    hide Tied, Live, RecOf, ValidFolder, ReturnsNil, Complete, Settled;
    if !cancellable || Live(SourceFolder(job, s)) <= Record(job.ctx, s.world).synced {
      forall other: FolderJob, states, actors, w
        | SameFolder(job, other) && ReturnsNil(other, s, states, actors, w) && (Disturbed(states) ==> cancellable)
        ensures Complete(other, SourceFolder(job, s), t0, w)
      {
        NilLeavesComplete(other, s, t0, states, actors, w);
      }
    } else {
      var other := job.(ctx := job.ctx.(target := (_: nat) => ACKED), source := (_: nat) => ACKED);
      var states, actors, w := NilLeavesIncomplete(other, s, t0);
    }
  }

  /** The target content of every linked source UID. */
  function Images(job: FolderJob, w: World): map<uint32, Stored>
    requires CanSelect(w.target.account, job.ctx.folder)
  {
    var links, msgs := Record(job.ctx, w).uidMap, Target(job.ctx, w).msgs;
    map s | s in links && links[s] in msgs :: msgs[links[s]]
  }

  /** What the images of a source folder have to be. */
  function Expected(src: Folder): map<uint32, Stored> {
    map s | s in Live(src) :: Stored(Settable(src.msgs[s].flags), src.msgs[s].date, src.msgs[s].body)
  }

  /** Every message has an internal date (section 2.3.3 of RFC 3501). */
  ghost predicate Dated(src: Folder) {
    forall u :: u in src.msgs ==> src.msgs[u].date != 0
  }

  /** A complete folder holds exactly the expected images. */
  lemma CompleteMeansExpected(job: FolderJob, src: Folder, t0: Folder, w: World)
    requires Complete(job, src, t0, w) && Dated(src)
    ensures Images(job, w) == Expected(src)
  {
    var r, t := Record(job.ctx, w), Target(job.ctx, w);
    assert Tied(src, t0, r, t) && r.uidMap.Keys == Live(src);
    assert Expected(src).Keys == Live(src) && Images(job, w).Keys == r.uidMap.Keys;
    hide Record, Live, Complete, Agrees;
    forall s | s in r.uidMap ensures t.msgs[r.uidMap[s]] == Expected(src)[s] {
      assert IsImage(t.msgs[r.uidMap[s]], src.msgs[s]);
    }
  }

  /** If no reply was lost, nothing is on the target beside the images and the earlier messages. */
  lemma CompleteAndCleanCount(job: FolderJob, src: Folder, t0: Folder, w: World)
    requires Complete(job, src, t0, w) && Clean(job, t0, w)
    ensures |Target(job.ctx, w).msgs| == |t0.msgs| + |Live(src)|
  {
    var r, t := Record(job.ctx, w), Target(job.ctx, w);
    ValuesOfInjection(r.uidMap);
    assert t0.msgs.Keys !! r.uidMap.Values;
    assert |t.msgs.Keys| == |t0.msgs.Keys| + |r.uidMap.Values|;
  }

  lemma {:induction false} ValuesOfInjection(m: map<uint32, uint32>)
    requires Injective(m)
    ensures |m.Values| == |m.Keys|
    decreases |m|
  {
    if m.Keys == {} {
      assert m.Values == {};
    } else {
      var k := Inhabitant(m.Keys);
      var rest := m - {k};
      ValuesOfInjection(rest);
      assert m.Keys == rest.Keys + {k};
      assert m.Values == rest.Values + {m[k]} by {
        forall v | v in m.Values ensures v in rest.Values + {m[k]} {
          var a :| a in m && m[a] == v;
          if a != k { assert a in rest && rest[a] == v; }
        }
      }
      assert m[k] !in rest.Values;
    }
  }

  /** Stopping the pipeline in any state of any schedule and copying the folder again to success
      ends with the same images as one uninterrupted successful copy. The later copy may meet
      other server answers; the records and the epoch of the source are the same. Unless a reply
      was lost on the way, there is nothing else on the target either, so nothing is there twice. */
  lemma InterruptAndResume(job: FolderJob, s: Sides, t0: Folder, states: seq<State>, actors: seq<Actor>, i: nat,
                           again: FolderJob, tick: nat, uninterrupted: FolderJob)
    requires CanSelect(s.source.account, job.ctx.folder)
    requires ValidFolder(SourceFolder(job, s)) && Dated(SourceFolder(job, s))
    requires s.world.target.account.delim != '%' && Ready(job, SourceFolder(job, s), t0, s.world)
    requires Open(job, s).1.ToCopy? && job.ctx.folder in Open(job, s).0.source.account.folders
    requires IsRun(EnvOf(job, Open(job, s).0, Open(job, s).1.uids), Open(job, s).0.world, states, actors)
      && i < |states|
    requires again.ctx.mailbox == uninterrupted.ctx.mailbox == job.ctx.mailbox
    requires again.ctx.folder == uninterrupted.ctx.folder == job.ctx.folder
    requires again.ending == uninterrupted.ending == Undisturbed
    requires CopyFolder(again, Sides(states[i].tally.world, Remote(s.source.account, tick))).1 == None
    requires CopyFolder(uninterrupted, s).1 == None
    ensures
      var resumed := CopyFolder(again, Sides(states[i].tally.world, Remote(s.source.account, tick))).0.world;
      var straight := CopyFolder(uninterrupted, s).0.world;
      && Complete(again, SourceFolder(job, s), t0, resumed)
      && Complete(uninterrupted, SourceFolder(job, s), t0, straight)
      && Images(again, resumed) == Images(uninterrupted, straight) == Expected(SourceFolder(job, s))
      && (Clean(job, t0, s.world) && NoLostReplies(uninterrupted.ctx.target) ==> Clean(uninterrupted, t0, straight))
      && (Clean(job, t0, s.world) && NoLostReplies(job.ctx.target) && NoLostReplies(again.ctx.target) ==>
            Clean(again, t0, resumed))
  {
    hide Open, CopyFolder, Tied, Live, RecOf, ValidFolder, IsRun, Delivered, Exact, NoLostReplies;
    var src := SourceFolder(job, s);
    var (s1, opening) := Open(job, s);
    OpenKeepsReady(job, s, t0);
    var env := EnvOf(job, s1, opening.uids);
    var w := states[i].tally.world;
    CopiesAPrefix(env, s1.world, states, actors, i);
    PartOfRunIsReady(job, src, t0, env, s1.source.tick, s1.world, states[i].tally.done);
    ReadyKeepsDelim(job, src, t0, s1.world, Delivered(env)[..states[i].tally.done]);
    CleanIsOfTarget(job, t0, s.world, s1.world);
    var s' := Sides(w, Remote(s.source.account, tick));
    CopyFolderOutcome(again, s', t0);
    CopyFolderOutcome(uninterrupted, s, t0);
    hide Complete, Clean, Images, Expected;
    CompleteMeansExpected(again, src, t0, CopyFolder(again, s').0.world);
    CompleteMeansExpected(uninterrupted, src, t0, CopyFolder(uninterrupted, s).0.world);
  }

  /** Whether a target is clean depends on its account and on the links only. */
  lemma CleanIsOfTarget(job: FolderJob, t0: Folder, w: World, w': World)
    requires w'.target.account == w.target.account && Record(job.ctx, w').uidMap == Record(job.ctx, w).uidMap
    ensures Clean(job, t0, w) <==> Clean(job, t0, w')
  {
  }

  lemma {:induction false} ReadyKeepsDelim(job: FolderJob, src: Folder, t0: Folder, w: World, msgs: seq<Message>)
    ensures CopyAll(job.ctx, w, msgs).0.target.account.delim == w.target.account.delim
    decreases msgs
  {
    if msgs == [] {
    } else {
      ReadyKeepsDelim(job, src, t0, CopyMessage(job.ctx, w, msgs[0]).0, msgs[1..]);
    }
  }

  /** A message acknowledged in a first run is never acknowledged again in a later one. */
  lemma AcknowledgedOnceOverRuns(ctx: Context, w: World, first: seq<Message>, w2: World, second: seq<Message>)
    requires CanSelect(w.target.account, ctx.folder) && ValidFolder(Target(ctx, w))
    requires CanSelect(w2.target.account, ctx.folder) && ValidFolder(Target(ctx, w2))
    requires Record(ctx, CopyAll(ctx, w, first).0).synced <= Record(ctx, w2).synced
    ensures NoDup(Uids(Acknowledged(ctx, w, first)) + Uids(Acknowledged(ctx, w2, second)))
  {
    CopyAllSyncs(ctx, w, first);
    AcknowledgedOnce(ctx, w, first);
    AcknowledgedOnce(ctx, w2, second);
    hide Record, Acknowledged, CopyAll, ValidFolder;
    var a, b := Uids(Acknowledged(ctx, w, first)), Uids(Acknowledged(ctx, w2, second));
    forall i, j | 0 <= i < |a| && 0 <= j < |b| ensures a[i] != b[j] {
      assert a[i] in Elements(a) && b[j] in b;
    }
  }

  lemma {:induction false} NothingAttempted(ctx: Context, src: Folder, w: World, msgs: seq<Message>)
    requires AllFaithful(src, msgs) && Live(src) <= Record(ctx, w).synced && 0 !in src.msgs
    ensures CopyAll(ctx, w, msgs) == (CountSkipped(w, |msgs|), 0)
    decreases msgs
  {
    if msgs == [] {
    } else {
      LiveFlags(src, msgs[0]);
      assert Faithful(src, msgs[0]);
      NothingAttempted(ctx, src, CountSkipped(w, 1), msgs[1..]);
    }
  }

  /** Once a folder is complete, copying it again appends nothing and records nothing new,
      whatever the servers answer. */
  lemma FurtherRunAppendsNothing(job: FolderJob, s: Sides, t0: Folder)
    requires CanSelect(s.source.account, job.ctx.folder) && ValidFolder(SourceFolder(job, s))
    requires s.world.target.account.delim != '%'
    requires Ready(job, SourceFolder(job, s), t0, s.world) && Complete(job, SourceFolder(job, s), t0, s.world)
    ensures
      var s' := CopyFolder(job, s).0;
      && s'.world.target.account == s.world.target.account
      && Record(job.ctx, s'.world).synced == Record(job.ctx, s.world).synced
      && Record(job.ctx, s'.world).uidMap == Record(job.ctx, s.world).uidMap
  {
    var (s1, opening) := Open(job, s);
    var src := SourceFolder(job, s);
    assert 0 !in src.msgs;
    OpenKeepsReady(job, s, t0);
    hide Open, Tied, Live, RecOf, ValidFolder, Apply, Settled, Upcoming;
    if opening.ToCopy? {
      var env := EnvOf(job, s1, opening.uids);
      var msgs := Processed(env, job.ending);
      DeliversSource(env, src, job.source, s1.source.tick, 0);
      FaithfulPrefix(src, Delivered(env), Reached(env, job.ending));
      NothingAttempted(job.ctx, src, s1.world, msgs);
      StampKeeps(job, src, t0, CountSkipped(s1.world, |msgs|));
      hide CopyAll, Stamp, Ready, Complete;
    }
  }
}
