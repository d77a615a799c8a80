/** Copying a whole mailbox (internal/mailbox/mailbox.go, copy) as a function: connecting, the
    folder structure, every folder with its reconnects, and what success means. */
module MailboxRun {
  import opened Basics
  import opened Imap
  import opened SyncState
  import opened MessageCopy
  import opened Agreement
  import opened Pipeline
  import opened FolderTree
  import opened FolderCopy

  // ---------------------------------------------------------------- one folder among others

  /** Going from `w` to `w'`, nothing happened outside folder `f` of mailbox `mb`, except that
      empty superiors of `f` may have appeared on the target. */
  ghost predicate Elsewhere(mb: string, f: string, w: World, w': World) {
    var a, a' := w.target.account, w'.target.account;
    && a'.delim == a.delim
    && (forall g :: g in a.folders ==> g in a'.folders && (g != f ==> a'.folders[g] == a.folders[g]))
    && (f in a.folders ==> a'.folders[f].attributes == a.folders[f].attributes)
    && (f in a'.folders && f !in a.folders ==> CanSelect(a', f))
    && (forall g :: g in a'.folders && g !in a.folders && g != f ==>
          && f !in a.folders && IsInferior(f, g, a.delim)
          && a'.folders[g].msgs == map[] && a'.folders[g].uidValidity != 0)
    && (forall g :: g != f ==> RecOf(w'.state, mb, g) == RecOf(w.state, mb, g))
    && w'.state - {mb} == w.state - {mb}
  }

  lemma ElsewhereTransitive(mb: string, f: string, w0: World, w1: World, w2: World)
    requires Elsewhere(mb, f, w0, w1) && Elsewhere(mb, f, w1, w2)
    ensures Elsewhere(mb, f, w0, w2)
  {
    hide RecOf, IsInferior;
  }

  lemma ApplyElsewhere(c: Contents, mb: string, op: Op, f: string)
    requires op.MarkSynced? || op.SetUIDMapping? || op.SetUIDValidity? || op.UpdateLastSync?
    requires op.folder == f
    ensures forall g :: g != f ==> RecOf(Apply(c, mb, op), mb, g) == RecOf(c, mb, g)
    ensures Apply(c, mb, op) - {mb} == c - {mb}
  {
  }

  lemma MessageElsewhere(ctx: Context, w: World, msg: Message)
    ensures Elsewhere(ctx.mailbox, ctx.folder, w, CopyMessage(ctx, w, msg).0)
  {
    var mb, f := ctx.mailbox, ctx.folder;
    if Attempted(ctx, w, msg) {
      var (w1, uid) := SendAppend(ctx, Throttled(ctx, w), msg);
      assert Elsewhere(mb, f, w, w1);
      if uid.Some? {
        hide Append, SendAppend, Apply, RecOf, Record, Attempted;
        var c2 := Apply(w1.state, mb, Op.MarkSynced(f, msg.uid));
        ApplyElsewhere(w1.state, mb, Op.MarkSynced(f, msg.uid), f);
        ApplyElsewhere(c2, mb, Op.SetUIDMapping(f, msg.uid, uid.value), f);
      }
    }
  }

  lemma {:induction false} CopyAllElsewhere(ctx: Context, w: World, msgs: seq<Message>)
    ensures Elsewhere(ctx.mailbox, ctx.folder, w, CopyAll(ctx, w, msgs).0)
    decreases msgs
  {
    if msgs == [] {
    } else {
      hide CopyMessage, Elsewhere;
      var w1 := CopyMessage(ctx, w, msgs[0]).0;
      MessageElsewhere(ctx, w, msgs[0]);
      CopyAllElsewhere(ctx, w1, msgs[1..]);
      ElsewhereTransitive(ctx.mailbox, ctx.folder, w, w1, CopyAll(ctx, w, msgs).0);
    }
  }

  /** The account keeps its folders; what is new is `f` itself or above it, and empty. */
  ghost predicate Extends(a: Account, a': Account, f: string) {
    && a'.delim == a.delim
    && (forall g :: g in a.folders ==> g in a'.folders && a'.folders[g] == a.folders[g])
    && (forall g :: g in a'.folders && g !in a.folders ==>
          && f !in a.folders && a'.folders[g].msgs == map[] && a'.folders[g].uidValidity != 0
          && ((g == f && CanSelect(a', f)) || IsInferior(f, g, a.delim)))
  }

  /** `EnsureFolder` leaves the existing folders alone and on success the folder exists. */
  lemma EnsureEffect(oracle: Oracle, r: Remote, f: string)
    requires r.account.delim != '%'
    ensures
      var (r', ok) := Ensure(oracle, r, f);
      && Extends(r.account, r'.account, f)
      && (ok ==> f in r'.account.folders)
      && (f in r.account.folders ==> r'.account == r.account)
  {
    hide Create, Matches, Found, Extends;
    ExistenceTestIsExact(r.account, f, oracle(r.tick));
    ExtendsItself(r.account, f);
    if f !in r.account.folders {
      CreateExtends(r.account, f, oracle(r.tick + 1));
    }
  }

  lemma ExtendsItself(a: Account, f: string)
    ensures Extends(a, a, f)
  {
  }

  lemma CreateExtends(a: Account, f: string, ans: Answer)
    requires f !in a.folders
    ensures Extends(a, Create(a, f, ans).0, f)
    ensures Create(a, f, ans).1 ==> f in Create(a, f, ans).0.folders
  {
    EffectOfCreate(a, f, ans);
    hide Create;
  }

  lemma PrepareElsewhere(job: FolderJob, s: Sides, info: Info)
    requires job.ctx.folder in s.source.account.folders
    ensures Elsewhere(job.ctx.mailbox, job.ctx.folder, s.world, Prepare(job, s, info).0.world)
    ensures Prepare(job, s, info).0.source.account == s.source.account
    ensures Prepare(job, s, info).0.world.target.account == s.world.target.account
  {
    var mb, f := job.ctx.mailbox, job.ctx.folder;
    hide Elsewhere, Apply, RecOf, FetchAllReply, Outside, SelectReply;
    ApplyElsewhere(s.world.state, mb, Op.SetUIDValidity(f, info.uidValidity), f);
    var w' := Prepare(job, s, info).0.world;
    if w'.state == s.world.state {
      SameStateElsewhere(mb, f, s.world, w');
    } else {
      assert w'.state == Apply(s.world.state, mb, Op.SetUIDValidity(f, info.uidValidity));
      SameAccountElsewhere(mb, f, s.world, w');
    }
  }

  lemma SameAccountElsewhere(mb: string, f: string, w: World, w': World)
    requires w'.target.account == w.target.account && w'.state - {mb} == w.state - {mb}
    requires forall g :: g != f ==> RecOf(w'.state, mb, g) == RecOf(w.state, mb, g)
    ensures Elsewhere(mb, f, w, w')
  {
    hide RecOf, IsInferior;
  }

  lemma SameStateElsewhere(mb: string, f: string, w: World, w': World)
    requires w'.target.account == w.target.account && w'.state == w.state
    ensures Elsewhere(mb, f, w, w')
  {
    hide RecOf, IsInferior;
  }

  lemma StampElsewhere(job: FolderJob, w: World)
    ensures Elsewhere(job.ctx.mailbox, job.ctx.folder, w, Stamp(job, w))
  {
    ApplyElsewhere(w.state, job.ctx.mailbox, Op.UpdateLastSync(job.ctx.folder, job.now), job.ctx.folder);
    hide Apply, RecOf;
  }

  lemma LoopElsewhere(job: FolderJob, s: Sides, uids: seq<uint32>)
    requires job.ctx.folder in s.source.account.folders
    ensures Elsewhere(job.ctx.mailbox, job.ctx.folder, s.world, CopyLoop(job, s, uids).0.world)
    ensures CopyLoop(job, s, uids).0.source.account == s.source.account
  {
    hide Apply, RecOf, CopyAll, Delivered, Upcoming, Elsewhere, Processed, Stamp;
    var msgs := Processed(EnvOf(job, s, uids), job.ending);
    var w' := CopyAll(job.ctx, s.world, msgs).0;
    CopyAllElsewhere(job.ctx, s.world, msgs);
    StampElsewhere(job, w');
    ElsewhereTransitive(job.ctx.mailbox, job.ctx.folder, s.world, w', Stamp(job, w'));
  }

  lemma OpenElsewhere(job: FolderJob, s: Sides)
    requires s.world.target.account.delim != '%'
    ensures Elsewhere(job.ctx.mailbox, job.ctx.folder, s.world, Open(job, s).0.world)
    ensures Open(job, s).0.source.account == s.source.account
  {
    var mb, f := job.ctx.mailbox, job.ctx.folder;
    var info := SelectReply(s.source.account, f, job.source(s.source.tick));
    if info.Some? {
      EnsureEffect(job.ctx.target, s.world.target, f);
      var (target, ok) := Ensure(job.ctx.target, s.world.target, f);
      var s2 := Sides(s.world.(target := target), Answered(s.source));
      assert Elsewhere(mb, f, s.world, s2.world);
      if ok {
        hide Ensure, Prepare, Elsewhere;
        PrepareElsewhere(job, s2, info.value);
        ElsewhereTransitive(mb, f, s.world, s2.world, Prepare(job, s2, info.value).0.world);
      }
    }
  }

  /** Copying one folder leaves all other folders, records and mailboxes as they are. */
  lemma CopyFolderElsewhere(job: FolderJob, s: Sides)
    requires s.world.target.account.delim != '%'
    ensures Elsewhere(job.ctx.mailbox, job.ctx.folder, s.world, CopyFolder(job, s).0.world)
    ensures CopyFolder(job, s).0.source.account == s.source.account
  {
    hide Open, CopyLoop, Elsewhere;
    OpenElsewhere(job, s);
    var (s1, opening) := Open(job, s);
    if opening.ToCopy? && job.ctx.folder in s1.source.account.folders {
      LoopElsewhere(job, s1, opening.uids);
      ElsewhereTransitive(job.ctx.mailbox, job.ctx.folder, s.world, s1.world, CopyLoop(job, s1, opening.uids).0.world);
    }
  }

  // ---------------------------------------------------------------- a folder from nothing

  const EMPTY_FOLDER := Folder([], 1, 0, map[])

  /** The folder has no sync record yet, and is missing or empty on the target. */
  ghost predicate Pending(job: FolderJob, w: World) {
    && Record(job.ctx, w) == SyncState.NewFolder(job.ctx.folder)
    && (job.ctx.folder in w.target.account.folders ==>
          var t := w.target.account.folders[job.ctx.folder]; t.msgs == map[] && t.uidValidity != 0)
  }

  /** The folder is complete on the target; one without messages may be there as a mere container. */
  ghost predicate Arrived(job: FolderJob, src: Folder, w: World) {
    && job.ctx.folder in w.target.account.folders
    && (if CanSelect(w.target.account, job.ctx.folder) then Complete(job, src, EMPTY_FOLDER, w) else src.msgs == map[])
  }

  ghost predicate CleanIfUsable(job: FolderJob, w: World) {
    CanSelect(w.target.account, job.ctx.folder) ==> Clean(job, EMPTY_FOLDER, w)
  }

  lemma PendingIsReady(job: FolderJob, src: Folder, w: World)
    requires Pending(job, w) && CanSelect(w.target.account, job.ctx.folder)
    ensures Ready(job, src, EMPTY_FOLDER, w) && Clean(job, EMPTY_FOLDER, w)
  {
  }

  lemma EnsureKeepsPending(job: FolderJob, s: Sides)
    requires Pending(job, s.world) && s.world.target.account.delim != '%'
    ensures
      var (target, ok) := Ensure(job.ctx.target, s.world.target, job.ctx.folder);
      && Pending(job, s.world.(target := target))
      && (ok ==> job.ctx.folder in target.account.folders)
  {
    EnsureEffect(job.ctx.target, s.world.target, job.ctx.folder);
    hide Ensure;
  }

  lemma NoMessages(fo: Folder)
    ensures |fo.msgs| == 0 <==> fo.msgs == map[]
  {
    if |fo.msgs| == 0 {
      assert fo.msgs.Keys == {};
    }
  }

  /** The part of `copyFolder` after `EnsureFolder`, for a folder without record. */
  lemma PreparedScratchOutcome(job: FolderJob, s: Sides, info: Info)
    requires job.ctx.folder in s.source.account.folders && ValidFolder(SourceFolder(job, s))
    requires info == Info(|SourceFolder(job, s).msgs|, SourceFolder(job, s).uidValidity)
    requires Pending(job, s.world) && job.ctx.folder in s.world.target.account.folders
    ensures
      var (s1, opening) := Prepare(job, s, info);
      && s1.source.account == s.source.account
      && (opening == Over(None) ==> Arrived(job, SourceFolder(job, s), s1.world) && CleanIfUsable(job, s1.world))
      && (opening.ToCopy? ==>
            var (s2, err) := CopyLoop(job, s1, opening.uids);
            && (err == None && job.ending.Undisturbed? ==> Arrived(job, SourceFolder(job, s), s2.world))
            && (NoLostReplies(job.ctx.target) ==> CleanIfUsable(job, s2.world)))
  {
    var src := SourceFolder(job, s);
    NoMessages(src);
    if CanSelect(s.world.target.account, job.ctx.folder) {
      PendingIsReady(job, src, s.world);
      hide Prepare, CopyLoop, RecOf, Pending, Tied, Live, ValidFolder;
      PrepareKeepsReady(job, s, EMPTY_FOLDER, info);
      var (s1, opening) := Prepare(job, s, info);
      if opening == Over(None) {
        AllSyncedIsComplete(job, src, EMPTY_FOLDER, s1.world);
      } else if opening.ToCopy? {
        LoopOutcome(job, s1, EMPTY_FOLDER, opening.uids);
      }
    }
  }

  /** An undisturbed copy that returns nil has brought the folder over, whatever faults were survived. */
  lemma ScratchOutcome(job: FolderJob, s: Sides)
    requires CanSelect(s.source.account, job.ctx.folder) && ValidFolder(SourceFolder(job, s))
    requires s.world.target.account.delim != '%' && Pending(job, s.world)
    requires CopyFolder(job, s).1 == None && job.ending.Undisturbed?
    ensures Arrived(job, SourceFolder(job, s), CopyFolder(job, s).0.world)
    ensures NoLostReplies(job.ctx.target) ==> CleanIfUsable(job, CopyFolder(job, s).0.world)
  {
    EnsureKeepsPending(job, s);
    var target := Ensure(job.ctx.target, s.world.target, job.ctx.folder).0;
    var s2 := Sides(s.world.(target := target), Answered(s.source));
    hide Ensure, Prepare, CopyLoop, Pending, Arrived, CleanIfUsable, ValidFolder;
    PreparedScratchOutcome(job, s2, Info(|SourceFolder(job, s).msgs|, SourceFolder(job, s).uidValidity));
  }

  // ---------------------------------------------------------------- the whole mailbox

  /** What is fixed for the copy of one mailbox. `dial` answers the n-th connection attempt, and
      `stops` says how the end of the context cuts the copying of single folders short. */
  datatype Plan = Plan(
    mailbox: string, source: Oracle, target: Oracle, throttle: Option<nat -> bool>,
    dial: nat -> bool, progress: int, now: Timestamp, stops: map<string, Ending>)

  /** The context does not end during the run. */
  predicate Uncancelled(p: Plan) { p.stops == map[] }

  /** Both servers, the state between them, and the connection attempts so far. */
  datatype Run = Run(sides: Sides, dials: nat)

  datatype MailboxError = ConnectFailed | FolderListFailed | FoldersFailed(count: nat) | DisconnectFailed

  function JobFor(p: Plan, f: string): FolderJob {
    FolderJob(Context(p.mailbox, f, p.target, p.throttle), p.source, p.progress, p.now,
              if f in p.stops then p.stops[f] else Undisturbed)
  }

  function SourceTick(r: Run): Run { r.(sides := r.sides.(source := Answered(r.sides.source))) }

  function TargetTick(r: Run): Run {
    r.(sides := r.sides.(world := r.sides.world.(target := Answered(r.sides.world.target))))
  }

  /** `connect`: if only the target cannot be reached, the source is closed again. */
  function Connect(p: Plan, r: Run): (Run, bool) {
    if !p.dial(r.dials) then (r.(dials := r.dials + 1), false)
    else if !p.dial(r.dials + 1) then (SourceTick(r.(dials := r.dials + 2)), false)
    else (r.(dials := r.dials + 2), true)
  }

  /** `disconnect` of two open connections. */
  function Disconnect(p: Plan, r: Run): (Run, bool) {
    var srcOk := p.source(r.sides.source.tick).outcome.Acked?;
    var tgtOk := p.target(r.sides.world.target.tick).outcome.Acked?;
    (TargetTick(SourceTick(r)), srcOk && tgtOk)
  }

  /** `copyFolders`; false if a listing fails. */
  function CopyFolders(p: Plan, r: Run): (Run, bool) {
    var listed := ListReply(r.sides.source.account, p.source(r.sides.source.tick));
    var r1 := SourceTick(r);
    if listed.None? then (r1, false)
    else
      var w := r.sides.world;
      var present := ListReply(w.target.account, p.target(w.target.tick));
      var r2 := TargetTick(r1);
      if present.None? then (r2, false)
      else
        var names := NamesOf(present.value);
        var (target, n) := CreateMissing(p.target, Answered(w.target), names, SortByName(listed.value, false));
        var stats := w.stats.(foldersCreated := w.stats.foldersCreated + n);
        (r2.(sides := r2.sides.(world := w.(target := target, stats := stats))), true)
  }

  function NamesOf(es: seq<Entry>): set<string> { set e | e in es :: e.name }

  /** The loop over the folders: the errors counted, and whether both servers are still connected. */
  function CopyEach(p: Plan, r: Run, es: seq<Entry>): (Run, nat, bool)
    decreases es
  {
    if es == [] then (r, 0, true)
    else if es[0].IsNoSelect() then CopyEach(p, r, es[1..])
    else
      var (sides, err) := CopyFolder(JobFor(p, es[0].name), r.sides);
      var r1 := r.(sides := sides);
      if err == None then CopyEach(p, r1, es[1..])
      else
        var (r2, ok) := Connect(p, Disconnect(p, r1).0);
        if !ok then (r2, 1, false)
        else
          var (r3, n, connected) := CopyEach(p, r2, es[1..]);
          (r3, n + 1, connected)
  }

  /** One round of that loop: whether the folder failed, and whether both servers are connected after. */
  function Round(p: Plan, r: Run, f: string): (Run, bool, bool) {
    var (sides, err) := CopyFolder(JobFor(p, f), r.sides);
    if err == None then (r.(sides := sides), false, true)
    else
      var (r2, ok) := Connect(p, Disconnect(p, r.(sides := sides)).0);
      (r2, true, ok)
  }

  lemma CopyEachByRounds(p: Plan, r: Run, es: seq<Entry>)
    requires es != [] && !es[0].IsNoSelect()
    ensures
      var (r1, failed, connected) := Round(p, r, es[0].name);
      if !connected then failed && CopyEach(p, r, es) == (r1, 1, false)
      else
        var (r2, n, still) := CopyEach(p, r1, es[1..]);
        CopyEach(p, r, es) == (r2, n + (if failed then 1 else 0), still)
  {
    hide CopyFolder, Connect, Disconnect;
  }

  /** What the rounds so far and one more come to. */
  lemma {:induction false} CopyEachOneMore(p: Plan, r: Run, es: seq<Entry>, e: Entry)
    ensures
      var (r1, n, connected) := CopyEach(p, r, es);
      CopyEach(p, r, es + [e]) ==
        if !connected || e.IsNoSelect() then (r1, n, connected)
        else var (r2, failed, still) := Round(p, r1, e.name); (r2, n + (if failed then 1 else 0), still)
    decreases es
  {
    hide CopyFolder, Connect, Disconnect, Round;
    if es == [] {
      assert (es + [e])[0] == e && (es + [e])[1..] == [];
      if !e.IsNoSelect() { CopyEachByRounds(p, r, es + [e]); }
    } else {
      assert (es + [e])[0] == es[0] && (es + [e])[1..] == es[1..] + [e];
      if es[0].IsNoSelect() {
        CopyEachOneMore(p, r, es[1..], e);
      } else {
        CopyEachByRounds(p, r, es);
        CopyEachByRounds(p, r, es + [e]);
        CopyEachOneMore(p, Round(p, r, es[0].name).0, es[1..], e);
      }
    }
  }

  /** Once the servers are lost nothing more is tried. */
  lemma {:induction false} CopyEachGivesUp(p: Plan, r: Run, es: seq<Entry>, rest: seq<Entry>)
    requires !CopyEach(p, r, es).2
    ensures CopyEach(p, r, es + rest) == CopyEach(p, r, es)
    decreases rest
  {
    if rest == [] {
      assert es + rest == es;
    } else {
      hide CopyEach;
      CopyEachOneMore(p, r, es, rest[0]);
      CopyEachGivesUp(p, r, es + [rest[0]], rest[1..]);
      assert es + rest == (es + [rest[0]]) + rest[1..];
    }
  }

  lemma RoundIgnores(p: Plan, r: Run, g: string, f: string, ending: Ending)
    requires g != f
    ensures Round(p.(stops := p.stops[f := ending]), r, g) == Round(p, r, g)
  {
    hide CopyFolder;
  }

  /** How one folder ends matters to the others only through what it leaves behind. */
  lemma {:induction false} CopyEachIgnores(p: Plan, r: Run, es: seq<Entry>, f: string, ending: Ending)
    requires forall e :: e in es ==> e.name != f
    ensures CopyEach(p.(stops := p.stops[f := ending]), r, es) == CopyEach(p, r, es)
    decreases es
  {
    hide Round, Connect, Disconnect, CopyFolder;
    var q := p.(stops := p.stops[f := ending]);
    if es == [] {
    } else {
      assert es[0] in es && es[0].name != f && forall e :: e in es[1..] ==> e in es;
      if es[0].IsNoSelect() {
        CopyEachIgnores(p, r, es[1..], f, ending);
      } else {
        CopyEachByRounds(p, r, es);
        CopyEachByRounds(q, r, es);
        RoundIgnores(p, r, es[0].name, f, ending);
        hide CopyEach;
        CopyEachIgnores(p, Round(p, r, es[0].name).0, es[1..], f, ending);
      }
    }
  }

  lemma ReconnectIgnoresStops(p: Plan, stops: map<string, Ending>, r: Run)
    ensures Connect(p.(stops := stops), Disconnect(p.(stops := stops), r).0) == Connect(p, Disconnect(p, r).0)
  {
    hide Connect, Disconnect;
    ConnectIgnoresStops(p, stops, r);
    ConnectIgnoresStops(p, stops, Disconnect(p, r).0);
  }

  lemma RoundInSteps(p: Plan, r: Run, f: string)
    ensures
      var (sides, err) := CopyFolder(JobFor(p, f), r.sides);
      var (r2, ok) := Connect(p, Disconnect(p, r.(sides := sides)).0);
      Round(p, r, f) == if err == None then (r.(sides := sides), false, true) else (r2, true, ok)
  {
    hide CopyFolder, Connect, Disconnect;
  }

  lemma CopyEachOfNothing(p: Plan, r: Run)
    ensures CopyEach(p, r, []) == (r, 0, true)
  {
  }

  /** One more round that ends as it does, whatever is set for the folders before. */
  lemma RoundEnds(p: Plan, r: Run, es: seq<Entry>, e: Entry, ending: Ending, r1: Run, n: nat)
    requires CopyEach(p, r, es) == (r1, n, true) && !e.IsNoSelect() && e.name !in p.stops
    requires forall x :: x in es ==> x.name != e.name
    ensures
      var q := if ending.Undisturbed? then p else p.(stops := p.stops[e.name := ending]);
      var (r2, failed, still) := Round(p.(stops := map[e.name := ending]), r1, e.name);
      CopyEach(q, r, es + [e]) == (r2, n + (if failed then 1 else 0), still)
  {
    hide CopyEach, CopyFolder;
    var q := if ending.Undisturbed? then p else p.(stops := p.stops[e.name := ending]);
    CopyEachIgnores(p, r, es, e.name, ending);
    CopyEachOneMore(q, r, es, e);
    assert JobFor(q, e.name) == JobFor(p.(stops := map[e.name := ending]), e.name);
  }

  lemma FoldersIgnoreStops(p: Plan, stops: map<string, Ending>, r: Run)
    ensures CopyFolders(p.(stops := stops), r) == CopyFolders(p, r)
  {
    hide ListReply, CreateMissing, SortByName;
  }

  lemma ConnectIgnoresStops(p: Plan, stops: map<string, Ending>, r: Run)
    ensures Connect(p.(stops := stops), r) == Connect(p, r)
    ensures Disconnect(p.(stops := stops), r) == Disconnect(p, r)
    ensures NoteSync(p.(stops := stops), r) == NoteSync(p, r)
  {
    hide Apply;
  }

  function NoteSync(p: Plan, r: Run): Run {
    var w := r.sides.world;
    r.(sides := r.sides.(world := w.(state := Apply(w.state, p.mailbox, Op.UpdateMailboxLastSync(p.now)))))
  }

  /** `copy` from its own listing of the source folders on: the folder errors counted, unless the
      listing fails, and whether both servers are still connected. */
  function CopyListed(p: Plan, r: Run): (Run, Option<nat>, bool) {
    var listed := ListReply(r.sides.source.account, p.source(r.sides.source.tick));
    var r1 := SourceTick(r);
    if listed.None? then (r1, None, true)
    else
      var (r2, errors, still) := CopyEach(p, r1, listed.value);
      (NoteSync(p, r2), Some(errors), still)
  }

  /** `copy` between connecting and the deferred disconnecting. */
  function CopyOpened(p: Plan, r: Run): (Run, Option<nat>, bool) {
    var (r1, structured) := CopyFolders(p, r);
    if structured then CopyListed(p, r1) else (r1, None, true)
  }

  /** `copy` once both servers are connected. */
  function CopyConnected(p: Plan, r: Run): (Run, Option<MailboxError>) {
    var (r1, errors, still) := CopyOpened(p, r);
    var (r2, ok) := if still then Disconnect(p, r1) else (r1, true);
    (r2, if errors.None? then Some(FolderListFailed)
         else if errors.value > 0 then Some(FoldersFailed(errors.value))
         else if !ok then Some(DisconnectFailed) else None)
  }

  function CopyMailbox(p: Plan, r: Run): (Run, Option<MailboxError>) {
    var (r1, connected) := Connect(p, r);
    if !connected then (r1, Some(ConnectFailed)) else CopyConnected(p, r1)
  }

  // ---------------------------------------------------------------- what success means

  /** The folder has been brought over, and if no reply was lost, cleanly. */
  ghost predicate Home(p: Plan, src: Account, f: string, w: World)
    requires f in src.folders
  {
    && Arrived(JobFor(p, f), src.folders[f], w)
    && (NoLostReplies(p.target) ==> CleanIfUsable(JobFor(p, f), w))
  }

  /** Every target folder is selectable and INBOX or a selectable source folder, or it is above one of
      these; and only selectable source folders hold messages. */
  ghost predicate NothingForeign(src: Account, tgt: Account) {
    && (forall g :: g in tgt.folders ==> Wanted(src, tgt, g))
    && (forall g :: g in tgt.folders && !CanSelect(src, g) ==> tgt.folders[g].msgs == map[])
  }

  ghost predicate Wanted(src: Account, tgt: Account, g: string) {
    (CanSelect(tgt, g) && (g == INBOX || CanSelect(src, g))) || IsAbove(src, g, tgt.delim)
  }

  /** The name is above a selectable folder that has to be created. */
  ghost predicate IsAbove(src: Account, g: string, delim: char) {
    exists f :: f != INBOX && CanSelect(src, f) && IsInferior(f, g, delim)
  }

  /** What is pending or home stays so while another folder is copied. */
  lemma OthersStay(p: Plan, src: Account, f: string, w: World, w': World, g: string)
    requires Elsewhere(p.mailbox, f, w, w') && g != f
    ensures Pending(JobFor(p, g), w) ==> Pending(JobFor(p, g), w')
    ensures g in src.folders && Home(p, src, g, w) ==> Home(p, src, g, w')
  {
    hide Tied, Live, ValidFolder, RecOf, IsInferior;
  }

  lemma NothingForeignStays(src: Account, mb: string, f: string, w: World, w': World)
    requires Elsewhere(mb, f, w, w') && CanSelect(src, f) && NothingForeign(src, w.target.account)
    requires INBOX in w.target.account.folders
    ensures NothingForeign(src, w'.target.account) && INBOX in w'.target.account.folders
  {
    hide RecOf, IsInferior;
    var a, a' := w.target.account, w'.target.account;
    forall g | g in a'.folders ensures Wanted(src, a', g) {
      if g in a.folders { assert Wanted(src, a, g); } else if g != f { assert IsAbove(src, g, a'.delim); }
    }
  }

  /** An undisturbed loop over pending folders that counts no error brings all of them home. */
  lemma {:induction false} CopyEachBringsHome(p: Plan, r: Run, es: seq<Entry>, src: Account)
    requires ValidAccount(src) && r.sides.source.account == src && r.sides.world.target.account.delim != '%'
    requires DistinctNames(es)
    requires forall e :: e in es && !e.IsNoSelect() ==>
      CanSelect(src, e.name) && Pending(JobFor(p, e.name), r.sides.world)
    requires Uncancelled(p) && CopyEach(p, r, es).1 == 0
    ensures
      var (r', _, connected) := CopyEach(p, r, es);
      && connected && r'.sides.source.account == src
      && (forall e :: e in es && !e.IsNoSelect() ==> e.name in src.folders && Home(p, src, e.name, r'.sides.world))
      && (forall g :: g in src.folders && Home(p, src, g, r.sides.world) && (forall e :: e in es ==> e.name != g) ==>
            Home(p, src, g, r'.sides.world))
    decreases es
  {
    if es == [] {
    } else {
      assert forall e :: e in es <==> e == es[0] || e in es[1..];
      assert DistinctNames(es[1..]);
      if es[0].IsNoSelect() {
        CopyEachBringsHome(p, r, es[1..], src);
      } else {
        CopyEachFirst(p, r, es, src);
        hide Home, Pending, CopyFolder, ValidAccount, Elsewhere;
        var r1 := r.(sides := CopyFolder(JobFor(p, es[0].name), r.sides).0);
        CopyEachBringsHome(p, r1, es[1..], src);
      }
    }
  }

  lemma FailureCounts(p: Plan, r: Run, es: seq<Entry>)
    requires es != [] && !es[0].IsNoSelect()
    ensures CopyFolder(JobFor(p, es[0].name), r.sides).1 != None ==> CopyEach(p, r, es).1 >= 1
  {
    hide CopyFolder, Connect, Disconnect;
    var r1 := r.(sides := CopyFolder(JobFor(p, es[0].name), r.sides).0);
    var (r2, ok) := Connect(p, Disconnect(p, r1).0);
    if ok { assert CopyEach(p, r2, es[1..]).1 >= 0; }
  }

  /** The first round of that loop. */
  lemma CopyEachFirst(p: Plan, r: Run, es: seq<Entry>, src: Account)
    requires ValidAccount(src) && r.sides.source.account == src && r.sides.world.target.account.delim != '%'
    requires DistinctNames(es) && es != [] && !es[0].IsNoSelect()
    requires forall e :: e in es && !e.IsNoSelect() ==>
      CanSelect(src, e.name) && Pending(JobFor(p, e.name), r.sides.world)
    requires Uncancelled(p) && CopyEach(p, r, es).1 == 0
    ensures
      var f := es[0].name;
      var (sides, err) := CopyFolder(JobFor(p, f), r.sides);
      && err == None && sides.source.account == src && sides.world.target.account.delim != '%'
      && f in src.folders && Home(p, src, f, sides.world)
      && (forall e :: e in es[1..] ==> e.name != f)
      && (forall e :: e in es[1..] && !e.IsNoSelect() ==> Pending(JobFor(p, e.name), sides.world))
      && (forall g :: g in src.folders && g != f && Home(p, src, g, r.sides.world) ==> Home(p, src, g, sides.world))
  {
    var f := es[0].name;
    assert es[0] in es && CanSelect(src, f) && ValidFolder(src.folders[f]);
    FailureCounts(p, r, es);
    hide ValidFolder, Pending, CopyFolder, Arrived, CleanIfUsable, Elsewhere;
    var (sides, err) := CopyFolder(JobFor(p, f), r.sides);
    CopyFolderElsewhere(JobFor(p, f), r.sides);
    ElsewhereKeepsDelim(p.mailbox, f, r.sides.world, sides.world);
    ScratchOutcome(JobFor(p, f), r.sides);
    forall e | e in es[1..] ensures e.name != f && (!e.IsNoSelect() ==> Pending(JobFor(p, e.name), sides.world)) {
      var i :| 0 <= i < |es[1..]| && es[1..][i] == e;
      assert es[i + 1] == e && e in es;
      OthersStay(p, src, f, r.sides.world, sides.world, e.name);
    }
    forall g | g in src.folders && g != f && Home(p, src, g, r.sides.world) ensures Home(p, src, g, sides.world) {
      OthersStay(p, src, f, r.sides.world, sides.world, g);
    }
  }

  lemma ElsewhereKeepsDelim(mb: string, f: string, w: World, w': World)
    requires Elsewhere(mb, f, w, w')
    ensures w'.target.account.delim == w.target.account.delim
  {
  }

  // ---------------------------------------------------------------- the folder structure

  /** From `a` to `a'` only folders for listed names and above them appeared, all empty. */
  ghost predicate Sprouts(a: Account, a': Account, es: seq<Entry>) {
    && a'.delim == a.delim
    && (forall g :: g in a.folders ==> g in a'.folders && a'.folders[g] == a.folders[g])
    && (forall g :: g in a'.folders && g !in a.folders ==>
          a'.folders[g].msgs == map[] && a'.folders[g].uidValidity != 0 && exists e :: Causes(e, es, g, a, a'))
  }

  /** The folder `g` appeared with the creation of a folder that was missing. */
  ghost predicate Causes(e: Entry, es: seq<Entry>, g: string, a: Account, a': Account) {
    && e in es && !e.IsNoSelect() && e.name !in a.folders
    && ((g == e.name && CanSelect(a', g)) || IsInferior(e.name, g, a.delim))
  }

  lemma SproutsAfterCreate(a: Account, a': Account, es: seq<Entry>, e: Entry, ans: Answer)
    requires e in es && !e.IsNoSelect()
    requires Sprouts(Create(a, e.name, ans).0, a', es)
    ensures Sprouts(a, a', es)
  {
    var a1 := Create(a, e.name, ans).0;
    if e.name !in a.folders {
      EffectOfCreate(a, e.name, ans);
      hide Create;
      forall g | g in a'.folders && g !in a.folders ensures exists x :: Causes(x, es, g, a, a') {
        if g in a1.folders {
          assert Causes(e, es, g, a, a');
        } else {
          var x :| Causes(x, es, g, a1, a');
          assert Causes(x, es, g, a, a');
        }
      }
    }
  }

  /** Whatever the answers, the creation loop only adds empty folders for listed names. */
  lemma {:induction false} CreateMissingSprouts(oracle: Oracle, r: Remote, present: set<string>, es: seq<Entry>,
                                                all: seq<Entry>)
    requires forall e :: e in es ==> e in all
    ensures Sprouts(r.account, CreateMissing(oracle, r, present, es).0.account, all)
    decreases es
  {
    if es == [] {
    } else {
      assert es[0] in es && forall e :: e in es[1..] ==> e in es;
      if es[0].IsNoSelect() || es[0].name in present {
        CreateMissingSprouts(oracle, r, present, es[1..], all);
      } else {
        var ans := oracle(r.tick);
        var r1 := Remote(Create(r.account, es[0].name, ans).0, r.tick + 1);
        CreateMissingSprouts(oracle, r1, present, es[1..], all);
        hide Create, Sprouts;
        SproutsAfterCreate(r.account, CreateMissing(oracle, r1, present, es[1..]).0.account, all, es[0], ans);
      }
    }
  }

  /** `copyFolders` changes no record, and of the target only adds what is wanted, empty. */
  lemma CopyFoldersEffect(p: Plan, r: Run)
    ensures
      var r' := CopyFolders(p, r).0;
      && r'.sides.source.account == r.sides.source.account
      && r'.sides.world.state == r.sides.world.state
      && Sprouts(r.sides.world.target.account, r'.sides.world.target.account, SourceEntries(p, r))
  {
    var es := SourceEntries(p, r);
    var w := r.sides.world;
    assert Sprouts(w.target.account, w.target.account, es);
    var present := ListReply(w.target.account, p.target(w.target.tick));
    if present.Some? {
      SortIsSorted(es, false);
      CreateMissingSprouts(p.target, Answered(w.target), NamesOf(present.value), SortByName(es, false), es);
    }
    hide ListReply, CreateMissing, SortByName, Sprouts;
  }

  /** The listing of the source that `copyFolders` works on. */
  function SourceEntries(p: Plan, r: Run): seq<Entry> {
    var listed := ListReply(r.sides.source.account, p.source(r.sides.source.tick));
    if listed.None? then [] else listed.value
  }

  /** The state before a perform run: no sync record, and an empty INBOX alone on the target. */
  ghost predicate FreshStart(p: Plan, r: Run) {
    var a := r.sides.world.target.account;
    && (forall f :: RecOf(r.sides.world.state, p.mailbox, f) == SyncState.NewFolder(f))
    && a.folders.Keys == {INBOX} && CanSelect(a, INBOX) && a.folders[INBOX].msgs == map[]
        && a.folders[INBOX].uidValidity != 0
    && a.delim != '%'
  }

  lemma SproutsKeepsPending(p: Plan, r: Run, w: World, es: seq<Entry>)
    requires FreshStart(p, r) && w.state == r.sides.world.state
    requires Sprouts(r.sides.world.target.account, w.target.account, es)
    requires forall e :: e in es && !e.IsNoSelect() ==> CanSelect(r.sides.source.account, e.name)
    ensures forall f :: Pending(JobFor(p, f), w)
    ensures NothingForeign(r.sides.source.account, w.target.account) && w.target.account.delim != '%'
  {
    var a, a' := r.sides.world.target.account, w.target.account;
    forall g | g in a'.folders ensures Wanted(r.sides.source.account, a', g) {
      if g !in a.folders {
        var e :| Causes(e, es, g, a, a');
        assert CanSelect(r.sides.source.account, e.name) && e.name != INBOX;
      }
    }
  }

  /** A successful listing names exactly the selectable folders as selectable. */
  lemma ListedAreSelectable(a: Account, ans: Answer)
    requires ListReply(a, ans).Some?
    ensures forall e :: e in ListReply(a, ans).value && !e.IsNoSelect() ==> CanSelect(a, e.name)
    ensures forall f :: CanSelect(a, f) ==> exists e :: e in ListReply(a, ans).value && !e.IsNoSelect() && e.name == f
  {
    ListingNamesAll(a, ans);
  }

  lemma {:induction false} CopyEachAddsNothing(p: Plan, r: Run, es: seq<Entry>, src: Account)
    requires r.sides.world.target.account.delim != '%' && INBOX in r.sides.world.target.account.folders
    requires NothingForeign(src, r.sides.world.target.account)
    requires forall e :: e in es && !e.IsNoSelect() ==> CanSelect(src, e.name)
    ensures
      var a := CopyEach(p, r, es).0.sides.world.target.account;
      a.delim == r.sides.world.target.account.delim && NothingForeign(src, a)
    decreases es
  {
    hide NothingForeign, CopyFolder, Round, Elsewhere, Connect, Disconnect, CanSelect;
    if es == [] {
    } else {
      assert es[0] in es && forall e :: e in es[1..] ==> e in es;
      if es[0].IsNoSelect() {
        CopyEachAddsNothing(p, r, es[1..], src);
      } else {
        CopyEachByRounds(p, r, es);
        RoundAddsNothing(p, r, es[0].name, src);
        CopyEachAddsNothing(p, Round(p, r, es[0].name).0, es[1..], src);
      }
    }
  }

  lemma RoundAddsNothing(p: Plan, r: Run, f: string, src: Account)
    requires r.sides.world.target.account.delim != '%' && INBOX in r.sides.world.target.account.folders
    requires CanSelect(src, f) && NothingForeign(src, r.sides.world.target.account)
    ensures
      var a := Round(p, r, f).0.sides.world.target.account;
      a.delim == r.sides.world.target.account.delim && INBOX in a.folders && NothingForeign(src, a)
  {
    hide NothingForeign, CopyFolder, Elsewhere;
    var w' := CopyFolder(JobFor(p, f), r.sides).0.world;
    CopyFolderElsewhere(JobFor(p, f), r.sides);
    ElsewhereKeepsDelim(p.mailbox, f, r.sides.world, w');
    NothingForeignStays(src, p.mailbox, f, r.sides.world, w');
  }

  /** Which step leaves the target as it is at the end. */
  lemma LastStepOfCopy(p: Plan, r: Run)
    ensures
      var a := CopyMailbox(p, r).0.sides.world.target.account;
      var (r1, connected) := Connect(p, r);
      var (r2, structured) := CopyFolders(p, r1);
      var listed := ListReply(r2.sides.source.account, p.source(r2.sides.source.tick));
      && r1.sides.world == r.sides.world && r1.sides.source.account == r.sides.source.account
      && (if !connected then a == r.sides.world.target.account
          else if !structured || listed.None? then a == r2.sides.world.target.account
          else a == CopyEach(p, SourceTick(r2), listed.value).0.sides.world.target.account)
  {
    hide CopyFolders, CopyEach, ListReply, Apply;
  }

  lemma FreshIsNotForeign(p: Plan, r: Run, src: Account)
    requires FreshStart(p, r)
    ensures NothingForeign(src, r.sides.world.target.account)
  {
  }

  /** What `copyFolders` leaves behind. */
  lemma CopyFoldersFromScratch(p: Plan, r: Run)
    requires FreshStart(p, r)
    ensures
      var (src, w) := (r.sides.source.account, CopyFolders(p, r).0.sides.world);
      && (forall f :: Pending(JobFor(p, f), w))
      && w.target.account.delim == r.sides.world.target.account.delim && CanSelect(w.target.account, INBOX)
      && NothingForeign(src, w.target.account) && CopyFolders(p, r).0.sides.source.account == src
  {
    var src := r.sides.source.account;
    CopyFoldersEffect(p, r);
    if ListReply(src, p.source(r.sides.source.tick)).Some? { ListedAreSelectable(src, p.source(r.sides.source.tick)); }
    hide ListReply, Pending, NothingForeign, CopyFolders;
    SproutsKeepsPending(p, r, CopyFolders(p, r).0.sides.world, SourceEntries(p, r));
  }

  /** Whatever fails and wherever the context ends, a copy from a fresh start leaves nothing foreign. */
  lemma NothingForeignAfterwards(p: Plan, r: Run)
    requires FreshStart(p, r)
    ensures
      var a := CopyMailbox(p, r).0.sides.world.target.account;
      a.delim == r.sides.world.target.account.delim && NothingForeign(r.sides.source.account, a)
  {
    var src := r.sides.source.account;
    var r1 := Connect(p, r).0;
    assert FreshStart(p, r1);
    FreshIsNotForeign(p, r, src);
    CopyFoldersFromScratch(p, r1);
    var r2 := CopyFolders(p, r1).0;
    var ans := p.source(r2.sides.source.tick);
    if ListReply(src, ans).Some? { ListedAreSelectable(src, ans); }
    LastStepOfCopy(p, r);
    hide ListReply, NothingForeign, CopyEach, CopyFolders, CopyMailbox, CanSelect;
    if ListReply(src, ans).Some? { CopyEachAddsNothing(p, SourceTick(r2), ListReply(src, ans).value, src); }
  }

  /** Truthfulness of success: if an undisturbed copy of a mailbox from a fresh start returns nil, every
      selectable source folder has arrived, with exactly one image of each live message and,
      unless a reply was lost, nothing else; and nothing foreign is on the target. */
  lemma SuccessMeansHome(p: Plan, r: Run)
    requires ValidAccount(r.sides.source.account) && FreshStart(p, r)
    requires Uncancelled(p) && CopyMailbox(p, r).1 == None
    ensures
      var (src, w) := (r.sides.source.account, CopyMailbox(p, r).0.sides.world);
      && (forall f :: CanSelect(src, f) ==> Home(p, src, f, w))
      && NothingForeign(src, w.target.account)
  {
    var src := r.sides.source.account;
    var r1 := Connect(p, r).0;
    assert FreshStart(p, r1);
    CopyFoldersFromScratch(p, r1);
    NothingForeignAfterwards(p, r);
    var r2 := CopyFolders(p, r1).0;
    var ans := p.source(r2.sides.source.tick);
    var listed := ListReply(src, ans);
    var r3 := SourceTick(r2);
    ListedAreSelectable(src, ans);
    ListingNamesAll(src, ans);
    hide ListReply, Pending, NothingForeign, Home, CopyEach, CopyFolders, Connect, ValidAccount, FreshStart;
    CopyEachBringsHome(p, r3, listed.value, src);
    var r4 := CopyEach(p, r3, listed.value).0;
    forall f | CanSelect(src, f) ensures Home(p, src, f, CopyMailbox(p, r).0.sides.world) {
      NotingKeepsHome(p, r4, src, f);
    }
  }

  lemma NotingKeepsHome(p: Plan, r: Run, src: Account, f: string)
    requires f in src.folders && Home(p, src, f, r.sides.world)
    ensures Home(p, src, f, NoteSync(p, r).sides.world)
    ensures Home(p, src, f, Disconnect(p, NoteSync(p, r)).0.sides.world)
  {
  }

  // ---------------------------------------------------------------- every reachable state

  /** Whatever has happened so far, the records of the folder agree with the target: there are none
      and nothing has arrived, or they can be continued. */
  ghost predicate Sound(p: Plan, src: Folder, f: string, w: World) {
    Pending(JobFor(p, f), w) || Ready(JobFor(p, f), src, EMPTY_FOLDER, w)
  }

  ghost predicate AllSound(p: Plan, src: Account, w: World) {
    w.target.account.delim != '%' && forall f :: CanSelect(src, f) ==> Sound(p, src.folders[f], f, w)
  }

  lemma FreshStartIsSound(p: Plan, r: Run, src: Account)
    requires FreshStart(p, r)
    ensures AllSound(p, src, r.sides.world)
  {
  }

  lemma SproutsKeepsSound(p: Plan, src: Folder, f: string, w: World, w': World, es: seq<Entry>)
    requires Sprouts(w.target.account, w'.target.account, es) && w'.state == w.state && Sound(p, src, f, w)
    ensures Sound(p, src, f, w')
  {
    hide Tied, RecOf;
  }

  lemma CopyFoldersKeepsSound(p: Plan, r: Run, src: Account)
    requires AllSound(p, src, r.sides.world)
    ensures AllSound(p, src, CopyFolders(p, r).0.sides.world)
  {
    CopyFoldersEffect(p, r);
    hide CopyFolders, Sound;
    var w, w' := r.sides.world, CopyFolders(p, r).0.sides.world;
    assert w'.target.account.delim == w.target.account.delim;
    forall f | CanSelect(src, f) ensures Sound(p, src.folders[f], f, w') {
      SproutsKeepsSound(p, src.folders[f], f, w, w', SourceEntries(p, r));
    }
  }

  lemma OpenKeepsSound(p: Plan, f: string, s: Sides)
    requires CanSelect(s.source.account, f) && ValidFolder(s.source.account.folders[f])
    requires s.world.target.account.delim != '%' && Sound(p, s.source.account.folders[f], f, s.world)
    ensures
      var (s1, opening) := Open(JobFor(p, f), s);
      && s1.source.account == s.source.account
      && Sound(p, s.source.account.folders[f], f, s1.world)
      && (opening.ToCopy? ==> Ready(JobFor(p, f), s.source.account.folders[f], EMPTY_FOLDER, s1.world))
  {
    var job, src := JobFor(p, f), s.source.account.folders[f];
    if CanSelect(s.world.target.account, f) {
      if Pending(job, s.world) { PendingIsReady(job, src, s.world); }
      hide Open, Tied, RecOf, Ready, Pending, ValidFolder;
      OpenKeepsReady(job, s, EMPTY_FOLDER);
    } else {
      assert Pending(job, s.world);
      EnsureKeepsPending(job, s);
      var target := Ensure(job.ctx.target, s.world.target, f).0;
      var s2 := Sides(s.world.(target := target), Answered(s.source));
      var info := Info(|src.msgs|, src.uidValidity);
      if CanSelect(target.account, f) {
        PendingIsReady(job, src, s2.world);
        hide Ensure, Prepare, Tied, RecOf, Ready, Pending, ValidFolder;
        PrepareKeepsReady(job, s2, EMPTY_FOLDER, info);
      } else {
        assert Prepare(job, s2, info).1.Over? && Pending(job, Prepare(job, s2, info).0.world);
        hide Ensure, Prepare, Tied, RecOf, Ready, Pending, ValidFolder;
      }
    }
  }

  /** However the copy of one folder ends, by success, fault or cancellation, the records of all
      folders keep agreeing with the target. */
  lemma CopyFolderKeepsSound(p: Plan, f: string, s: Sides)
    requires ValidAccount(s.source.account) && CanSelect(s.source.account, f)
    requires AllSound(p, s.source.account, s.world)
    ensures
      var s' := CopyFolder(JobFor(p, f), s).0;
      s'.source.account == s.source.account && AllSound(p, s.source.account, s'.world)
  {
    var job, src := JobFor(p, f), s.source.account;
    var s' := CopyFolder(job, s).0;
    CopyFolderElsewhere(job, s);
    ElsewhereKeepsDelim(p.mailbox, f, s.world, s'.world);
    assert ValidFolder(src.folders[f]);
    CopyFolderKeepsOne(p, f, s);
    hide CopyFolder, Sound, Elsewhere, ValidAccount;
    forall g | CanSelect(src, g) ensures Sound(p, src.folders[g], g, s'.world) {
      if g != f { OthersStaySound(p, src.folders[g], f, s.world, s'.world, g); }
    }
  }

  lemma CopyFolderKeepsOne(p: Plan, f: string, s: Sides)
    requires CanSelect(s.source.account, f) && ValidFolder(s.source.account.folders[f])
    requires s.world.target.account.delim != '%' && Sound(p, s.source.account.folders[f], f, s.world)
    ensures Sound(p, s.source.account.folders[f], f, CopyFolder(JobFor(p, f), s).0.world)
  {
    OpenKeepsSound(p, f, s);
    hide Open, Ready, Pending, CopyLoop, ValidFolder;
    var (s1, opening) := Open(JobFor(p, f), s);
    if opening.ToCopy? { LoopKeepsReady(JobFor(p, f), s1, EMPTY_FOLDER, opening.uids); }
  }

  lemma OthersStaySound(p: Plan, src: Folder, f: string, w: World, w': World, g: string)
    requires Elsewhere(p.mailbox, f, w, w') && g != f && Sound(p, src, g, w)
    ensures Sound(p, src, g, w')
  {
    hide Tied, RecOf, IsInferior;
  }

  /** Only the records and the folders of the target matter. */
  lemma SoundRespectsAnswers(p: Plan, src: Account, w: World, w': World)
    requires w'.target.account == w.target.account && w'.state == w.state
    ensures AllSound(p, src, w) <==> AllSound(p, src, w')
  {
    hide Tied, RecOf;
  }

  /** The final time stamp of the mailbox touches no folder record. */
  lemma NoteSyncKeepsSound(p: Plan, r: Run, src: Account)
    requires AllSound(p, src, r.sides.world)
    ensures AllSound(p, src, NoteSync(p, r).sides.world)
  {
    var w, w' := r.sides.world, NoteSync(p, r).sides.world;
    assert forall f :: RecOf(w'.state, p.mailbox, f) == RecOf(w.state, p.mailbox, f);
    hide Tied, RecOf;
  }

  lemma {:induction false} CopyEachKeepsSound(p: Plan, r: Run, es: seq<Entry>, src: Account)
    requires ValidAccount(src) && r.sides.source.account == src && AllSound(p, src, r.sides.world)
    requires forall e :: e in es && !e.IsNoSelect() ==> CanSelect(src, e.name)
    ensures CopyEach(p, r, es).0.sides.source.account == src && AllSound(p, src, CopyEach(p, r, es).0.sides.world)
    decreases es
  {
    if es == [] {
    } else {
      assert es[0] in es && forall e :: e in es[1..] ==> e in es;
      if es[0].IsNoSelect() {
        CopyEachKeepsSound(p, r, es[1..], src);
      } else {
        var job := JobFor(p, es[0].name);
        var (sides, err) := CopyFolder(job, r.sides);
        CopyFolderKeepsSound(p, es[0].name, r.sides);
        var r1 := r.(sides := sides);
        var (r2, ok) := Connect(p, Disconnect(p, r1).0);
        assert r2.sides.world.state == r1.sides.world.state
          && r2.sides.world.target.account == r1.sides.world.target.account;
        assert r2.sides.source.account == src;
        hide AllSound, CopyFolder, Connect, Disconnect, ValidAccount, CanSelect;
        SoundRespectsAnswers(p, src, r1.sides.world, r2.sides.world);
        if err == None {
          CopyEachKeepsSound(p, r1, es[1..], src);
        } else if ok {
          CopyEachKeepsSound(p, r2, es[1..], src);
        }
      }
    }
  }

  lemma CopyOpenedKeepsSound(p: Plan, r: Run)
    requires ValidAccount(r.sides.source.account) && AllSound(p, r.sides.source.account, r.sides.world)
    ensures
      var r' := CopyOpened(p, r).0;
      r'.sides.source.account == r.sides.source.account && AllSound(p, r.sides.source.account, r'.sides.world)
  {
    var src := r.sides.source.account;
    CopyFoldersEffect(p, r);
    CopyFoldersKeepsSound(p, r, src);
    var (r2, structured) := CopyFolders(p, r);
    if structured {
      var ans := p.source(r2.sides.source.tick);
      var r3 := SourceTick(r2);
      hide AllSound, CopyFolders, CopyEach, ValidAccount, ListReply, NoteSync;
      if ListReply(src, ans).Some? {
        ListedAreSelectable(src, ans);
        CopyEachKeepsSound(p, r3, ListReply(src, ans).value, src);
        var r4 := CopyEach(p, r3, ListReply(src, ans).value).0;
        NoteSyncKeepsSound(p, r4, src);
        NoteSyncKeepsSource(p, r4);
      }
    }
  }

  lemma CopyConnectedKeepsSound(p: Plan, r: Run)
    requires ValidAccount(r.sides.source.account) && AllSound(p, r.sides.source.account, r.sides.world)
    ensures
      var r' := CopyConnected(p, r).0;
      r'.sides.source.account == r.sides.source.account && AllSound(p, r.sides.source.account, r'.sides.world)
  {
    hide CopyOpened, AllSound, ValidAccount, Disconnect;
    CopyOpenedKeepsSound(p, r);
    DisconnectKeepsSound(p, CopyOpened(p, r).0, r.sides.source.account);
  }

  /** Agreement over a whole run: however many commands fail and wherever the context ends, after the
      copy of a mailbox the records of all its folders agree with the target. */
  lemma CopyMailboxKeepsSound(p: Plan, r: Run)
    requires ValidAccount(r.sides.source.account) && AllSound(p, r.sides.source.account, r.sides.world)
    ensures
      var r' := CopyMailbox(p, r).0;
      r'.sides.source.account == r.sides.source.account && AllSound(p, r.sides.source.account, r'.sides.world)
  {
    hide CopyConnected, AllSound, ValidAccount;
    var (r1, connected) := Connect(p, r);
    SoundRespectsAnswers(p, r.sides.source.account, r.sides.world, r1.sides.world);
    if connected { CopyConnectedKeepsSound(p, r1); }
  }

  /** Agreement has nothing to do with how folders will end. */
  lemma SoundIgnoresStops(p: Plan, stops: map<string, Ending>, src: Account, w: World)
    ensures AllSound(p, src, w) <==> AllSound(p.(stops := stops), src, w)
  {
    hide Tied, RecOf;
  }

  lemma StopsKeepSound(p: Plan, stops: map<string, Ending>, r: Run)
    requires ValidAccount(r.sides.source.account) && AllSound(p, r.sides.source.account, r.sides.world)
    ensures
      var r' := CopyConnected(p.(stops := stops), r).0;
      r'.sides.source.account == r.sides.source.account && AllSound(p, r.sides.source.account, r'.sides.world)
  {
    hide CopyConnected, AllSound, ValidAccount;
    var q := p.(stops := stops);
    SoundIgnoresStops(p, stops, r.sides.source.account, r.sides.world);
    CopyConnectedKeepsSound(q, r);
    SoundIgnoresStops(p, stops, r.sides.source.account, CopyConnected(q, r).0.sides.world);
  }

  lemma NoteSyncKeepsSource(p: Plan, r: Run)
    ensures NoteSync(p, r).sides.source == r.sides.source
  {
  }

  lemma DisconnectKeepsSound(p: Plan, r: Run, src: Account)
    requires AllSound(p, src, r.sides.world)
    ensures AllSound(p, src, Disconnect(p, r).0.sides.world)
    ensures Disconnect(p, r).0.sides.source.account == r.sides.source.account
  {
    hide AllSound;
    SoundRespectsAnswers(p, src, r.sides.world, Disconnect(p, r).0.sides.world);
  }

  // ---------------------------------------------------------------- with a reliable target

  /** No folder goes away or changes its attributes while others are copied, whatever fails. */
  lemma {:induction false} CopyEachKeepsAttributes(p: Plan, r: Run, es: seq<Entry>, g: string)
    requires r.sides.world.target.account.delim != '%' && g in r.sides.world.target.account.folders
    ensures
      var a, a' := r.sides.world.target.account, CopyEach(p, r, es).0.sides.world.target.account;
      g in a'.folders && a'.folders[g].attributes == a.folders[g].attributes && a'.delim == a.delim
    decreases es
  {
    hide CopyFolder, Round, Connect, Disconnect, Elsewhere;
    if es == [] {
    } else if es[0].IsNoSelect() {
      CopyEachKeepsAttributes(p, r, es[1..], g);
    } else {
      CopyEachByRounds(p, r, es);
      RoundKeepsAttributes(p, r, es[0].name, g);
      CopyEachKeepsAttributes(p, Round(p, r, es[0].name).0, es[1..], g);
    }
  }

  lemma RoundKeepsAttributes(p: Plan, r: Run, f: string, g: string)
    requires r.sides.world.target.account.delim != '%' && g in r.sides.world.target.account.folders
    ensures
      var a, a' := r.sides.world.target.account, Round(p, r, f).0.sides.world.target.account;
      g in a'.folders && a'.folders[g].attributes == a.folders[g].attributes && a'.delim == a.delim
  {
    hide CopyFolder, RecOf, IsInferior;
    CopyFolderElsewhere(JobFor(p, f), r.sides);
  }

  /** What `copyFolders` works on once both listings have arrived. */
  lemma CopyFoldersInSteps(p: Plan, r: Run)
    requires p.source(r.sides.source.tick).outcome.Acked? && p.target(r.sides.world.target.tick).outcome.Acked?
    ensures
      var target := r.sides.world.target;
      var sorted := SortByName(SourceEntries(p, r), false);
      && InOrder(sorted, false) && DistinctNames(sorted) && (forall e :: e in sorted <==> e in SourceEntries(p, r))
      && CopyFolders(p, r).1
      && CopyFolders(p, r).0.sides.world.target ==
         CreateMissing(p.target, Answered(target), target.account.folders.Keys, sorted).0
  {
    var src, w := r.sides.source.account, r.sides.world;
    var sa, ta := p.source(r.sides.source.tick), p.target(w.target.tick);
    var present := ListReply(w.target.account, ta).value;
    ListingNamesAll(src, sa);
    ListingNamesAll(w.target.account, ta);
    assert NamesOf(present) == w.target.account.folders.Keys;
    assert ListReply(src, sa).Some?;
    hide ListReply, InOrder, DistinctNames, CreateMissing, SortByName, NamesOf;
    SortIsSorted(SourceEntries(p, r), false);
    SortKeepsDistinct(SourceEntries(p, r), false);
  }

  lemma AlwaysMeansBetween(oracle: Oracle, from: nat, to: nat)
    requires AlwaysAcks(oracle)
    ensures AcksBetween(oracle, from, to)
  {
  }

  lemma GrownByNothing(a: Account, es: seq<Entry>)
    ensures GrownBy(a, a, es[..0]) && es[0..] == es
  {
  }

  /** With an acknowledging target `copyFolders` makes every selectable source folder selectable. */
  lemma CopyFoldersMakesSelectable(p: Plan, r: Run)
    requires FreshStart(p, r) && AlwaysAcks(p.target) && CopyFolders(p, r).1
    ensures forall f :: CanSelect(r.sides.source.account, f) ==>
              CanSelect(CopyFolders(p, r).0.sides.world.target.account, f)
  {
    hide CopyFolders, ListReply, SortByName, GrownBy, InOrder, DistinctNames, CreateMissing, Missing, AcksBetween,
      AlwaysAcks, RecOf;
    var src, target := r.sides.source.account, r.sides.world.target;
    var es := SourceEntries(p, r);
    var sorted := SortByName(es, false);
    ListingsArrived(p, r);
    ListedAreSelectable(src, p.source(r.sides.source.tick));
    CopyFoldersInSteps(p, r);
    GrownByNothing(target.account, sorted);
    AlwaysMeansBetween(p.target, target.tick + 1, target.tick + 1 + Missing(target.account.folders.Keys, sorted));
    AllMissingAreCreated(p.target, Answered(target), target.account, sorted, 0);
    var a' := CopyFolders(p, r).0.sides.world.target.account;
    forall f | CanSelect(src, f) ensures CanSelect(a', f) {
      var e :| e in es && !e.IsNoSelect() && e.name == f;
      GrownIsSelectable(a', target.account, sorted, e);
    }
  }

  lemma ListingsArrived(p: Plan, r: Run)
    requires CopyFolders(p, r).1
    ensures p.source(r.sides.source.tick).outcome.Acked? && p.target(r.sides.world.target.tick).outcome.Acked?
    ensures ListReply(r.sides.source.account, p.source(r.sides.source.tick)) == Some(SourceEntries(p, r))
  {
    hide CreateMissing, SortByName, NamesOf;
  }

  lemma GrownIsSelectable(a: Account, a0: Account, done: seq<Entry>, e: Entry)
    requires GrownBy(a, a0, done) && e in done && !e.IsNoSelect()
    requires a0.folders.Keys == {INBOX} && CanSelect(a0, INBOX)
    ensures CanSelect(a, e.name)
  {
  }

  /** A successful undisturbed run against an acknowledging target: every selectable source folder is complete
      and clean there. */
  lemma SuccessMeansComplete(p: Plan, r: Run, f: string)
    requires ValidAccount(r.sides.source.account) && FreshStart(p, r)
    requires Uncancelled(p) && AlwaysAcks(p.target) && CopyMailbox(p, r).1 == None
      && CanSelect(r.sides.source.account, f)
    ensures
      var w := CopyMailbox(p, r).0.sides.world;
      && Complete(JobFor(p, f), r.sides.source.account.folders[f], EMPTY_FOLDER, w)
      && Clean(JobFor(p, f), EMPTY_FOLDER, w)
  {
    SuccessMeansHome(p, r);
    var r1 := Connect(p, r).0;
    assert FreshStart(p, r1) && CopyFolders(p, r1).1;
    CopyFoldersMakesSelectable(p, r1);
    CopyFoldersEffect(p, r1);
    var r2 := CopyFolders(p, r1).0;
    var r3 := SourceTick(r2);
    var es := ListReply(r2.sides.source.account, p.source(r2.sides.source.tick)).value;
    hide CopyEach, CopyFolders, ListReply, Home, NothingForeign, ValidAccount;
    CopyEachKeepsAttributes(p, r3, es, f);
    assert Home(p, r.sides.source.account, f, CopyMailbox(p, r).0.sides.world);
    HomeAndSelectable(p, r.sides.source.account, f, CopyMailbox(p, r).0.sides.world);
  }

  lemma HomeAndSelectable(p: Plan, src: Account, f: string, w: World)
    requires f in src.folders && Home(p, src, f, w) && CanSelect(w.target.account, f) && AlwaysAcks(p.target)
    ensures Complete(JobFor(p, f), src.folders[f], EMPTY_FOLDER, w) && Clean(JobFor(p, f), EMPTY_FOLDER, w)
  {
    assert NoLostReplies(p.target);
  }
}
