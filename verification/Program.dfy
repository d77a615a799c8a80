/** The copy of a mailbox as a program of locked calls, in the form in which Tasks.dfy runs many of
    them at once, and the proof that alone it does what `MailboxRun.CopyMailbox` says. Between two
    calls a task works on nothing but its own connections, accounts and counters: the worlds that
    it carries along have a blank sync state. */
module Program {
  import opened Basics
  import opened Imap
  import opened SyncState
  import opened MessageCopy
  import opened Pipeline
  import opened FolderCopy
  import FolderTree
  import opened MailboxRun
  import opened Tasks

  /** How a task ends. */
  datatype End = End(run: Run, error: Option<MailboxError>)

  function Blank(w: World): World { w.(state := map[]) }

  function BlankSides(s: Sides): Sides { s.(world := Blank(s.world)) }

  function BlankRun(r: Run): Run { r.(sides := BlankSides(r.sides)) }

  // ---------------------------------------------------------------- messages

  /** `copyMessage`, going on with `k`. */
  function MessageProgram(ctx: Context, b: World, msg: Message, k: (World, bool) -> Prog<End>): Prog<End> {
    if msg.uid == 0 then k(b, false) else Ask(b, Op.IsSynced(ctx.folder, msg.uid), OnChecked(ctx, b, msg, k))
  }

  function OnChecked(ctx: Context, b: World, msg: Message, k: (World, bool) -> Prog<End>): Reply -> Prog<End> {
    (reply: Reply) =>
      if reply == Flag(true) || IsDeleted(msg.flags) then k(CountSkipped(b, 1), true)
      else if ctx.throttle.Some? && !ctx.throttle.value(b.throttled) then k(Throttled(ctx, b), false)
      else AppendProgram(ctx, Throttled(ctx, b), msg, k)
  }

  function AppendProgram(ctx: Context, b: World, msg: Message, k: (World, bool) -> Prog<End>): Prog<End> {
    var (b1, uid) := SendAppend(ctx, b, msg);
    if uid.None? then k(b1, false)
    else Ask(b1, Op.MarkSynced(ctx.folder, msg.uid), OnMarked(ctx, b1, msg, uid.value, k))
  }

  function OnMarked(ctx: Context, b: World, msg: Message, uid: uint32,
                    k: (World, bool) -> Prog<End>): Reply -> Prog<End> {
    (_: Reply) => Ask(b, Op.SetUIDMapping(ctx.folder, msg.uid, uid), OnLinked(b, msg, k))
  }

  function OnLinked(b: World, msg: Message, k: (World, bool) -> Prog<End>): Reply -> Prog<End> {
    (_: Reply) => k(CountCopied(b, |msg.body|), true)
  }

  lemma AppendRuns(ctx: Context, w: World, msg: Message, k: (World, bool) -> Prog<End>)
    ensures var (w', ok) := AppendMessage(ctx, w, msg);
            Reaches(ctx.mailbox, AppendProgram(ctx, Blank(w), msg, k), w.state, k(Blank(w'), ok), w'.state)
  {
    var mb := ctx.mailbox;
    var (w', ok) := AppendMessage(ctx, w, msg);
    var (w1, uid) := SendAppend(ctx, w, msg);
    assert SendAppend(ctx, Blank(w), msg) == (Blank(w1), uid);
    hide SendAppend, Apply, SyncState.Answer;
    ReachesItself(mb, k(Blank(w'), ok), w'.state);
    if uid.Some? {
      var c2 := Apply(w1.state, mb, Op.MarkSynced(ctx.folder, msg.uid));
      assert w'.state == Apply(c2, mb, Op.SetUIDMapping(ctx.folder, msg.uid, uid.value));
      ReachesByCall(mb, Blank(w1), Op.SetUIDMapping(ctx.folder, msg.uid, uid.value), OnLinked(Blank(w1), msg, k), c2,
                    k(Blank(w'), ok), w'.state);
      ReachesByCall(mb, Blank(w1), Op.MarkSynced(ctx.folder, msg.uid), OnMarked(ctx, Blank(w1), msg, uid.value, k),
                    w1.state, k(Blank(w'), ok), w'.state);
    }
  }

  lemma NoEffect(c: Contents, mb: string, op: Op)
    requires op.GetUnsyncedUIDs? || op.IsSynced?
    ensures Apply(c, mb, op) == c
  {
  }

  lemma MessageRuns(ctx: Context, w: World, msg: Message, k: (World, bool) -> Prog<End>)
    ensures var (w', ok) := CopyMessage(ctx, w, msg);
            Reaches(ctx.mailbox, MessageProgram(ctx, Blank(w), msg, k), w.state, k(Blank(w'), ok), w'.state)
  {
    hide AppendMessage, AppendProgram, RecOf, Apply;
    var (w', ok) := CopyMessage(ctx, w, msg);
    ReachesItself(ctx.mailbox, k(Blank(w'), ok), w'.state);
    if msg.uid != 0 {
      AppendRuns(ctx, Throttled(ctx, w), msg, k);
      var op := Op.IsSynced(ctx.folder, msg.uid);
      NoEffect(w.state, ctx.mailbox, op);
      assert SyncState.Answer(w.state, ctx.mailbox, op) == Flag(msg.uid in Record(ctx, w).synced);
      ReachesByCall(ctx.mailbox, Blank(w), op, OnChecked(ctx, Blank(w), msg, k), w.state, k(Blank(w'), ok), w'.state);
    }
  }

  /** A run of messages, `fails` failures having been counted before. */
  function MessagesProgram(ctx: Context, b: World, msgs: seq<Message>, fails: nat,
                           k: (World, nat) -> Prog<End>): Prog<End>
    decreases |msgs|, 1
  {
    if msgs == [] then k(b, fails) else MessageProgram(ctx, b, msgs[0], OnMessage(ctx, msgs, fails, k))
  }

  function OnMessage(ctx: Context, msgs: seq<Message>, fails: nat, k: (World, nat) -> Prog<End>)
    : (World, bool) -> Prog<End>
    requires msgs != []
    decreases |msgs|, 0
  {
    (b: World, ok: bool) => MessagesProgram(ctx, b, msgs[1..], fails + (if ok then 0 else 1), k)
  }

  /** One message of the run. */
  lemma StepRuns(ctx: Context, w: World, msgs: seq<Message>, fails: nat, k: (World, nat) -> Prog<End>)
    requires msgs != []
    ensures var (w1, ok) := CopyMessage(ctx, w, msgs[0]);
            Reaches(ctx.mailbox, MessagesProgram(ctx, Blank(w), msgs, fails, k), w.state,
                    MessagesProgram(ctx, Blank(w1), msgs[1..], fails + (if ok then 0 else 1), k), w1.state)
  {
    hide CopyMessage, MessageProgram, Reaches;
    MessageRuns(ctx, w, msgs[0], OnMessage(ctx, msgs, fails, k));
  }

  lemma {:induction false} MessagesRun(ctx: Context, w: World, msgs: seq<Message>, fails: nat,
                                       k: (World, nat) -> Prog<End>)
    ensures var (w', n) := CopyAll(ctx, w, msgs);
            Reaches(ctx.mailbox, MessagesProgram(ctx, Blank(w), msgs, fails, k), w.state, k(Blank(w'), fails + n),
                    w'.state)
    decreases msgs
  {
    hide CopyMessage, MessageProgram, Reaches, OnMessage;
    var (w', n) := CopyAll(ctx, w, msgs);
    if msgs == [] {
      ReachesItself(ctx.mailbox, k(Blank(w), fails), w.state);
    } else {
      var (w1, ok) := CopyMessage(ctx, w, msgs[0]);
      var fails1 := fails + (if ok then 0 else 1);
      StepRuns(ctx, w, msgs, fails, k);
      MessagesRun(ctx, w1, msgs[1..], fails1, k);
      assert fails1 + CopyAll(ctx, w1, msgs[1..]).1 == fails + n;
      hide CopyAll, MessagesProgram;
      ReachesTransitive(ctx.mailbox, MessagesProgram(ctx, Blank(w), msgs, fails, k), w.state,
                        MessagesProgram(ctx, Blank(w1), msgs[1..], fails1, k), w1.state, k(Blank(w'), fails + n),
                        w'.state);
    }
  }

  // ---------------------------------------------------------------- folders

  function PrepareProgram(job: FolderJob, b: Sides, info: Info, k: (Sides, Opening) -> Prog<End>): Prog<End>
    requires job.ctx.folder in b.source.account.folders
  {
    var f := job.ctx.folder;
    if info.messages == 0 then k(b, Over(None))
    else
      var b1 := b.(world := b.world.(target := Answered(b.world.target)));
      if SelectReply(b.world.target.account, f, job.ctx.target(b.world.target.tick)).None?
      then k(b1, Over(Some(SelectTargetFailed)))
      else Ask(b1.world, Op.SetUIDValidity(f, info.uidValidity), OnValidity(job, b1, k))
  }

  function OnValidity(job: FolderJob, b: Sides, k: (Sides, Opening) -> Prog<End>): Reply -> Prog<End>
    requires job.ctx.folder in b.source.account.folders
  {
    (_: Reply) =>
      var listed := FetchAllReply(SourceFolder(job, b), job.source(b.source.tick));
      var b1 := b.(source := Answered(b.source));
      if listed.None? then k(b1, Over(Some(FetchAllFailed)))
      else if listed.value == [] then k(b1, Over(None))
      else Ask(b1.world, Op.GetUnsyncedUIDs(job.ctx.folder, Uids(listed.value)), OnUnsynced(b1, |listed.value|, k))
  }

  function OnUnsynced(b: Sides, total: nat, k: (Sides, Opening) -> Prog<End>): Reply -> Prog<End> {
    (reply: Reply) =>
      if reply.Listed? && reply.uids != [] then k(b, ToCopy(reply.uids))
      else k(b.(world := CountSkipped(b.world, total)), Over(None))
  }

  function OpenProgram(job: FolderJob, b: Sides, k: (Sides, Opening) -> Prog<End>): Prog<End> {
    var info := SelectReply(b.source.account, job.ctx.folder, job.source(b.source.tick));
    var b1 := b.(source := Answered(b.source));
    if info.None? then k(b1, Over(Some(SelectSourceFailed)))
    else
      var (target, ok) := Ensure(job.ctx.target, b.world.target, job.ctx.folder);
      var b2 := b1.(world := b1.world.(target := target));
      if !ok then k(b2, Over(Some(EnsureFailed))) else PrepareProgram(job, b2, info.value, k)
  }

  lemma PrepareRuns(job: FolderJob, s: Sides, info: Info, k: (Sides, Opening) -> Prog<End>)
    requires job.ctx.folder in s.source.account.folders
    ensures var (s', opening) := Prepare(job, s, info);
            Reaches(job.ctx.mailbox, PrepareProgram(job, BlankSides(s), info, k), s.world.state,
                    k(BlankSides(s'), opening), s'.world.state)
  {
    hide FetchAllReply, Apply, RecOf, Outside;
    var mb, f := job.ctx.mailbox, job.ctx.folder;
    var (s', opening) := Prepare(job, s, info);
    var goal := k(BlankSides(s'), opening);
    ReachesItself(mb, goal, s'.world.state);
    if info.messages != 0 && SelectReply(s.world.target.account, f, job.ctx.target(s.world.target.tick)).Some? {
      var b1 := BlankSides(s.(world := s.world.(target := Answered(s.world.target))));
      var op1 := Op.SetUIDValidity(f, info.uidValidity);
      var c1 := Apply(s.world.state, mb, op1);
      var listed := FetchAllReply(SourceFolder(job, s), job.source(s.source.tick));
      if listed.Some? && listed.value != [] {
        var op2 := Op.GetUnsyncedUIDs(f, Uids(listed.value));
        var b2 := b1.(source := Answered(b1.source));
        var unsynced := Outside(Uids(listed.value), RecOf(c1, mb, f).synced);
        assert SyncState.Answer(c1, mb, op2) == Listed(unsynced);
        NoEffect(c1, mb, op2);
        if unsynced == [] {
          assert opening == Over(None) && BlankSides(s') == b2.(world := CountSkipped(b2.world, |listed.value|));
        } else {
          assert opening == ToCopy(unsynced) && BlankSides(s') == b2;
        }
        ReachesByCall(mb, b2.world, op2, OnUnsynced(b2, |listed.value|, k), c1, goal, s'.world.state);
      }
      hide SyncState.Answer;
      ReachesByCall(mb, b1.world, op1, OnValidity(job, b1, k), s.world.state, goal, s'.world.state);
    }
  }

  lemma OpenRuns(job: FolderJob, s: Sides, k: (Sides, Opening) -> Prog<End>)
    ensures var (s', opening) := Open(job, s);
            Reaches(job.ctx.mailbox, OpenProgram(job, BlankSides(s), k), s.world.state, k(BlankSides(s'), opening),
                    s'.world.state)
  {
    hide Ensure, Prepare, PrepareProgram;
    var (s', opening) := Open(job, s);
    ReachesItself(job.ctx.mailbox, k(BlankSides(s'), opening), s'.world.state);
    var info := SelectReply(s.source.account, job.ctx.folder, job.source(s.source.tick));
    if info.Some? {
      var (target, ok) := Ensure(job.ctx.target, s.world.target, job.ctx.folder);
      if ok { PrepareRuns(job, Sides(s.world.(target := target), Answered(s.source)), info.value, k); }
    }
  }

  /** The pipeline. Its fetches touch the source only, so of its two processes the copier alone
      makes calls: those of the processed messages, in order. */
  function LoopProgram(job: FolderJob, b: Sides, uids: seq<uint32>,
                       k: (Sides, Option<FolderError>) -> Prog<End>): Prog<End>
    requires job.ctx.folder in b.source.account.folders
  {
    var env := EnvOf(job, b, uids);
    MessagesProgram(job.ctx, b.world, Processed(env, job.ending), 0, OnCopied(job, b, env, k))
  }

  function OnCopied(job: FolderJob, b: Sides, env: Env, k: (Sides, Option<FolderError>) -> Prog<End>)
    : (World, nat) -> Prog<End>
  {
    (w: World, fails: nat) =>
      var b1 := Sides(w, b.source.(tick := b.source.tick + Requests(env, job.ending)));
      var failure := Verdict(Noted(env, job.ending), fails);
      if failure.Some? then k(b1, Some(LoopFailed(failure.value)))
      else Ask(w, Op.UpdateLastSync(job.ctx.folder, job.now), OnStamped(b1, k))
  }

  function OnStamped(b: Sides, k: (Sides, Option<FolderError>) -> Prog<End>): Reply -> Prog<End> {
    (_: Reply) => k(b, None)
  }

  lemma LoopRuns(job: FolderJob, s: Sides, uids: seq<uint32>, k: (Sides, Option<FolderError>) -> Prog<End>)
    requires job.ctx.folder in s.source.account.folders
    ensures var (s', err) := CopyLoop(job, s, uids);
            Reaches(job.ctx.mailbox, LoopProgram(job, BlankSides(s), uids, k), s.world.state, k(BlankSides(s'), err),
                    s'.world.state)
  {
    hide Upcoming, Delivered, CopyAll, Apply, FetchBreaks, Processed, Requests, Noted, MessagesProgram;
    var mb, env := job.ctx.mailbox, EnvOf(job, s, uids);
    var msgs := Processed(env, job.ending);
    var (w, fails) := CopyAll(job.ctx, s.world, msgs);
    var (s', err) := CopyLoop(job, s, uids);
    var b1 := Sides(Blank(w), s.source.(tick := s.source.tick + Requests(env, job.ending)));
    MessagesRun(job.ctx, s.world, msgs, 0, OnCopied(job, BlankSides(s), env, k));
    ReachesItself(mb, k(BlankSides(s'), err), s'.world.state);
    if Verdict(Noted(env, job.ending), fails) == None {
      ReachesByCall(mb, Blank(w), Op.UpdateLastSync(job.ctx.folder, job.now), OnStamped(b1, k), w.state,
                    k(BlankSides(s'), err), s'.world.state);
    }
    ReachesTransitive(mb, LoopProgram(job, BlankSides(s), uids, k), s.world.state,
                      OnCopied(job, BlankSides(s), env, k)(Blank(w), fails), w.state, k(BlankSides(s'), err),
                      s'.world.state);
  }

  function FolderProgram(job: FolderJob, b: Sides, k: (Sides, Option<FolderError>) -> Prog<End>): Prog<End> {
    OpenProgram(job, b, OnOpened(job, k))
  }

  function OnOpened(job: FolderJob, k: (Sides, Option<FolderError>) -> Prog<End>): (Sides, Opening) -> Prog<End> {
    (b: Sides, opening: Opening) =>
      if opening.Over? then k(b, opening.error)
      else if job.ctx.folder !in b.source.account.folders then k(b, Some(SelectSourceFailed))
      else LoopProgram(job, b, opening.uids, k)
  }

  lemma FolderRuns(job: FolderJob, s: Sides, k: (Sides, Option<FolderError>) -> Prog<End>)
    ensures var (s', err) := CopyFolder(job, s);
            Reaches(job.ctx.mailbox, FolderProgram(job, BlankSides(s), k), s.world.state, k(BlankSides(s'), err),
                    s'.world.state)
  {
    hide Open, OpenProgram, CopyLoop, LoopProgram, Reaches;
    var (s1, opening) := Open(job, s);
    var (s', err) := CopyFolder(job, s);
    OpenRuns(job, s, OnOpened(job, k));
    ReachesItself(job.ctx.mailbox, k(BlankSides(s'), err), s'.world.state);
    if opening.ToCopy? && job.ctx.folder in s1.source.account.folders { LoopRuns(job, s1, opening.uids, k); }
    ReachesTransitive(job.ctx.mailbox, FolderProgram(job, BlankSides(s), k), s.world.state,
                      OnOpened(job, k)(BlankSides(s1), opening), s1.world.state, k(BlankSides(s'), err),
                      s'.world.state);
  }

  // ---------------------------------------------------------------- the mailbox

  /** The loop over the folders, `errors` having been counted before. */
  function EachProgram(p: Plan, b: Run, es: seq<Entry>, errors: nat, k: (Run, nat, bool) -> Prog<End>): Prog<End>
    decreases |es|, 1
  {
    if es == [] then k(b, errors, true)
    else if es[0].IsNoSelect() then EachProgram(p, b, es[1..], errors, k)
    else FolderProgram(JobFor(p, es[0].name), b.sides, OnFolder(p, b, es, errors, k))
  }

  function OnFolder(p: Plan, b: Run, es: seq<Entry>, errors: nat, k: (Run, nat, bool) -> Prog<End>)
    : (Sides, Option<FolderError>) -> Prog<End>
    requires es != []
    decreases |es|, 0
  {
    (sides: Sides, err: Option<FolderError>) =>
      var b1 := b.(sides := sides);
      if err == None then EachProgram(p, b1, es[1..], errors, k)
      else
        var (b2, ok) := Connect(p, Disconnect(p, b1).0);
        if !ok then k(b2, errors + 1, false) else EachProgram(p, b2, es[1..], errors + 1, k)
  }

  /** One round of that loop. */
  lemma RoundRuns(p: Plan, r: Run, es: seq<Entry>, errors: nat, k: (Run, nat, bool) -> Prog<End>)
    requires es != [] && !es[0].IsNoSelect()
    ensures
      var (r1, failed, connected) := Round(p, r, es[0].name);
      var q := if !connected then k(BlankRun(r1), errors + 1, false)
               else EachProgram(p, BlankRun(r1), es[1..], errors + (if failed then 1 else 0), k);
      Reaches(p.mailbox, EachProgram(p, BlankRun(r), es, errors, k), r.sides.world.state, q, r1.sides.world.state)
  {
    var (sides, err) := CopyFolder(JobFor(p, es[0].name), r.sides);
    var (r2, ok) := Connect(p, Disconnect(p, r.(sides := sides)).0);
    assert Connect(p, Disconnect(p, BlankRun(r.(sides := sides))).0) == (BlankRun(r2), ok);
    assert r2.sides.world.state == sides.world.state;
    hide CopyFolder, FolderProgram, Connect, Disconnect, Reaches;
    FolderRuns(JobFor(p, es[0].name), r.sides, OnFolder(p, BlankRun(r), es, errors, k));
  }

  lemma {:induction false} EachRuns(p: Plan, r: Run, es: seq<Entry>, errors: nat, k: (Run, nat, bool) -> Prog<End>)
    ensures var (r', n, still) := CopyEach(p, r, es);
            Reaches(p.mailbox, EachProgram(p, BlankRun(r), es, errors, k), r.sides.world.state,
                    k(BlankRun(r'), errors + n, still), r'.sides.world.state)
    decreases es
  {
    hide Reaches, CopyFolder, FolderProgram, Connect, Disconnect, Round, OnFolder;
    var (r', n, still) := CopyEach(p, r, es);
    if es == [] {
      ReachesItself(p.mailbox, k(BlankRun(r), errors, true), r.sides.world.state);
    } else if es[0].IsNoSelect() {
      EachRuns(p, r, es[1..], errors, k);
    } else {
      CopyEachByRounds(p, r, es);
      RoundRuns(p, r, es, errors, k);
      hide CopyEach, EachProgram;
      var (r1, failed, connected) := Round(p, r, es[0].name);
      if connected {
        var errors1 := errors + (if failed then 1 else 0);
        EachRuns(p, r1, es[1..], errors1, k);
        ReachesTransitive(p.mailbox, EachProgram(p, BlankRun(r), es, errors, k), r.sides.world.state,
                          EachProgram(p, BlankRun(r1), es[1..], errors1, k), r1.sides.world.state,
                          k(BlankRun(r'), errors + n, still), r'.sides.world.state);
      }
    }
  }

  /** `copy` of the whole mailbox. */
  function MailboxProgram(p: Plan, b: Run): Prog<End> {
    var (b1, connected) := Connect(p, b);
    if !connected then Done(End(b1, Some(ConnectFailed)))
    else
      var (b2, structured) := CopyFolders(p, b1);
      if !structured then Done(End(Disconnect(p, b2).0, Some(FolderListFailed)))
      else
        var listed := ListReply(b2.sides.source.account, p.source(b2.sides.source.tick));
        var b3 := SourceTick(b2);
        if listed.None? then Done(End(Disconnect(p, b3).0, Some(FolderListFailed)))
        else EachProgram(p, b3, listed.value, 0, OnAll(p))
  }

  function OnAll(p: Plan): (Run, nat, bool) -> Prog<End> {
    (b: Run, errors: nat, still: bool) => Ask(b.sides.world, Op.UpdateMailboxLastSync(p.now),
                                              OnNoted(p, b, errors, still))
  }

  function OnNoted(p: Plan, b: Run, errors: nat, still: bool): Reply -> Prog<End> {
    (_: Reply) =>
      var (b1, ok) := if still then Disconnect(p, b) else (b, true);
      Done(End(b1, if errors > 0 then Some(FoldersFailed(errors)) else if !ok then Some(DisconnectFailed) else None))
  }

  lemma BlankFolders(p: Plan, r: Run)
    ensures var (r', ok) := CopyFolders(p, r);
            CopyFolders(p, BlankRun(r)) == (BlankRun(r'), ok) && r'.sides.world.state == r.sides.world.state
  {
    hide ListReply, FolderTree.CreateMissing, FolderTree.SortByName;
  }

  /** The program alone does what `CopyMailbox` says. */
  lemma MailboxRuns(p: Plan, r: Run)
    ensures var (r', err) := CopyMailbox(p, r);
            Reaches(p.mailbox, MailboxProgram(p, BlankRun(r)), r.sides.world.state, Done(End(BlankRun(r'), err)),
                    r'.sides.world.state)
  {
    hide CopyFolders, CopyEach, EachProgram, ListReply, Apply;
    var (r', err) := CopyMailbox(p, r);
    var goal := Done(End(BlankRun(r'), err));
    ReachesItself(p.mailbox, goal, r'.sides.world.state);
    var (r1, connected) := Connect(p, r);
    BlankFolders(p, r1);
    var (r2, structured) := CopyFolders(p, r1);
    var listed := ListReply(r2.sides.source.account, p.source(r2.sides.source.tick));
    if connected && structured && listed.Some? {
      var r3 := SourceTick(r2);
      var (r4, errors, still) := CopyEach(p, r3, listed.value);
      EachRuns(p, r3, listed.value, 0, OnAll(p));
      ReachesByCall(p.mailbox, Blank(r4.sides.world), Op.UpdateMailboxLastSync(p.now),
                    OnNoted(p, BlankRun(r4), errors, still),
                    r4.sides.world.state, goal, r'.sides.world.state);
      ReachesTransitive(p.mailbox, MailboxProgram(p, BlankRun(r)), r.sides.world.state,
                        OnAll(p)(BlankRun(r4), errors, still), r4.sides.world.state, goal, r'.sides.world.state);
    }
  }
}
