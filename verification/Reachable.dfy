/** Every state that a schedule of the parallel copy can reach: at each call of each task, whatever
    has failed and wherever the context ends, the sync records agree with the target that the task
    has in its hands (internal/mailbox/copy.go:80-321, internal/runner/runner.go:217-247). */
module Reachable {
  import opened Basics
  import opened Imap
  import opened SyncState
  import opened MessageCopy
  import opened Agreement
  import opened Pipeline
  import opened FolderCopy
  import opened MailboxRun
  import opened Tasks
  import opened Program

  /** The folder whose copy is about to make this call. The records agree with the target, and all
      synced UIDs are linked, except for the one that the call itself is going to link. */
  ghost predicate AtCall(p: Plan, src: Folder, f: string, w: World, op: Op) {
    var r := Record(JobFor(p, f).ctx, w);
    && Agrees(JobFor(p, f).ctx, src, EMPTY_FOLDER, w) && r.uidValidity in {0, src.uidValidity}
    && (if op.SetUIDMapping? then op.source !in r.uidMap && r.synced == r.uidMap.Keys + {op.source} else Settled(r))
  }

  /** The calls made while a folder is being copied. */
  predicate IsOfFolder(op: Op) {
    || op.SetUIDValidity? || op.GetUnsyncedUIDs? || op.IsSynced? || op.MarkSynced? || op.SetUIDMapping?
    || op.UpdateLastSync?
  }

  /** The other folders of the source, whose records agree with the target. */
  ghost predicate OthersSound(p: Plan, src: Account, f: string, w: World) {
    forall g :: CanSelect(src, g) && g != f ==> Sound(p, src.folders[g], g, w)
  }

  /** A task standing at `q` with the shared records `c`. */
  ghost predicate Fine(p: Plan, src: Account, q: Prog<End>, c: Contents) {
    match q
    case Done(end) => AllSound(p, src, end.run.sides.world.(state := c))
    case Ask(own, op, _) =>
      var w := own.(state := c);
      if !IsOfFolder(op) then AllSound(p, src, w)
      else
        && w.target.account.delim != '%'
        && CanSelect(src, op.folder) && AtCall(p, src.folders[op.folder], op.folder, w, op)
        && OthersSound(p, src, op.folder, w)
  }

  /** It stands so after any number of its calls. */
  ghost predicate Safe(p: Plan, src: Account, q: Prog<End>, c: Contents) {
    forall n: nat :: Fine(p, src, Advance(p.mailbox, q, c, n).0, Advance(p.mailbox, q, c, n).1)
  }

  lemma SafeDone(p: Plan, src: Account, q: Prog<End>, c: Contents)
    requires q.Done? && Fine(p, src, q, c)
    ensures Safe(p, src, q, c)
  {
    hide Fine;
    forall n: nat ensures Advance(p.mailbox, q, c, n) == (q, c) { DoneStays(p.mailbox, q, c, n); }
  }

  lemma SafeCall(p: Plan, src: Account, own: World, op: Op, next: Reply -> Prog<End>, c: Contents)
    requires Fine(p, src, Ask(own, op, next), c)
    requires Safe(p, src, next(SyncState.Answer(c, p.mailbox, op)), Apply(c, p.mailbox, op))
    ensures Safe(p, src, Ask(own, op, next), c)
  {
    hide Fine, Apply, SyncState.Answer;
    var q, q1, c1 := Ask(own, op, next), next(SyncState.Answer(c, p.mailbox, op)), Apply(c, p.mailbox, op);
    forall n: nat ensures Fine(p, src, Advance(p.mailbox, q, c, n).0, Advance(p.mailbox, q, c, n).1) {
      if n == 0 {
        assert Advance(p.mailbox, q, c, 0) == (q, c);
      } else {
        assert Advance(p.mailbox, q, c, n) == Advance(p.mailbox, q1, c1, n - 1);
        assert Fine(p, src, Advance(p.mailbox, q1, c1, n - 1).0, Advance(p.mailbox, q1, c1, n - 1).1);
      }
    }
  }

  // ---------------------------------------------------------------- messages

  /** Between the messages of a folder. */
  ghost predicate Between(p: Plan, src: Account, f: string, w: World) {
    && w.target.account.delim != '%' && CanSelect(src, f)
    && Ready(JobFor(p, f), src.folders[f], EMPTY_FOLDER, w) && OthersSound(p, src, f, w)
  }

  lemma OthersSoundElsewhere(p: Plan, src: Account, f: string, w: World, w': World)
    requires OthersSound(p, src, f, w) && Elsewhere(p.mailbox, f, w, w')
    ensures OthersSound(p, src, f, w') && w'.target.account.delim == w.target.account.delim
  {
    ElsewhereKeepsDelim(p.mailbox, f, w, w');
    hide Sound, Elsewhere, CanSelect;
    forall g | CanSelect(src, g) && g != f ensures Sound(p, src.folders[g], g, w') {
      OthersStaySound(p, src.folders[g], f, w, w', g);
    }
  }

  lemma FineBetween(p: Plan, src: Account, f: string, w: World, op: Op, next: Reply -> Prog<End>)
    requires Between(p, src, f, w) && IsOfFolder(op) && !op.SetUIDMapping? && op.folder == f
    ensures Fine(p, src, Ask(Blank(w), op, next), w.state)
  {
    hide Agrees, OthersSound, Record;
    assert Blank(w).(state := w.state) == w;
  }

  /** The two calls after an acknowledged append. */
  lemma FineWhileRecording(p: Plan, src: Account, f: string, w: World, msg: Message, next: Reply -> Prog<End>)
    requires Between(p, src, f, w) && Faithful(src.folders[f], msg)
    requires IsAcknowledged(JobFor(p, f).ctx, w, msg)
    ensures
      var ctx := JobFor(p, f).ctx;
      var (w1, uid) := SendAppend(ctx, Throttled(ctx, w), msg);
      var w2 := RecordSynced(ctx, w1, msg.uid);
      && uid.Some? && Between(p, src, f, w1)
      && Fine(p, src, Ask(Blank(w1), Op.SetUIDMapping(f, msg.uid, uid.value), next), w2.state)
  {
    var ctx := JobFor(p, f).ctx;
    var (w1, uid) := SendAppend(ctx, Throttled(ctx, w), msg);
    var w2 := RecordSynced(ctx, w1, msg.uid);
    AcknowledgedMoments(ctx, src.folders[f], EMPTY_FOLDER, w, msg);
    AcknowledgedRecord(ctx, w, msg);
    assert Record(ctx, w1) == Record(ctx, w);
    RecordsAfter(ctx, w1, msg.uid, uid.value, 0);
    SendElsewhere(ctx, w, msg);
    MarkElsewhere(ctx, w1, msg.uid);
    hide Append, SendAppend, IsAcknowledged, CopyMessage, Apply, RecOf, Record, Agrees, Elsewhere, Sound, Throttled;
    OthersSoundElsewhere(p, src, f, w, w1);
    OthersSoundElsewhere(p, src, f, w1, w2);
    assert Blank(w1).(state := w2.state) == w2;
  }

  lemma SendElsewhere(ctx: Context, w: World, msg: Message)
    ensures Elsewhere(ctx.mailbox, ctx.folder, w, SendAppend(ctx, Throttled(ctx, w), msg).0)
  {
  }

  lemma MarkElsewhere(ctx: Context, w: World, source: uint32)
    ensures Elsewhere(ctx.mailbox, ctx.folder, w, RecordSynced(ctx, w, source))
  {
    ApplyElsewhere(w.state, ctx.mailbox, Op.MarkSynced(ctx.folder, source), ctx.folder);
    hide Apply, RecOf;
  }

  lemma AppendSafe(p: Plan, src: Account, f: string, w: World, msg: Message, k: (World, bool) -> Prog<End>)
    requires Between(p, src, f, w) && Faithful(src.folders[f], msg) && Attempted(JobFor(p, f).ctx, w, msg)
    requires var (w', ok) := CopyMessage(JobFor(p, f).ctx, w, msg); Safe(p, src, k(Blank(w'), ok), w'.state)
    ensures var ctx := JobFor(p, f).ctx; Safe(p, src, AppendProgram(ctx, Throttled(ctx, Blank(w)), msg, k), w.state)
  {
    var ctx := JobFor(p, f).ctx;
    var w0 := Throttled(ctx, w);
    var (w1, uid) := SendAppend(ctx, w0, msg);
    assert SendAppend(ctx, Blank(w0), msg) == (Blank(w1), uid) && w1.state == w.state;
    assert Throttled(ctx, Blank(w)) == Blank(w0);
    assert CopyMessage(ctx, w, msg) == AppendMessage(ctx, w0, msg);
    if uid.Some? {
      FineWhileRecording(p, src, f, w, msg, OnLinked(Blank(w1), msg, k));
      hide SendAppend, Fine, Safe, Between, CopyMessage, Apply, SyncState.Answer, Throttled, Attempted;
      var w2 := RecordSynced(ctx, w1, msg.uid);
      var w3 := RecordMapping(ctx, w2, msg.uid, uid.value);
      var op1, op2 := Op.MarkSynced(f, msg.uid), Op.SetUIDMapping(f, msg.uid, uid.value);
      assert OnLinked(Blank(w1), msg, k)(SyncState.Answer(w2.state, p.mailbox, op2)) ==
        k(Blank(CountCopied(w3, |msg.body|)), true);
      SafeCall(p, src, Blank(w1), op2, OnLinked(Blank(w1), msg, k), w2.state);
      FineBetween(p, src, f, w1, op1, OnMarked(ctx, Blank(w1), msg, uid.value, k));
      SafeCall(p, src, Blank(w1), op1, OnMarked(ctx, Blank(w1), msg, uid.value, k), w1.state);
    }
  }

  /** One message, whatever becomes of it. */
  lemma MessageSafe(p: Plan, src: Account, f: string, w: World, msg: Message, k: (World, bool) -> Prog<End>)
    requires Between(p, src, f, w) && Faithful(src.folders[f], msg)
    requires var (w', ok) := CopyMessage(JobFor(p, f).ctx, w, msg); Safe(p, src, k(Blank(w'), ok), w'.state)
    ensures Safe(p, src, MessageProgram(JobFor(p, f).ctx, Blank(w), msg, k), w.state)
  {
    var ctx := JobFor(p, f).ctx;
    if Attempted(ctx, w, msg) { AppendSafe(p, src, f, w, msg, k); }
    hide Safe, Fine, Between, AppendMessage, AppendProgram, RecOf, Apply;
    if msg.uid != 0 {
      var op := Op.IsSynced(f, msg.uid);
      NoEffect(w.state, p.mailbox, op);
      assert SyncState.Answer(w.state, p.mailbox, op) == Flag(msg.uid in Record(ctx, w).synced);
      FineBetween(p, src, f, w, op, OnChecked(ctx, Blank(w), msg, k));
      SafeCall(p, src, Blank(w), op, OnChecked(ctx, Blank(w), msg, k), w.state);
    }
  }

  lemma MessageStaysBetween(p: Plan, src: Account, f: string, w: World, msg: Message)
    requires Between(p, src, f, w) && Faithful(src.folders[f], msg)
    ensures Between(p, src, f, CopyMessage(JobFor(p, f).ctx, w, msg).0)
  {
    var ctx := JobFor(p, f).ctx;
    MessageKeepsAgreement(ctx, src.folders[f], EMPTY_FOLDER, w, msg);
    MessageGrowsRecord(ctx, w, msg);
    MessageElsewhere(ctx, w, msg);
    hide CopyMessage, Elsewhere, Record, Agrees, Settled, Moments;
    OthersSoundElsewhere(p, src, f, w, CopyMessage(ctx, w, msg).0);
  }

  lemma {:induction false} MessagesSafe(p: Plan, src: Account, f: string, w: World, msgs: seq<Message>, fails: nat,
                                        k: (World, nat) -> Prog<End>)
    requires Between(p, src, f, w) && AllFaithful(src.folders[f], msgs)
    requires var (w', n) := CopyAll(JobFor(p, f).ctx, w, msgs); Safe(p, src, k(Blank(w'), fails + n), w'.state)
    ensures Safe(p, src, MessagesProgram(JobFor(p, f).ctx, Blank(w), msgs, fails, k), w.state)
    decreases msgs
  {
    assert f in src.folders;
    hide CopyMessage, MessageProgram, Between, Safe, Faithful;
    var ctx := JobFor(p, f).ctx;
    if msgs == [] {
    } else {
      var (w1, ok) := CopyMessage(ctx, w, msgs[0]);
      var fails1 := fails + (if ok then 0 else 1);
      assert Faithful(src.folders[f], msgs[0]) && AllFaithful(src.folders[f], msgs[1..]);
      MessageStaysBetween(p, src, f, w, msgs[0]);
      assert fails1 + CopyAll(ctx, w1, msgs[1..]).1 == fails + CopyAll(ctx, w, msgs).1;
      MessagesSafe(p, src, f, w1, msgs[1..], fails1, k);
      MessageSafe(p, src, f, w, msgs[0], OnMessage(ctx, msgs, fails, k));
    }
  }

  // ---------------------------------------------------------------- folders

  lemma RunStaysBetween(p: Plan, f: string, s: Sides, uids: seq<uint32>)
    requires f in s.source.account.folders && Between(p, s.source.account, f, s.world)
    ensures
      var msgs := Processed(EnvOf(JobFor(p, f), s, uids), JobFor(p, f).ending);
      && AllFaithful(s.source.account.folders[f], msgs)
      && Between(p, s.source.account, f, CopyAll(JobFor(p, f).ctx, s.world, msgs).0)
  {
    var job, src := JobFor(p, f), s.source.account;
    var env := EnvOf(job, s, uids);
    var msgs := Processed(env, job.ending);
    DeliversSource(env, src.folders[f], job.source, s.source.tick, 0);
    FaithfulPrefix(src.folders[f], Delivered(env), Reached(env, job.ending));
    hide Elsewhere, Upcoming, RecOf, Tied, Sound;
    PartOfRunIsReady(job, src.folders[f], EMPTY_FOLDER, env, s.source.tick, s.world, Reached(env, job.ending));
    CopyAllElsewhere(job.ctx, s.world, msgs);
    OthersSoundElsewhere(p, src, f, s.world, CopyAll(job.ctx, s.world, msgs).0);
  }

  /** The pipeline, wherever it ends. */
  lemma LoopSafe(p: Plan, f: string, s: Sides, uids: seq<uint32>, k: (Sides, Option<FolderError>) -> Prog<End>)
    requires f in s.source.account.folders && Between(p, s.source.account, f, s.world)
    requires var (s', err) := CopyLoop(JobFor(p, f), s, uids);
             Safe(p, s.source.account, k(BlankSides(s'), err), s'.world.state)
    ensures Safe(p, s.source.account, LoopProgram(JobFor(p, f), BlankSides(s), uids, k), s.world.state)
  {
    hide Safe, Between, Processed, Requests, Noted, CopyAll, Apply, MessagesProgram, AllFaithful;
    var job, src := JobFor(p, f), s.source.account;
    var env := EnvOf(job, s, uids);
    var msgs := Processed(env, job.ending);
    var (w, fails) := CopyAll(job.ctx, s.world, msgs);
    var b1 := Sides(Blank(w), s.source.(tick := s.source.tick + Requests(env, job.ending)));
    var op := Op.UpdateLastSync(f, p.now);
    RunStaysBetween(p, f, s, uids);
    if Verdict(Noted(env, job.ending), fails) == None {
      FineBetween(p, src, f, w, op, OnStamped(b1, k));
      SafeCall(p, src, Blank(w), op, OnStamped(b1, k), w.state);
    }
    MessagesSafe(p, src, f, s.world, msgs, 0, OnCopied(job, BlankSides(s), env, k));
  }

  lemma SoundAndSelectable(p: Plan, src: Account, f: string, w: World)
    requires AllSound(p, src, w) && CanSelect(src, f) && CanSelect(w.target.account, f)
    ensures Between(p, src, f, w)
  {
    assert Sound(p, src.folders[f], f, w);
    if Pending(JobFor(p, f), w) { PendingIsReady(JobFor(p, f), src.folders[f], w); }
    hide Sound, Ready, Pending;
  }

  lemma ValidityStaysBetween(p: Plan, src: Account, f: string, w: World)
    requires Between(p, src, f, w)
    ensures
      Between(p, src, f, w.(state := Apply(w.state, p.mailbox, Op.SetUIDValidity(f, src.folders[f].uidValidity))))
  {
    var op := Op.SetUIDValidity(f, src.folders[f].uidValidity);
    var w' := w.(state := Apply(w.state, p.mailbox, op));
    RevalidateKeeps(JobFor(p, f), src.folders[f], EMPTY_FOLDER, w);
    ApplyElsewhere(w.state, p.mailbox, op, f);
    hide Apply, RecOf, Ready, Sound;
    SameAccountElsewhere(p.mailbox, f, w, w');
    OthersSoundElsewhere(p, src, f, w, w');
  }

  lemma FineSinceValidity(p: Plan, src: Account, f: string, w: World, next: Reply -> Prog<End>)
    requires Between(p, src, f, w)
    ensures Fine(p, src, Ask(Blank(w), Op.SetUIDValidity(f, src.folders[f].uidValidity), next), w.state)
  {
    FineBetween(p, src, f, w, Op.SetUIDValidity(f, src.folders[f].uidValidity), next);
  }

  /** The last of the opening steps: the UIDs listed by the source, less the synced ones. */
  lemma UnsyncedSafe(p: Plan, src: Account, f: string, s: Sides, uids: seq<uint32>, total: nat,
                     k: (Sides, Opening) -> Prog<End>)
    requires Between(p, src, f, s.world)
    requires
      var unsynced := Outside(uids, Record(JobFor(p, f).ctx, s.world).synced);
      var s' := if unsynced == [] then s.(world := CountSkipped(s.world, total)) else s;
      Safe(p, src, k(BlankSides(s'), if unsynced == [] then Over(None) else ToCopy(unsynced)), s.world.state)
    ensures Safe(p, src, Ask(Blank(s.world), Op.GetUnsyncedUIDs(f, uids), OnUnsynced(BlankSides(s), total, k)),
                 s.world.state)
  {
    hide Safe, Between, Outside, RecOf, Apply;
    var op := Op.GetUnsyncedUIDs(f, uids);
    FineBetween(p, src, f, s.world, op, OnUnsynced(BlankSides(s), total, k));
    NoEffect(s.world.state, p.mailbox, op);
    var unsynced := Outside(uids, Record(JobFor(p, f).ctx, s.world).synced);
    var s' := if unsynced == [] then s.(world := CountSkipped(s.world, total)) else s;
    assert SyncState.Answer(s.world.state, p.mailbox, op) == Listed(unsynced);
    assert unsynced == [] ==> BlankSides(s') == BlankSides(s).(world := CountSkipped(Blank(s.world), total));
    assert OnUnsynced(BlankSides(s), total, k)(Listed(unsynced)) ==
           k(BlankSides(s'), if unsynced == [] then Over(None) else ToCopy(unsynced));
    SafeCall(p, src, Blank(s.world), op, OnUnsynced(BlankSides(s), total, k), s.world.state);
  }

  lemma PrepareSafe(p: Plan, f: string, s: Sides, info: Info, k: (Sides, Opening) -> Prog<End>)
    requires AllSound(p, s.source.account, s.world) && CanSelect(s.source.account, f)
    requires info == Info(|s.source.account.folders[f].msgs|, s.source.account.folders[f].uidValidity)
    requires var (s', opening) := Prepare(JobFor(p, f), s, info);
             Safe(p, s.source.account, k(BlankSides(s'), opening), s'.world.state)
    ensures Safe(p, s.source.account, PrepareProgram(JobFor(p, f), BlankSides(s), info, k), s.world.state)
  {
    hide Safe, FetchAllReply, Outside, RecOf, Apply, AllSound, Between;
    var job, src := JobFor(p, f), s.source.account;
    if info.messages != 0 && SelectReply(s.world.target.account, f, p.target(s.world.target.tick)).Some? {
      var s1 := s.(world := s.world.(target := Answered(s.world.target)));
      SoundRespectsAnswers(p, src, s.world, s1.world);
      SoundAndSelectable(p, src, f, s1.world);
      var op := Op.SetUIDValidity(f, info.uidValidity);
      FineSinceValidity(p, src, f, s1.world, OnValidity(job, BlankSides(s1), k));
      ValidityStaysBetween(p, src, f, s1.world);
      var s2 := s1.(world := s1.world.(state := Apply(s.world.state, p.mailbox, op)), source := Answered(s1.source));
      var listed := FetchAllReply(src.folders[f], p.source(s.source.tick));
      if listed.Some? && listed.value != [] {
        UnsyncedSafe(p, src, f, s2, Uids(listed.value), |listed.value|, k);
      }
      SafeCall(p, src, Blank(s1.world), op, OnValidity(job, BlankSides(s1), k), s.world.state);
    }
  }

  lemma EnsureKeepsSound(p: Plan, src: Account, f: string, w: World)
    requires AllSound(p, src, w)
    ensures AllSound(p, src, w.(target := Ensure(p.target, w.target, f).0))
  {
    EnsureEffect(p.target, w.target, f);
    hide Ensure;
    var w' := w.(target := Ensure(p.target, w.target, f).0);
    forall g | CanSelect(src, g) ensures Sound(p, src.folders[g], g, w') {
      ExtendingKeepsSound(p, src.folders[g], g, f, w, w');
    }
  }

  lemma ExtendingKeepsSound(p: Plan, src: Folder, g: string, f: string, w: World, w': World)
    requires Sound(p, src, g, w) && Extends(w.target.account, w'.target.account, f) && w'.state == w.state
    ensures Sound(p, src, g, w')
  {
    hide Tied, RecOf, IsInferior;
  }

  lemma OpenSafe(p: Plan, f: string, s: Sides, k: (Sides, Opening) -> Prog<End>)
    requires AllSound(p, s.source.account, s.world) && CanSelect(s.source.account, f)
    requires var (s', opening) := Open(JobFor(p, f), s);
             Safe(p, s.source.account, k(BlankSides(s'), opening), s'.world.state)
    ensures Safe(p, s.source.account, OpenProgram(JobFor(p, f), BlankSides(s), k), s.world.state)
  {
    hide Safe, Ensure, Prepare, PrepareProgram, AllSound;
    var info := SelectReply(s.source.account, f, p.source(s.source.tick));
    var (target, ok) := Ensure(p.target, s.world.target, f);
    if info.Some? && ok {
      EnsureKeepsSound(p, s.source.account, f, s.world);
      PrepareSafe(p, f, Sides(s.world.(target := target), Answered(s.source)), info.value, k);
    }
  }

  /** After the opening steps with something left to copy. */
  lemma OpenedBetween(p: Plan, f: string, s: Sides)
    requires ValidAccount(s.source.account) && AllSound(p, s.source.account, s.world) && CanSelect(s.source.account, f)
    requires Open(JobFor(p, f), s).1.ToCopy?
    ensures Between(p, s.source.account, f, Open(JobFor(p, f), s).0.world)
    ensures Open(JobFor(p, f), s).0.source.account == s.source.account
  {
    var src := s.source.account;
    assert ValidFolder(src.folders[f]) && Sound(p, src.folders[f], f, s.world);
    hide Open, Sound, Ready, Elsewhere, ValidAccount;
    OpenKeepsSound(p, f, s);
    OpenElsewhere(JobFor(p, f), s);
    OthersSoundElsewhere(p, src, f, s.world, Open(JobFor(p, f), s).0.world);
  }

  lemma FolderSafe(p: Plan, f: string, s: Sides, k: (Sides, Option<FolderError>) -> Prog<End>)
    requires ValidAccount(s.source.account) && AllSound(p, s.source.account, s.world) && CanSelect(s.source.account, f)
    requires var (s', err) := CopyFolder(JobFor(p, f), s);
             Safe(p, s.source.account, k(BlankSides(s'), err), s'.world.state)
    ensures Safe(p, s.source.account, FolderProgram(JobFor(p, f), BlankSides(s), k), s.world.state)
  {
    hide Safe, Open, OpenProgram, CopyLoop, LoopProgram, AllSound, ValidAccount, Between;
    var (s1, opening) := Open(JobFor(p, f), s);
    if opening.ToCopy? {
      OpenedBetween(p, f, s);
      LoopSafe(p, f, s1, opening.uids, k);
    }
    OpenSafe(p, f, s, OnOpened(JobFor(p, f), k));
  }

  // ---------------------------------------------------------------- the mailbox

  lemma RoundKeepsSound(p: Plan, r: Run, f: string)
    requires ValidAccount(r.sides.source.account) && AllSound(p, r.sides.source.account, r.sides.world)
    requires CanSelect(r.sides.source.account, f)
    ensures
      var r' := Round(p, r, f).0;
      r'.sides.source.account == r.sides.source.account && AllSound(p, r.sides.source.account, r'.sides.world)
  {
    hide AllSound, CopyFolder, ValidAccount, CanSelect;
    CopyFolderKeepsSound(p, f, r.sides);
    var r1 := r.(sides := CopyFolder(JobFor(p, f), r.sides).0);
    SoundRespectsAnswers(p, r.sides.source.account, r1.sides.world, Connect(p, Disconnect(p, r1).0).0.sides.world);
  }

  lemma {:induction false} EachSafe(p: Plan, r: Run, es: seq<Entry>, errors: nat, k: (Run, nat, bool) -> Prog<End>)
    requires ValidAccount(r.sides.source.account) && AllSound(p, r.sides.source.account, r.sides.world)
    requires forall e :: e in es && !e.IsNoSelect() ==> CanSelect(r.sides.source.account, e.name)
    requires var (r', n, still) := CopyEach(p, r, es);
             Safe(p, r.sides.source.account, k(BlankRun(r'), errors + n, still), r'.sides.world.state)
    ensures Safe(p, r.sides.source.account, EachProgram(p, BlankRun(r), es, errors, k), r.sides.world.state)
    decreases es
  {
    hide Safe, CopyFolder, FolderProgram, Connect, Disconnect, Round, OnFolder, AllSound, ValidAccount, CanSelect;
    if es == [] {
    } else if es[0].IsNoSelect() {
      EachSafe(p, r, es[1..], errors, k);
    } else {
      var f, src := es[0].name, r.sides.source.account;
      assert es[0] in es && forall e :: e in es[1..] ==> e in es;
      CopyEachByRounds(p, r, es);
      RoundKeepsSound(p, r, f);
      var (r1, failed, connected) := Round(p, r, f);
      var errors1 := errors + (if failed then 1 else 0);
      if connected {
        assert errors1 + CopyEach(p, r1, es[1..]).1 == errors + CopyEach(p, r, es).1;
        EachSafe(p, r1, es[1..], errors1, k);
      }
      hide CopyEach, EachProgram;
      AfterFolder(p, r, es, errors, k);
      FolderSafe(p, f, r.sides, OnFolder(p, BlankRun(r), es, errors, k));
      FirstOfEach(p, r, es, errors, k);
    }
  }

  lemma FirstOfEach(p: Plan, r: Run, es: seq<Entry>, errors: nat, k: (Run, nat, bool) -> Prog<End>)
    requires es != [] && !es[0].IsNoSelect()
    ensures EachProgram(p, BlankRun(r), es, errors, k) ==
            FolderProgram(JobFor(p, es[0].name), BlankSides(r.sides), OnFolder(p, BlankRun(r), es, errors, k))
  {
    hide FolderProgram, OnFolder;
  }

  /** How the loop goes on after a folder. */
  lemma AfterFolder(p: Plan, r: Run, es: seq<Entry>, errors: nat, k: (Run, nat, bool) -> Prog<End>)
    requires es != []
    ensures
      var (sides, err) := CopyFolder(JobFor(p, es[0].name), r.sides);
      var (r1, failed, connected) := Round(p, r, es[0].name);
      && sides.world.state == r1.sides.world.state
      && OnFolder(p, BlankRun(r), es, errors, k)(BlankSides(sides), err) ==
         if !connected then k(BlankRun(r1), errors + 1, false)
         else EachProgram(p, BlankRun(r1), es[1..], errors + (if failed then 1 else 0), k)
  {
    hide CopyFolder, EachProgram;
    var (sides, err) := CopyFolder(JobFor(p, es[0].name), r.sides);
    var (r2, ok) := Connect(p, Disconnect(p, r.(sides := sides)).0);
    assert Connect(p, Disconnect(p, BlankRun(r.(sides := sides))).0) == (BlankRun(r2), ok);
  }

  /** A whole mailbox, from any state in which the records agree with the target. */
  lemma MailboxSafe(p: Plan, r: Run)
    requires ValidAccount(r.sides.source.account) && AllSound(p, r.sides.source.account, r.sides.world)
    ensures Safe(p, r.sides.source.account, MailboxProgram(p, BlankRun(r)), r.sides.world.state)
  {
    hide CopyEach, EachProgram, ListReply, AllSound, ValidAccount, CopyFolders, Safe;
    var src := r.sides.source.account;
    var (r1, connected) := Connect(p, r);
    SoundRespectsAnswers(p, src, r.sides.world, r1.sides.world);
    BlankFolders(p, r1);
    CopyFoldersKeepsSound(p, r1, src);
    CopyFoldersEffect(p, r1);
    var (r2, structured) := CopyFolders(p, r1);
    var listed := ListReply(src, p.source(r2.sides.source.tick));
    var r3 := SourceTick(r2);
    if !connected {
      DoneSafe(p, src, r1, Some(ConnectFailed));
    } else if !structured {
      DisconnectKeepsSound(p, r2, src);
      DoneSafe(p, src, Disconnect(p, r2).0, Some(FolderListFailed));
    } else if listed.None? {
      DisconnectKeepsSound(p, r3, src);
      DoneSafe(p, src, Disconnect(p, r3).0, Some(FolderListFailed));
    } else {
      ListedSafe(p, r3, listed.value, p.source(r2.sides.source.tick));
    }
  }

  lemma DoneSafe(p: Plan, src: Account, r: Run, error: Option<MailboxError>)
    requires AllSound(p, src, r.sides.world)
    ensures Safe(p, src, Done(End(BlankRun(r), error)), r.sides.world.state)
  {
    hide AllSound, Safe;
    assert BlankRun(r).sides.world.(state := r.sides.world.state) == r.sides.world;
    SafeDone(p, src, Done(End(BlankRun(r), error)), r.sides.world.state);
  }

  lemma DisconnectBlank(p: Plan, r: Run)
    ensures Disconnect(p, BlankRun(r)) == (BlankRun(Disconnect(p, NoteSync(p, r)).0), Disconnect(p, NoteSync(p, r)).1)
    ensures Disconnect(p, NoteSync(p, r)).0.sides.world.state == NoteSync(p, r).sides.world.state
  {
    hide Apply;
  }

  /** The loop over the listed folders and the time stamp after it. */
  lemma ListedSafe(p: Plan, r: Run, es: seq<Entry>, ans: Imap.Answer)
    requires ValidAccount(r.sides.source.account) && AllSound(p, r.sides.source.account, r.sides.world)
    requires ListReply(r.sides.source.account, ans) == Some(es)
    ensures Safe(p, r.sides.source.account, EachProgram(p, BlankRun(r), es, 0, OnAll(p)), r.sides.world.state)
  {
    hide CopyEach, EachProgram, ListReply, AllSound, ValidAccount, Safe, Disconnect, Apply;
    var src := r.sides.source.account;
    ListedAreSelectable(src, ans);
    var (r', errors, still) := CopyEach(p, r, es);
    CopyEachKeepsSound(p, r, es, src);
    var op, next := Op.UpdateMailboxLastSync(p.now), OnNoted(p, BlankRun(r'), errors, still);
    var noted := NoteSync(p, r');
    NoteSyncKeepsSound(p, r', src);
    DisconnectKeepsSound(p, noted, src);
    var (gone, ok) := if still then Disconnect(p, noted) else (noted, true);
    DisconnectBlank(p, r');
    DoneSafe(p, src, gone,
             if errors > 0 then Some(FoldersFailed(errors)) else if !ok then Some(DisconnectFailed) else None);
    assert Blank(r'.sides.world).(state := r'.sides.world.state) == r'.sides.world;
    SafeCall(p, src, Blank(r'.sides.world), op, next, r'.sides.world.state);
    EachSafe(p, r, es, 0, OnAll(p));
  }

  // ---------------------------------------------------------------- every schedule

  /** The copy of a mailbox as a task, started as `r` describes. */
  function TaskOf(p: Plan, r: Run): Task<End> { Task(p.mailbox, MailboxProgram(p, BlankRun(r))) }

  /** Only the records of the mailbox itself matter. */
  lemma FineIsLocal(p: Plan, src: Account, q: Prog<End>, c: Contents, d: Contents)
    requires SameAt(c, d, p.mailbox) && Fine(p, src, q, c)
    ensures Fine(p, src, q, d)
  {
    forall f ensures RecOf(d, p.mailbox, f) == RecOf(c, p.mailbox, f) { RecordIsLocal(c, d, p.mailbox, f); }
    hide RecOf, Tied, SameAt, IsOfFolder;
  }

  /** Agreement in every reachable state. Take any number of mailboxes, each with records that agree
      with its target, and any interleaving of their tasks, broken off anywhere. Then every task has
      ended with all records in agreement, or it is about to make a call and its records agree: those
      of the folder being copied are settled but for the UID that is just being linked, and those of
      all other folders are as at the end of a copy. */
  lemma EveryStateIsFine(plans: seq<Plan>, runs: seq<Run>, tasks: seq<Task<End>>, c: Contents, schedule: seq<nat>,
                         i: nat)
    requires |plans| == |runs| == |tasks| && i < |tasks| && IsSchedule(schedule, |tasks|)
    requires forall j :: 0 <= j < |tasks| ==> tasks[j] == TaskOf(plans[j], runs[j])
    requires forall j, k :: 0 <= j < k < |plans| ==> plans[j].mailbox != plans[k].mailbox
    requires runs[i].sides.world.state == c && ValidAccount(runs[i].sides.source.account)
    requires AllSound(plans[i], runs[i].sides.source.account, runs[i].sides.world)
    ensures
      var (ts, d) := Interleave(tasks, c, schedule);
      ts[i].mailbox == plans[i].mailbox && Fine(plans[i], runs[i].sides.source.account, ts[i].prog, d)
  {
    hide Fine, AllSound, Interleave, MailboxProgram, ValidAccount;
    var p, src, n := plans[i], runs[i].sides.source.account, Turns(schedule, i);
    assert DistinctMailboxes(tasks);
    NoInterference(tasks, c, schedule, i);
    MailboxSafe(p, runs[i]);
    var (q, e) := Advance(p.mailbox, tasks[i].prog, c, n);
    assert Fine(p, src, q, e);
    FineIsLocal(p, src, q, e, Interleave(tasks, c, schedule).1);
  }
}
