/** Copying one message (internal/mailbox/copy.go, copyMessage and appendMessage) as a function
    on everything it touches, and what it keeps true between the sync state and the target. */
module MessageCopy {
  import opened Basics
  import opened Imap
  import opened SyncState

  /** What stays fixed while one folder is copied. The throttle answers whether it runs the
      append (`true`) or gives up with an error; `None` is the nil throttle. */
  datatype Context = Context(mailbox: string, folder: string, target: Oracle, throttle: Option<nat -> bool>)

  datatype Stats = Stats(foldersCreated: int, copied: int, skipped: int, bytes: int)

  /** What the copying of messages reads and writes. */
  datatype World = World(state: Contents, target: Remote, stats: Stats, throttled: nat)

  function CountSkipped(w: World, n: nat): World {
    w.(stats := w.stats.(skipped := w.stats.skipped + n))
  }

  function CountCopied(w: World, size: nat): World {
    w.(stats := w.stats.(copied := w.stats.copied + 1, bytes := w.stats.bytes + size))
  }

  /** The append alone: the new world and the acknowledged UID. */
  function SendAppend(ctx: Context, w: World, msg: Message): (World, Option<uint32>) {
    var (account, uid) := Append(w.target.account, ctx.folder, Settable(msg.flags), msg.date, msg.body,
                                 ctx.target(w.target.tick));
    (w.(target := Remote(account, w.target.tick + 1)), uid)
  }

  function RecordSynced(ctx: Context, w: World, source: uint32): World {
    w.(state := Apply(w.state, ctx.mailbox, Op.MarkSynced(ctx.folder, source)))
  }

  function RecordMapping(ctx: Context, w: World, source: uint32, target: uint32): World {
    w.(state := Apply(w.state, ctx.mailbox, Op.SetUIDMapping(ctx.folder, source, target)))
  }

  function AppendMessage(ctx: Context, w: World, msg: Message): (World, bool) {
    var (w1, uid) := SendAppend(ctx, w, msg);
    if uid.None? then (w1, false)
    else (CountCopied(RecordMapping(ctx, RecordSynced(ctx, w1, msg.uid), msg.uid, uid.value), |msg.body|), true)
  }

  function Throttled(ctx: Context, w: World): World {
    if ctx.throttle.None? then w else w.(throttled := w.throttled + 1)
  }

  function CopyMessage(ctx: Context, w: World, msg: Message): (World, bool) {
    if msg.uid == 0 then (w, false)
    else if msg.uid in Record(ctx, w).synced then (CountSkipped(w, 1), true)
    else if IsDeleted(msg.flags) then (CountSkipped(w, 1), true)
    else if ctx.throttle.Some? && !ctx.throttle.value(w.throttled) then (Throttled(ctx, w), false)
    else AppendMessage(ctx, Throttled(ctx, w), msg)
  }

  /** Whether the copying of a message gets as far as its append. */
  predicate Attempted(ctx: Context, w: World, msg: Message) {
    && msg.uid != 0
    && msg.uid !in Record(ctx, w).synced
    && !IsDeleted(msg.flags)
    && (ctx.throttle.Some? ==> ctx.throttle.value(w.throttled))
  }

  /** The worlds that `appendMessage` passes through. */
  function AppendMoments(ctx: Context, w: World, msg: Message): seq<World> {
    var (w1, uid) := SendAppend(ctx, w, msg);
    if uid.None? then [w1]
    else
      var w2 := RecordSynced(ctx, w1, msg.uid);
      [w1, w2, RecordMapping(ctx, w2, msg.uid, uid.value), AppendMessage(ctx, w, msg).0]
  }

  /** Every world that another task can observe while one message is being copied. */
  function Moments(ctx: Context, w: World, msg: Message): seq<World> {
    if Attempted(ctx, w, msg) then [w] + AppendMoments(ctx, Throttled(ctx, w), msg)
    else [w, CopyMessage(ctx, w, msg).0]
  }

  /** The sync record of the folder being copied. */
  function Record(ctx: Context, w: World): FolderRec { RecOf(w.state, ctx.mailbox, ctx.folder) }

  /** The folder on the target. */
  function Target(ctx: Context, w: World): Folder
    requires CanSelect(w.target.account, ctx.folder)
  {
    w.target.account.folders[ctx.folder]
  }

  /** A run of `CopyMessage` over a list: the last world and the number of failures. */
  function CopyAll(ctx: Context, w: World, msgs: seq<Message>): (World, nat)
    decreases msgs
  {
    if msgs == [] then (w, 0)
    else
      var (w1, ok) := CopyMessage(ctx, w, msgs[0]);
      var (w2, fails) := CopyAll(ctx, w1, msgs[1..]);
      (w2, (if ok then 0 else 1) + fails)
  }

  lemma {:induction false} CopyAllInParts(ctx: Context, w: World, a: seq<Message>, b: seq<Message>)
    ensures var (w1, n1) := CopyAll(ctx, w, a);
            var (w2, n2) := CopyAll(ctx, w1, b);
            CopyAll(ctx, w, a + b) == (w2, n1 + n2)
    decreases a
  {
    if a == [] {
      assert a + b == b;
    } else {
      assert (a + b)[0] == a[0] && (a + b)[1..] == a[1..] + b;
      CopyAllInParts(ctx, CopyMessage(ctx, w, a[0]).0, a[1..], b);
    }
  }

  // ---------------------------------------------------------------- conservation

  /** Whether the message is appended and the target acknowledges it. */
  predicate IsAcknowledged(ctx: Context, w: World, msg: Message) {
    Attempted(ctx, w, msg) && SendAppend(ctx, Throttled(ctx, w), msg).1.Some?
  }

  /** The messages of a run that are appended and acknowledged, in order. */
  function Acknowledged(ctx: Context, w: World, msgs: seq<Message>): seq<Message>
    decreases msgs
  {
    if msgs == [] then []
    else (if IsAcknowledged(ctx, w, msgs[0]) then [msgs[0]] else [])
         + Acknowledged(ctx, CopyMessage(ctx, w, msgs[0]).0, msgs[1..])
  }

  function BytesOf(msgs: seq<Message>): nat {
    if msgs == [] then 0 else |msgs[0].body| + BytesOf(msgs[1..])
  }

  /** Whatever happens, a message is counted as copied, counted as skipped, or failed. */
  lemma MessageCounts(ctx: Context, w: World, msg: Message)
    ensures
      var (w', ok) := CopyMessage(ctx, w, msg);
      && w.stats.copied <= w'.stats.copied && w.stats.skipped <= w'.stats.skipped
      && (w'.stats.copied - w.stats.copied) + (w'.stats.skipped - w.stats.skipped) == if ok then 1 else 0
  {
    hide Append, Apply, Record;
  }

  /** So the number of failures is what the counters leave over. */
  lemma {:induction false} CopyAllCounts(ctx: Context, w: World, msgs: seq<Message>)
    ensures
      var (w', fails) := CopyAll(ctx, w, msgs);
      && w.stats.copied <= w'.stats.copied && w.stats.skipped <= w'.stats.skipped
      && (w'.stats.copied - w.stats.copied) + (w'.stats.skipped - w.stats.skipped) + fails == |msgs|
    decreases msgs
  {
    if msgs == [] {
    } else {
      hide CopyMessage;
      MessageCounts(ctx, w, msgs[0]);
      CopyAllCounts(ctx, CopyMessage(ctx, w, msgs[0]).0, msgs[1..]);
    }
  }

  /** No message stamps its mailbox. */
  lemma MessageKeepsStamps(ctx: Context, w: World, msg: Message)
    ensures
      var w' := CopyMessage(ctx, w, msg).0;
      && SyncsOf(w'.state, ctx.mailbox) == SyncsOf(w.state, ctx.mailbox)
      && LastSyncOf(w'.state, ctx.mailbox) == LastSyncOf(w.state, ctx.mailbox)
  {
    if Attempted(ctx, w, msg) {
      var (w1, uid) := SendAppend(ctx, Throttled(ctx, w), msg);
      hide Append, Apply, SyncsOf, LastSyncOf, Record;
      if uid.Some? {
        var c := w1.state;
        CopyingKeepsStamps(c, ctx.mailbox, Op.MarkSynced(ctx.folder, msg.uid));
        CopyingKeepsStamps(RecordSynced(ctx, w1, msg.uid).state, ctx.mailbox,
                           Op.SetUIDMapping(ctx.folder, msg.uid, uid.value));
      }
    }
  }

  lemma {:induction false} CopyAllKeepsStamps(ctx: Context, w: World, msgs: seq<Message>)
    ensures
      var w' := CopyAll(ctx, w, msgs).0;
      && SyncsOf(w'.state, ctx.mailbox) == SyncsOf(w.state, ctx.mailbox)
      && LastSyncOf(w'.state, ctx.mailbox) == LastSyncOf(w.state, ctx.mailbox)
    decreases msgs
  {
    if msgs == [] {
    } else {
      hide CopyMessage, SyncsOf, LastSyncOf;
      MessageKeepsStamps(ctx, w, msgs[0]);
      CopyAllKeepsStamps(ctx, CopyMessage(ctx, w, msgs[0]).0, msgs[1..]);
    }
  }

  lemma RecordsAfter(ctx: Context, w: World, source: uint32, target: uint32, size: nat)
    requires source != 0 && target != 0
    ensures var w2 := RecordSynced(ctx, w, source);
            var w3 := RecordMapping(ctx, w2, source, target);
            && Record(ctx, w2) == Mark(Record(ctx, w), source)
            && Record(ctx, w3) == Link(Mark(Record(ctx, w), source), source, target)
            && w2.target == w3.target == w.target
            && CountCopied(w3, size).target == w.target && Record(ctx, CountCopied(w3, size)) == Record(ctx, w3)
  {
  }

  lemma AppendGrows(a: Account, f: string, flags: seq<string>, date: Timestamp, body: Bytes, ans: Answer)
    requires CanSelect(a, f) && ValidFolder(a.folders[f])
    ensures
      var (a', uid) := Append(a, f, flags, date, body, ans);
      && CanSelect(a', f) && ValidFolder(a'.folders[f])
      && |a.folders[f].msgs| <= |a'.folders[f].msgs| <= |a.folders[f].msgs| + 1
      && (uid.Some? ==> uid.value != 0 && |a'.folders[f].msgs| == |a.folders[f].msgs| + 1)
  {
    var fo := a.folders[f];
    var next := fo.uidNext + ans.skip;
    if !ans.outcome.Refused? && 0 < next < TWO_TO_32 {
      assert next !in fo.msgs;
      assert Append(a, f, flags, date, body, ans).0.folders[f].msgs.Keys == fo.msgs.Keys + {next};
    }
  }

  lemma SendGrowsByOne(ctx: Context, w: World, msg: Message)
    requires CanSelect(w.target.account, ctx.folder) && ValidFolder(Target(ctx, w))
    ensures
      var (w1, uid) := SendAppend(ctx, w, msg);
      && CanSelect(w1.target.account, ctx.folder) && ValidFolder(Target(ctx, w1))
      && |Target(ctx, w).msgs| <= |Target(ctx, w1).msgs| <= |Target(ctx, w).msgs| + 1
      && (uid.Some? ==> uid.value != 0 && |Target(ctx, w1).msgs| == |Target(ctx, w).msgs| + 1)
      && w1.stats == w.stats && Record(ctx, w1) == Record(ctx, w)
  {
    AppendGrows(w.target.account, ctx.folder, Settable(msg.flags), msg.date, msg.body, ctx.target(w.target.tick));
    hide Append, ValidFolder, CanSelect, RecOf, Settable;
  }

  lemma CopyMessageConserves(ctx: Context, w: World, msg: Message)
    requires CanSelect(w.target.account, ctx.folder) && ValidFolder(Target(ctx, w))
    ensures
      var (w', ok) := CopyMessage(ctx, w, msg);
      var acked := IsAcknowledged(ctx, w, msg);
      && (acked ==> msg.uid !in Record(ctx, w).synced)
      && CanSelect(w'.target.account, ctx.folder) && ValidFolder(Target(ctx, w'))
      && w'.stats.copied == w.stats.copied + (if acked then 1 else 0)
      && w'.stats.skipped == w.stats.skipped + (if ok && !acked then 1 else 0)
      && (acked ==> ok)
      && Record(ctx, w').synced == Record(ctx, w).synced + (if acked then {msg.uid} else {})
      && w'.stats.bytes == w.stats.bytes + (if acked then |msg.body| else 0)
      && |Target(ctx, w).msgs| + (if acked then 1 else 0) <= |Target(ctx, w').msgs|
         <= |Target(ctx, w).msgs| + (if acked || !ok then 1 else 0)
  {
    if Attempted(ctx, w, msg) {
      SendGrowsByOne(ctx, Throttled(ctx, w), msg);
      AttemptConserves(ctx, w, msg);
      hide Append, SendAppend, Apply, ValidFolder, AppendMessage;
      assert CopyMessage(ctx, w, msg) == AppendMessage(ctx, Throttled(ctx, w), msg);
    } else {
      hide Append, SendAppend, Apply, ValidFolder, AppendMessage;
    }
  }

  /** What an acknowledged message leaves behind: its UID synced and linked, and the target as the
      append left it. */
  lemma AcknowledgedRecord(ctx: Context, w: World, msg: Message)
    requires IsAcknowledged(ctx, w, msg)
    ensures
      var (w1, uid) := SendAppend(ctx, Throttled(ctx, w), msg);
      var w' := CopyMessage(ctx, w, msg).0;
      && uid.Some? && uid.value != 0 && msg.uid != 0 && msg.uid !in Record(ctx, w).synced && !IsDeleted(msg.flags)
      && w'.target == w1.target && w'.stats.copied == w.stats.copied + 1
      && Record(ctx, w') == Link(Mark(Record(ctx, w), msg.uid), msg.uid, uid.value)
  {
    var (w1, uid) := SendAppend(ctx, Throttled(ctx, w), msg);
    assert uid.value != 0 && Record(ctx, w1) == Record(ctx, w) && w1.stats == w.stats;
    assert CopyMessage(ctx, w, msg).0 ==
           CountCopied(RecordMapping(ctx, RecordSynced(ctx, w1, msg.uid), msg.uid, uid.value), |msg.body|);
    RecordsAfter(ctx, w1, msg.uid, uid.value, |msg.body|);
    hide Append, SendAppend, CopyMessage, Apply, RecOf, Record, RecordSynced, RecordMapping;
  }

  /** What an attempted append does beside the sending. */
  lemma AttemptConserves(ctx: Context, w: World, msg: Message)
    requires Attempted(ctx, w, msg)
    ensures
      var w0 := Throttled(ctx, w);
      var (w1, uid) := SendAppend(ctx, w0, msg);
      var (w', ok) := AppendMessage(ctx, w0, msg);
      && ok == uid.Some? && w'.target == w1.target
      && (!ok ==> w' == w1)
      && (ok ==>
            && w'.stats == w.stats.(copied := w.stats.copied + 1, bytes := w.stats.bytes + |msg.body|)
            && Record(ctx, w').synced == Record(ctx, w).synced + {msg.uid})
      && Record(ctx, w0) == Record(ctx, w) && w0.stats == w.stats && w0.target == w.target
  {
    var (w1, uid) := SendAppend(ctx, Throttled(ctx, w), msg);
    assert w1.stats == w.stats && w1.state == w.state;
    if uid.Some? {
      assert uid.value != 0;
      RecordsAfter(ctx, w1, msg.uid, uid.value, |msg.body|);
      hide Append, SendAppend, Apply, RecOf;
    }
  }

  lemma UidsCons(msg: Message, rest: seq<Message>)
    ensures Uids([msg] + rest) == [msg.uid] + Uids(rest)
    ensures Elements(Uids([msg] + rest)) == {msg.uid} + Elements(Uids(rest))
  {
    assert Uids([msg] + rest) == [msg.uid] + Uids(rest);
  }

  /** Exactly the acknowledged UIDs become synced. */
  lemma {:induction false} CopyAllSyncs(ctx: Context, w: World, msgs: seq<Message>)
    requires CanSelect(w.target.account, ctx.folder) && ValidFolder(Target(ctx, w))
    ensures Record(ctx, CopyAll(ctx, w, msgs).0).synced ==
            Record(ctx, w).synced + Elements(Uids(Acknowledged(ctx, w, msgs)))
    decreases msgs
  {
    if msgs == [] {
    } else {
      hide CopyMessage, IsAcknowledged, ValidFolder, CanSelect, Record, Target;
      var w1 := CopyMessage(ctx, w, msgs[0]).0;
      CopyMessageConserves(ctx, w, msgs[0]);
      CopyAllSyncs(ctx, w1, msgs[1..]);
      var tail := Acknowledged(ctx, w1, msgs[1..]);
      var before := Record(ctx, w).synced;
      if IsAcknowledged(ctx, w, msgs[0]) {
        UidsCons(msgs[0], tail);
        SetAssociative(before, {msgs[0].uid}, Elements(Uids(tail)));
      } else {
        assert [] + tail == tail;
      }
    }
  }

  lemma SetAssociative<T>(a: set<T>, b: set<T>, c: set<T>)
    ensures (a + b) + c == a + (b + c)
  {
  }

  /** No source UID is acknowledged twice in a run, nor one that was synced before it. */
  lemma {:induction false} AcknowledgedOnce(ctx: Context, w: World, msgs: seq<Message>)
    requires CanSelect(w.target.account, ctx.folder) && ValidFolder(Target(ctx, w))
    ensures
      var uids := Uids(Acknowledged(ctx, w, msgs));
      NoDup(uids) && forall u :: u in uids ==> u !in Record(ctx, w).synced
    decreases msgs
  {
    if msgs == [] {
    } else {
      hide CopyMessage, IsAcknowledged, ValidFolder, CanSelect, Record, Target, Uids;
      var w1 := CopyMessage(ctx, w, msgs[0]).0;
      CopyMessageConserves(ctx, w, msgs[0]);
      AcknowledgedOnce(ctx, w1, msgs[1..]);
      var tail := Acknowledged(ctx, w1, msgs[1..]);
      var before, after := Record(ctx, w).synced, Record(ctx, w1).synced;
      if IsAcknowledged(ctx, w, msgs[0]) {
        assert Acknowledged(ctx, w, msgs) == [msgs[0]] + tail;
        UidsCons(msgs[0], tail);
        assert after == before + {msgs[0].uid};
        FirstIsNew(msgs[0].uid, Uids(tail), before);
      } else {
        assert Acknowledged(ctx, w, msgs) == tail by { assert [] + tail == tail; }
      }
    }
  }

  lemma FirstIsNew(u: uint32, rest: seq<uint32>, before: set<uint32>)
    requires NoDup(rest) && u !in before && forall v :: v in rest ==> v !in before + {u}
    ensures NoDup([u] + rest) && forall v :: v in [u] + rest ==> v !in before
  {
    assert forall i :: 0 <= i < |rest| ==> rest[i] in rest;
  }

  /** Whatever is delivered and whatever fails, every message, byte and new target message of
      a run is accounted for. */
  lemma {:induction false} CopyAllConserves(ctx: Context, w: World, msgs: seq<Message>)
    requires CanSelect(w.target.account, ctx.folder) && ValidFolder(Target(ctx, w))
    ensures
      var (w', fails) := CopyAll(ctx, w, msgs);
      var acked := Acknowledged(ctx, w, msgs);
      && CanSelect(w'.target.account, ctx.folder) && ValidFolder(Target(ctx, w'))
      && w'.stats.copied == w.stats.copied + |acked|
      && w.stats.skipped <= w'.stats.skipped
      && |acked| + (w'.stats.skipped - w.stats.skipped) + fails == |msgs|
      && w'.stats.bytes == w.stats.bytes + BytesOf(acked)
      && |Target(ctx, w).msgs| + |acked| <= |Target(ctx, w').msgs| <= |Target(ctx, w).msgs| + |acked| + fails
    decreases msgs
  {
    if msgs == [] {
    } else {
      hide CopyMessage, IsAcknowledged, ValidFolder, CanSelect, Record, Target;
      var w1 := CopyMessage(ctx, w, msgs[0]).0;
      CopyMessageConserves(ctx, w, msgs[0]);
      CopyAllConserves(ctx, w1, msgs[1..]);
      var tail := Acknowledged(ctx, w1, msgs[1..]);
      assert ([msgs[0]] + tail)[1..] == tail && [] + tail == tail;
    }
  }
}
