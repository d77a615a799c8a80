/** Agreement between the sync record of a folder and what really is on the target, kept at
    every moment of every run, failures included (internal/mailbox/copy.go:259-321). */
module Agreement {
  import opened Basics
  import opened Imap
  import opened SyncState
  import opened MessageCopy

  /** A target message that came from a source message: same body, same date if there is one,
      same flags less `\Recent`. */
  ghost predicate IsImage(target: Stored, source: Stored) {
    && target.body == source.body
    && target.flags == Settable(source.flags)
    && (source.date != 0 ==> target.date == source.date)
  }

  /** The source messages that are to be copied. */
  function Live(src: Folder): set<uint32> {
    set u | u in src.msgs && !IsDeleted(src.msgs[u].flags)
  }

  ghost predicate Injective(m: map<uint32, uint32>) {
    forall a, b :: a in m && b in m && a != b ==> m[a] != m[b]
  }

  /** Every recorded link leads from a live source message to an image of it that was not on
      the target before; what was there before is untouched. `t0` is the target folder as it
      was when the record was empty. */
  ghost predicate Tied(src: Folder, t0: Folder, r: FolderRec, t: Folder) {
    && ValidFolder(t) && t0.uidNext <= t.uidNext
    && (forall u :: u in t0.msgs ==> u in t.msgs && t.msgs[u] == t0.msgs[u])
    && (forall s :: s in r.uidMap ==> s in src.msgs && r.uidMap[s] in t.msgs)
    && (forall s :: s in r.uidMap ==> IsImage(t.msgs[r.uidMap[s]], src.msgs[s]))
    && (forall s :: s in r.uidMap ==> r.uidMap[s] !in t0.msgs)
    && Injective(r.uidMap)
    && r.uidMap.Keys <= r.synced <= Live(src)
  }

  /** At message boundaries the synced UIDs are exactly the linked ones. */
  ghost predicate Settled(r: FolderRec) {
    r.synced == r.uidMap.Keys
  }

  /** Nothing but the earlier messages and the recorded images is on the target. */
  ghost predicate Exact(t0: Folder, r: FolderRec, t: Folder) {
    t.msgs.Keys == t0.msgs.Keys + r.uidMap.Values
  }

  /** The message is what the source folder holds. */
  ghost predicate Faithful(src: Folder, msg: Message) {
    msg.uid in src.msgs && msg == MessageAt(src, msg.uid)
  }

  ghost predicate AllFaithful(src: Folder, msgs: seq<Message>) {
    forall i :: 0 <= i < |msgs| ==> Faithful(src, msgs[i])
  }

  /** The folder on the target can be used and the records agree with it. */
  ghost predicate Agrees(ctx: Context, src: Folder, t0: Folder, w: World) {
    CanSelect(w.target.account, ctx.folder) && Tied(src, t0, Record(ctx, w), Target(ctx, w))
  }

  lemma AppendAgrees(ctx: Context, src: Folder, t0: Folder, w: World, msg: Message)
    requires Agrees(ctx, src, t0, w)
    ensures var (w1, uid) := SendAppend(ctx, w, msg);
            && Agrees(ctx, src, t0, w1)
            && Record(ctx, w1) == Record(ctx, w)
            && (uid.Some? ==>
                  && uid.value != 0 && uid.value !in Target(ctx, w).msgs && uid.value !in t0.msgs
                  && uid.value in Target(ctx, w1).msgs
                  && (forall s :: s in Record(ctx, w).uidMap ==> Record(ctx, w).uidMap[s] != uid.value)
                  && Target(ctx, w1).msgs.Keys == Target(ctx, w).msgs.Keys + {uid.value}
                  && (Faithful(src, msg) ==> IsImage(Target(ctx, w1).msgs[uid.value], src.msgs[msg.uid])))
            && (uid.None? && !ctx.target(w.target.tick).outcome.Unacked? ==> Target(ctx, w1) == Target(ctx, w))
  {
  }

  lemma LinkAgrees(src: Folder, t0: Folder, r: FolderRec, t: Folder, source: uint32, target: uint32)
    requires Tied(src, t0, r, t) && Settled(r)
    requires source in Live(src) && source !in r.synced && source != 0
    requires target in t.msgs && target !in t0.msgs && IsImage(t.msgs[target], src.msgs[source])
    requires forall s :: s in r.uidMap ==> r.uidMap[s] != target
    ensures Tied(src, t0, Mark(r, source), t)
    ensures Tied(src, t0, Link(Mark(r, source), source, target), t) && Settled(Link(Mark(r, source), source, target))
    ensures Link(Mark(r, source), source, target).uidMap.Values == r.uidMap.Values + {target}
  {
    var m := r.uidMap[source := target];
    assert m[source] == target;
    assert forall v :: v in r.uidMap.Values ==> exists s :: s in r.uidMap && m[s] == v;
  }

  /** Another task looks at the records while `uid` is being copied. */
  ghost predicate GoodMoment(ctx: Context, src: Folder, t0: Folder, m: World, uid: uint32) {
    Agrees(ctx, src, t0, m) && Record(ctx, m).synced <= Record(ctx, m).uidMap.Keys + {uid}
  }

  lemma AcknowledgedMoments(ctx: Context, src: Folder, t0: Folder, w: World, msg: Message)
    requires Agrees(ctx, src, t0, w) && Settled(Record(ctx, w)) && Faithful(src, msg)
    requires IsAcknowledged(ctx, w, msg)
    ensures var (w1, uid) := SendAppend(ctx, Throttled(ctx, w), msg);
            var w2 := RecordSynced(ctx, w1, msg.uid);
            var w3 := RecordMapping(ctx, w2, msg.uid, uid.value);
            var w4 := CopyMessage(ctx, w, msg).0;
            && GoodMoment(ctx, src, t0, w1, msg.uid) && GoodMoment(ctx, src, t0, w2, msg.uid)
            && GoodMoment(ctx, src, t0, w3, msg.uid) && GoodMoment(ctx, src, t0, w4, msg.uid)
            && Settled(Record(ctx, w4))
  {
    var w0 := Throttled(ctx, w);
    var (w1, uid) := SendAppend(ctx, w0, msg);
    assert Record(ctx, w0) == Record(ctx, w);
    AppendAgrees(ctx, src, t0, w0, msg);
    AcknowledgedRecord(ctx, w, msg);
    LiveFlags(src, msg);
    hide Append, SendAppend, CopyMessage, IsAcknowledged, Apply, RecOf, Record, Tied, Live, IsImage,
      RecordSynced, RecordMapping, ValidFolder;
    LinkAgrees(src, t0, Record(ctx, w1), Target(ctx, w1), msg.uid, uid.value);
    RecordsAfter(ctx, w1, msg.uid, uid.value, |msg.body|);
  }

  /** An append without acknowledgement changes no record. */
  lemma UnacknowledgedMoments(ctx: Context, src: Folder, t0: Folder, w: World, msg: Message)
    requires Agrees(ctx, src, t0, w) && Settled(Record(ctx, w)) && !IsAcknowledged(ctx, w, msg)
    ensures forall m :: m in Moments(ctx, w, msg) ==> GoodMoment(ctx, src, t0, m, msg.uid) && Settled(Record(ctx, m))
    ensures CopyMessage(ctx, w, msg).0 in Moments(ctx, w, msg)
  {
    if Attempted(ctx, w, msg) {
      AppendAgrees(ctx, src, t0, Throttled(ctx, w), msg);
      hide SendAppend, Tied, RecOf;
      var w1 := SendAppend(ctx, Throttled(ctx, w), msg).0;
      assert Moments(ctx, w, msg) == [w, w1] && CopyMessage(ctx, w, msg).0 == w1;
    } else {
      assert Moments(ctx, w, msg) == [w, CopyMessage(ctx, w, msg).0];
    }
  }

  /** One message keeps the agreement at each of its moments, the records being at most this
      one UID apart, and settles them at the boundary after it. */
  lemma MessageKeepsAgreement(ctx: Context, src: Folder, t0: Folder, w: World, msg: Message)
    requires Agrees(ctx, src, t0, w) && Settled(Record(ctx, w)) && Faithful(src, msg)
    ensures forall m :: m in Moments(ctx, w, msg) ==> GoodMoment(ctx, src, t0, m, msg.uid)
    ensures var w' := CopyMessage(ctx, w, msg).0;
            Agrees(ctx, src, t0, w') && Settled(Record(ctx, w'))
  {
    if IsAcknowledged(ctx, w, msg) {
      AcknowledgedMoments(ctx, src, t0, w, msg);
      assert GoodMoment(ctx, src, t0, w, msg.uid);
      hide Agrees, Record, RecordSynced, RecordMapping, SendAppend, CopyMessage;
    } else {
      UnacknowledgedMoments(ctx, src, t0, w, msg);
      hide Moments, Agrees, Record;
    }
  }

  /** The target never executes an append whose acknowledgement is lost. */
  ghost predicate NoLostReplies(oracle: Oracle) {
    forall k :: !oracle(k).outcome.Unacked?
  }

  lemma AcknowledgedKeepsExact(ctx: Context, src: Folder, t0: Folder, w: World, msg: Message)
    requires Agrees(ctx, src, t0, w) && Settled(Record(ctx, w)) && Faithful(src, msg)
    requires IsAcknowledged(ctx, w, msg) && Exact(t0, Record(ctx, w), Target(ctx, w))
    ensures CanSelect(CopyMessage(ctx, w, msg).0.target.account, ctx.folder)
    ensures var w' := CopyMessage(ctx, w, msg).0; Exact(t0, Record(ctx, w'), Target(ctx, w'))
  {
    var w0 := Throttled(ctx, w);
    var (w1, uid) := SendAppend(ctx, w0, msg);
    assert Record(ctx, w0) == Record(ctx, w) && w0.target == w.target;
    AppendAgrees(ctx, src, t0, w0, msg);
    AcknowledgedRecord(ctx, w, msg);
    LiveFlags(src, msg);
    hide Append, SendAppend, CopyMessage, IsAcknowledged, Apply, RecOf, Record, Tied, Live, IsImage, ValidFolder;
    LinkAgrees(src, t0, Record(ctx, w), Target(ctx, w1), msg.uid, uid.value);
    SetAssociative(t0.msgs.Keys, Record(ctx, w).uidMap.Values, {uid.value});
  }

  lemma MessageKeepsExact(ctx: Context, src: Folder, t0: Folder, w: World, msg: Message)
    requires Agrees(ctx, src, t0, w) && Settled(Record(ctx, w)) && Faithful(src, msg)
    requires NoLostReplies(ctx.target) && Exact(t0, Record(ctx, w), Target(ctx, w))
    ensures CanSelect(CopyMessage(ctx, w, msg).0.target.account, ctx.folder)
    ensures var w' := CopyMessage(ctx, w, msg).0; Exact(t0, Record(ctx, w'), Target(ctx, w'))
  {
    if IsAcknowledged(ctx, w, msg) {
      AcknowledgedKeepsExact(ctx, src, t0, w, msg);
    } else if Attempted(ctx, w, msg) {
      AppendAgrees(ctx, src, t0, Throttled(ctx, w), msg);
      assert !ctx.target(w.target.tick).outcome.Unacked?;
      assert CopyMessage(ctx, w, msg).0 == SendAppend(ctx, Throttled(ctx, w), msg).0;
      hide SendAppend, CopyMessage, Append, RecOf, Tied;
    }
  }

  /** What copying a message does to the record: nothing, or one more synced and linked UID. */
  lemma MessageGrowsRecord(ctx: Context, w: World, msg: Message)
    ensures
      var (w', ok) := CopyMessage(ctx, w, msg);
      var r, r' := Record(ctx, w), Record(ctx, w');
      && r.synced <= r'.synced <= r.synced + {msg.uid}
      && r'.uidValidity == r.uidValidity
      && (forall s :: s in r.uidMap && s in r.synced ==> s in r'.uidMap && r'.uidMap[s] == r.uidMap[s])
      && (ok && !IsDeleted(msg.flags) ==> msg.uid in r'.synced)
  {
    if Attempted(ctx, w, msg) {
      var (w1, uid) := SendAppend(ctx, Throttled(ctx, w), msg);
      assert Record(ctx, w1) == Record(ctx, w);
      if uid.Some? {
        assert uid.value != 0;
        hide Append, SendAppend, Apply, RecOf, Record, RecordSynced, RecordMapping;
        RecordsAfter(ctx, w1, msg.uid, uid.value, |msg.body|);
      }
    }
  }

  /** Going from record `r` to `r'`, nothing synced or linked is lost. */
  ghost predicate Grows(r: FolderRec, r': FolderRec) {
    && r'.uidValidity == r.uidValidity
    && r.synced <= r'.synced
    && (forall s :: s in r.uidMap ==> s in r'.uidMap && r'.uidMap[s] == r.uidMap[s])
  }

  /** Every live message of the list is synced. */
  ghost predicate LiveSynced(src: Folder, msgs: seq<Message>, r: FolderRec) {
    forall i :: 0 <= i < |msgs| && msgs[i].uid in Live(src) ==> msgs[i].uid in r.synced
  }

  lemma GrowsTransitive(a: FolderRec, b: FolderRec, c: FolderRec)
    requires Grows(a, b) && Grows(b, c)
    ensures Grows(a, c)
  {
  }

  lemma FirstAndRestSynced(src: Folder, msgs: seq<Message>, r1: FolderRec, r': FolderRec)
    requires msgs != [] && Grows(r1, r') && LiveSynced(src, msgs[1..], r')
    requires msgs[0].uid in Live(src) ==> msgs[0].uid in r1.synced
    ensures LiveSynced(src, msgs, r')
  {
    hide Live;
    forall i | 0 <= i < |msgs| && msgs[i].uid in Live(src) ensures msgs[i].uid in r'.synced {
      if i > 0 { assert msgs[i] == msgs[1..][i - 1]; }
    }
  }

  lemma MessageGrows(ctx: Context, src: Folder, w: World, msg: Message)
    requires Faithful(src, msg) && Settled(Record(ctx, w))
    ensures Grows(Record(ctx, w), Record(ctx, CopyMessage(ctx, w, msg).0))
    ensures CopyMessage(ctx, w, msg).1 && msg.uid in Live(src) ==>
      msg.uid in Record(ctx, CopyMessage(ctx, w, msg).0).synced
  {
    MessageGrowsRecord(ctx, w, msg);
    LiveFlags(src, msg);
    hide CopyMessage, Record, Live;
  }

  /** Any run over messages of the source keeps the agreement; when nothing fails, every live
      message of the run is synced afterwards. */
  lemma {:induction false} RunKeepsAgreement(ctx: Context, src: Folder, t0: Folder, w: World, msgs: seq<Message>)
    requires Agrees(ctx, src, t0, w) && Settled(Record(ctx, w)) && AllFaithful(src, msgs)
    ensures
      var (w', fails) := CopyAll(ctx, w, msgs);
      && Agrees(ctx, src, t0, w') && Settled(Record(ctx, w'))
      && Grows(Record(ctx, w), Record(ctx, w'))
      && (fails == 0 ==> LiveSynced(src, msgs, Record(ctx, w')))
    decreases msgs
  {
    if msgs == [] {
    } else {
      assert Faithful(src, msgs[0]) && AllFaithful(src, msgs[1..]);
      MessageKeepsAgreement(ctx, src, t0, w, msgs[0]);
      MessageGrows(ctx, src, w, msgs[0]);
      hide CopyMessage, Agrees, Record, Live, Grows, LiveSynced, Settled, Faithful, AllFaithful, GoodMoment, Moments;
      var w1 := CopyMessage(ctx, w, msgs[0]).0;
      RunKeepsAgreement(ctx, src, t0, w1, msgs[1..]);
      var (w', fails) := CopyAll(ctx, w, msgs);
      GrowsTransitive(Record(ctx, w), Record(ctx, w1), Record(ctx, w'));
      if fails == 0 { FirstAndRestSynced(src, msgs, Record(ctx, w1), Record(ctx, w')); }
    }
  }

  lemma LiveFlags(src: Folder, msg: Message)
    requires Faithful(src, msg)
    ensures msg.uid in Live(src) <==> !IsDeleted(msg.flags)
  {
  }

  lemma {:induction false} RunKeepsExact(ctx: Context, src: Folder, t0: Folder, w: World, msgs: seq<Message>)
    requires Agrees(ctx, src, t0, w) && Settled(Record(ctx, w)) && AllFaithful(src, msgs)
    requires NoLostReplies(ctx.target) && Exact(t0, Record(ctx, w), Target(ctx, w))
    ensures CanSelect(CopyAll(ctx, w, msgs).0.target.account, ctx.folder)
    ensures var w' := CopyAll(ctx, w, msgs).0; Exact(t0, Record(ctx, w'), Target(ctx, w'))
    decreases msgs
  {
    if msgs == [] {
    } else {
      var w1 := CopyMessage(ctx, w, msgs[0]).0;
      hide CopyMessage, Record, Tied;
      MessageKeepsAgreement(ctx, src, t0, w, msgs[0]);
      MessageKeepsExact(ctx, src, t0, w, msgs[0]);
      RunKeepsExact(ctx, src, t0, w1, msgs[1..]);
    }
  }
}
