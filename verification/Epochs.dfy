/** Sync records over several epochs of a source folder. A changed UIDVALIDITY clears the synced
    UIDs but keeps the UID map (internal/state/state.go:156-161), so the agreement of
    Agreement.dfy is one epoch's. What survives every reset is that no UID counts as synced
    without a recorded target UID. */
module Epochs {
  import opened Basics
  import opened Imap
  import opened SyncState
  import opened MessageCopy
  import opened Agreement
  import opened Pipeline
  import opened FolderCopy

  ghost predicate Covered(r: FolderRec) { r.synced <= r.uidMap.Keys }

  /** Exactly when a reset leaves the two domains equal: when there is none, or nothing to keep. */
  lemma ResetKeepsSettled(r: FolderRec, validity: uint32)
    requires Settled(r)
    ensures Settled(Revalidate(r, validity)) <==> r.uidValidity in {0, validity} || r.uidMap == map[]
    ensures Covered(Revalidate(r, validity))
  {
    assert r.uidMap.Keys == {} <==> r.uidMap == map[];
  }

  /** A record of an earlier epoch with one copied message: after the reset it is covered, but its
      link leads to the image of a message that the folder no longer holds. */
  lemma ResetKeepsStaleLinks(source: uint32, target: uint32, was: uint32, validity: uint32) returns (r: FolderRec)
    requires source != 0 && was != 0 && validity != was
    ensures Settled(r) && Kept(r) && r.uidValidity == was
    ensures var r' := Revalidate(r, validity);
            !Settled(r') && Covered(r') && source in r'.uidMap && source !in r'.synced
  {
    r := FolderRec("", was, 0, 0, {source}, source, 0, map[source := target]);
  }

  /** At every moment of the copying of a message, with or without faults, at most this one UID
      is synced without a link, and none is at its end. */
  lemma MessageKeepsCovered(ctx: Context, w: World, msg: Message)
    requires Covered(Record(ctx, w))
    ensures Covered(Record(ctx, CopyMessage(ctx, w, msg).0))
    ensures forall m :: m in Moments(ctx, w, msg) ==> Record(ctx, m).synced <= Record(ctx, m).uidMap.Keys + {msg.uid}
  {
    if Attempted(ctx, w, msg) {
      var (w1, uid) := SendAppend(ctx, Throttled(ctx, w), msg);
      assert Record(ctx, w1) == Record(ctx, w);
      if uid.Some? {
        assert uid.value != 0;
        var w2 := RecordSynced(ctx, w1, msg.uid);
        var w3 := RecordMapping(ctx, w2, msg.uid, uid.value);
        assert CopyMessage(ctx, w, msg).0 == CountCopied(w3, |msg.body|);
        hide Append, SendAppend, CopyMessage, Apply, RecOf, Record, RecordSynced, RecordMapping;
        RecordsAfter(ctx, w1, msg.uid, uid.value, |msg.body|);
      }
    }
  }

  lemma {:induction false} RunKeepsCovered(ctx: Context, w: World, msgs: seq<Message>)
    requires Covered(Record(ctx, w))
    ensures Covered(Record(ctx, CopyAll(ctx, w, msgs).0))
    decreases msgs
  {
    if msgs == [] {
    } else {
      hide CopyMessage, Record;
      MessageKeepsCovered(ctx, w, msgs[0]);
      RunKeepsCovered(ctx, CopyMessage(ctx, w, msgs[0]).0, msgs[1..]);
    }
  }

  lemma OpenKeepsCovered(job: FolderJob, s: Sides)
    requires Covered(Record(job.ctx, s.world))
    ensures Covered(Record(job.ctx, Open(job, s).0.world))
  {
    hide Ensure, SelectReply, FetchAllReply, Outside;
  }

  /** Copying a folder, whatever its epoch and however the copy ends, keeps the record covered. */
  lemma FolderKeepsCovered(job: FolderJob, s: Sides)
    requires Covered(Record(job.ctx, s.world))
    ensures Covered(Record(job.ctx, CopyFolder(job, s).0.world))
  {
    OpenKeepsCovered(job, s);
    hide Open, Record, Stamp, Processed;
    var (s1, opening) := Open(job, s);
    if opening.ToCopy? && job.ctx.folder in s1.source.account.folders {
      var msgs := Processed(EnvOf(job, s1, opening.uids), job.ending);
      RunKeepsCovered(job.ctx, s1.world, msgs);
      StampKeepsDomains(job, CopyAll(job.ctx, s1.world, msgs).0);
    }
  }

  lemma StampKeepsDomains(job: FolderJob, w: World)
    ensures Record(job.ctx, Stamp(job, w)).synced == Record(job.ctx, w).synced
    ensures Record(job.ctx, Stamp(job, w)).uidMap == Record(job.ctx, w).uidMap
  {
  }
}
