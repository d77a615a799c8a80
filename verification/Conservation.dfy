/** Bookkeeping of a folder copy: in every state of every run of the pipeline, faults and
    cancellation included, each message, byte and new target message is accounted for
    (internal/mailbox/copy.go:193-237, internal/mailbox/mailbox.go:190-202). */
module Conservation {
  import opened Basics
  import opened Imap
  import opened MessageCopy
  import opened Pipeline

  /** The synced set grows by one UID for each acknowledged append. */
  lemma SyncedGrowsByAcknowledged(ctx: Context, w: World, msgs: seq<Message>)
    requires CanSelect(w.target.account, ctx.folder) && ValidFolder(Target(ctx, w))
    ensures |Record(ctx, CopyAll(ctx, w, msgs).0).synced| == |Record(ctx, w).synced| + |Acknowledged(ctx, w, msgs)|
  {
    CopyAllSyncs(ctx, w, msgs);
    AcknowledgedOnce(ctx, w, msgs);
    hide Record, Acknowledged, CopyAll, ValidFolder, CanSelect, Target;
    var uids := Uids(Acknowledged(ctx, w, msgs));
    ElementsOfNoDup(uids);
    assert Record(ctx, w).synced !! Elements(uids);
  }

  /** Copied, skipped and failed messages add up to the processed ones; the synced set grows by the
      copied ones; the bytes are those of the acknowledged bodies; and the target grows by at least
      the copied and at most the copied and failed ones. */
  lemma PipelineConserves(env: Env, w: World, states: seq<State>, actors: seq<Actor>, i: nat)
    requires IsRun(env, w, states, actors) && i < |states|
    requires CanSelect(w.target.account, env.ctx.folder) && ValidFolder(Target(env.ctx, w))
    ensures
      var t := states[i].tally;
      && CanSelect(t.world.target.account, env.ctx.folder) && t.done <= |Delivered(env)|
      && var copied := t.world.stats.copied - w.stats.copied;
      && copied + (t.world.stats.skipped - w.stats.skipped) + t.fails == t.done
      && |Record(env.ctx, t.world).synced| - |Record(env.ctx, w).synced| == copied
      && t.world.stats.bytes - w.stats.bytes == BytesOf(Acknowledged(env.ctx, w, Delivered(env)[..t.done]))
      && copied <= |Target(env.ctx, t.world).msgs| - |Target(env.ctx, w).msgs| <= copied + t.fails
  {
    CopiesAPrefix(env, w, states, actors, i);
    hide IsRun, Delivered, Record, Acknowledged, CopyAll, ValidFolder, CanSelect;
    var msgs := Delivered(env)[..states[i].tally.done];
    CopyAllConserves(env.ctx, w, msgs);
    SyncedGrowsByAcknowledged(env.ctx, w, msgs);
  }
}
