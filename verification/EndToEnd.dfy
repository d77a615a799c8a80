/** The copy and the verification put together: what a successful run leaves on the target, and
    when the verifier agrees with it. */
module EndToEnd {
  import opened Basics
  import opened Imap
  import opened SyncState
  import opened MessageCopy
  import opened Agreement
  import opened FolderCopy
  import opened FolderTree
  import opened MailboxRun
  import V = Verifier

  /** No selectable folder holds a message flagged `\Deleted`. */
  ghost predicate NothingDeleted(src: Account) {
    forall f, u :: CanSelect(src, f) && u in src.folders[f].msgs ==> "\\Deleted" !in src.folders[f].msgs[u].flags
  }

  lemma {:induction false} LinkedSizes(src: Folder, t: Folder, links: map<uint32, uint32>, uids: seq<uint32>)
    requires forall u :: u in uids ==> u in links && u in src.msgs && links[u] in t.msgs
    requires forall u :: u in uids && u in links && u in src.msgs && links[u] in t.msgs ==>
      t.msgs[links[u]].body == src.msgs[u].body
    ensures forall v :: v in Along(links, uids) ==> v in t.msgs
    ensures SizeOf(t, Along(links, uids)) == SizeOf(src, uids)
  {
    forall v | v in Along(links, uids) ensures v in t.msgs {
      var i :| 0 <= i < |uids| && Along(links, uids)[i] == v;
      assert uids[i] in uids;
    }
    if uids == [] {
    } else {
      assert uids[0] in uids;
      assert Along(links, uids)[1..] == Along(links, uids[1..]);
      LinkedSizes(src, t, links, uids[1..]);
    }
  }

  lemma LinkedIsListing(links: map<uint32, uint32>, uids: seq<uint32>)
    requires Injective(links) && NoDup(uids) && forall u :: u in uids <==> u in links
    ensures NoDup(Along(links, uids)) && Elements(Along(links, uids)) == links.Values
  {
    var r := Along(links, uids);
    forall i, j | 0 <= i < j < |r| ensures r[i] != r[j] {
      assert uids[i] in uids && uids[j] in uids;
    }
    forall v ensures v in Elements(r) <==> v in links.Values {
      if v in Elements(r) {
        var i :| 0 <= i < |r| && r[i] == v;
        assert uids[i] in uids;
      }
      if v in links.Values {
        var u :| u in links && links[u] == v;
        var i :| 0 <= i < |uids| && uids[i] == u;
        assert r[i] == v;
      }
    }
  }

  /** Two folders joined by a bijection that keeps bodies have the same size. */
  lemma JoinedSizes(src: Folder, t: Folder, links: map<uint32, uint32>)
    requires Injective(links) && links.Keys == src.msgs.Keys && links.Values == t.msgs.Keys
    requires forall u :: u in links ==> links[u] in t.msgs && t.msgs[links[u]].body == src.msgs[u].body
    ensures TotalSize(t) == TotalSize(src)
  {
    var uids := Ascending(src.msgs.Keys);
    LinkedIsListing(links, uids);
    LinkedSizes(src, t, links, uids);
    SizeIsTotal(t, Along(links, uids));
  }

  /** A complete and clean folder with nothing left out has the size of its source. */
  lemma SizesMatch(job: FolderJob, src: Folder, w: World)
    requires Complete(job, src, EMPTY_FOLDER, w) && Clean(job, EMPTY_FOLDER, w) && Live(src) == src.msgs.Keys
    ensures TotalSize(Target(job.ctx, w)) == TotalSize(src)
  {
    var links, t := Record(job.ctx, w).uidMap, Target(job.ctx, w);
    assert Tied(src, EMPTY_FOLDER, Record(job.ctx, w), t) && links.Keys == src.msgs.Keys;
    assert EMPTY_FOLDER.msgs.Keys + links.Values == links.Values;
    hide Record, Complete, Clean, Agrees, Live, TotalSize;
    JoinedSizes(src, t, links);
  }

  /** Counts and sizes of a copied folder agree exactly if no message was left out as deleted. */
  lemma TotalsAgreeUnlessDeleted(job: FolderJob, src: Folder, w: World)
    requires Complete(job, src, EMPTY_FOLDER, w) && Clean(job, EMPTY_FOLDER, w)
    ensures
      && |Target(job.ctx, w).msgs| == |src.msgs|
      && TotalSize(Target(job.ctx, w)) % TWO_TO_64 == TotalSize(src) % TWO_TO_64
      <==> Live(src) == src.msgs.Keys
  {
    CompleteAndCleanCount(job, src, EMPTY_FOLDER, w);
    assert |Target(job.ctx, w).msgs| == |Live(src)|;
    assert Live(src) <= src.msgs.Keys && |src.msgs| == |src.msgs.Keys|;
    if Live(src) == src.msgs.Keys {
      SizesMatch(job, src, w);
    } else {
      V.SubsetSizes(Live(src), src.msgs.Keys);
    }
  }

  // ---------------------------------------------------------------- a whole mailbox

  /** Every selectable source folder is complete on the target, and nothing else is in it. */
  ghost predicate IsWhole(p: Plan, src: Account, w: World) {
    forall f :: CanSelect(src, f) ==> IsCopied(JobFor(p, f), src.folders[f], w)
  }

  ghost predicate IsCopied(job: FolderJob, src: Folder, w: World) {
    Complete(job, src, EMPTY_FOLDER, w) && Clean(job, EMPTY_FOLDER, w)
  }

  /** A successful run against an acknowledging target. */
  lemma SuccessMeansWhole(p: Plan, r: Run)
    requires ValidAccount(r.sides.source.account) && FreshStart(p, r)
    requires Uncancelled(p) && AlwaysAcks(p.target) && CopyMailbox(p, r).1 == None
    ensures IsWhole(p, r.sides.source.account, CopyMailbox(p, r).0.sides.world)
  {
    hide CopyMailbox, FreshStart, ValidAccount, Complete, Clean;
    forall f | CanSelect(r.sides.source.account, f)
      ensures IsCopied(JobFor(p, f), r.sides.source.account.folders[f], CopyMailbox(p, r).0.sides.world)
    {
      SuccessMeansComplete(p, r, f);
    }
  }

  /** Only the records of the mailbox and the target account matter. */
  lemma WholeRespectsRecords(p: Plan, src: Account, w: World, w': World)
    requires IsWhole(p, src, w) && w'.target.account == w.target.account
    requires forall f :: RecOf(w'.state, p.mailbox, f) == RecOf(w.state, p.mailbox, f)
    ensures IsWhole(p, src, w')
  {
    hide Tied, RecOf;
  }

  /** The UID map is a bijection from the live source messages to all messages of the target
      folder, and each of these has the body, date and settable flags of its source. */
  ghost predicate IsExactImage(job: FolderJob, src: Folder, w: World) {
    && CanSelect(w.target.account, job.ctx.folder)
    && var links := Record(job.ctx, w).uidMap;
    && Injective(links) && links.Keys == Live(src) && links.Values == Target(job.ctx, w).msgs.Keys
    && Images(job, w) == Expected(src)
  }

  lemma CopiedIsExactImage(job: FolderJob, src: Folder, w: World)
    requires IsCopied(job, src, w) && Dated(src)
    ensures IsExactImage(job, src, w)
  {
    CompleteMeansExpected(job, src, EMPTY_FOLDER, w);
    var links := Record(job.ctx, w).uidMap;
    assert Target(job.ctx, w).msgs.Keys == EMPTY_FOLDER.msgs.Keys + links.Values;
    assert EMPTY_FOLDER.msgs.Keys == {};
  }

  /** The verifier passes a wholly copied mailbox if and only if no selectable source folder
      contains a message flagged `\Deleted`. */
  lemma WholeAndVerifyAgree(p: Plan, w: World, srcOracle: Oracle, src: Remote, tgtOracle: Oracle, tgt: Remote)
    requires IsWhole(p, src.account, w) && tgt.account == w.target.account
    requires V.Reliable(srcOracle) && V.Reliable(tgtOracle)
    ensures V.Passes(V.Verify(srcOracle, src, tgtOracle, tgt)) <==> NothingDeleted(src.account)
  {
    hide V.Verify, V.Passes, Complete, Clean, Record;
    var a, t := src.account, tgt.account;
    V.PassesExactlyOnSameTotals(srcOracle, src, tgtOracle, tgt);
    forall f | CanSelect(a, f)
      ensures CanSelect(t, f) && (V.SameTotals(a, t, f) <==> Live(a.folders[f]) == a.folders[f].msgs.Keys)
    {
      assert IsCopied(JobFor(p, f), a.folders[f], w);
      CompleteIsSelectable(JobFor(p, f), a.folders[f], w);
      TotalsAgreeUnlessDeleted(JobFor(p, f), a.folders[f], w);
    }
    forall f | CanSelect(a, f)
      ensures Live(a.folders[f]) == a.folders[f].msgs.Keys <==>
              forall u :: u in a.folders[f].msgs ==> !IsDeleted(a.folders[f].msgs[u].flags)
    {
      AllLive(a.folders[f]);
    }
  }

  /** Whatever reliable servers answer, the verifier passes the two accounts exactly if nothing in the
      source is flagged `\Deleted`. */
  ghost predicate VerifierAgrees(src: Account, tgt: Account) {
    forall srcOracle: Oracle, srcTick: nat, tgtOracle: Oracle, tgtTick: nat ::
      V.Reliable(srcOracle) && V.Reliable(tgtOracle) ==>
        (V.Passes(V.Verify(srcOracle, Remote(src, srcTick), tgtOracle, Remote(tgt, tgtTick))) <==> NothingDeleted(src))
  }

  /** What a whole copy amounts to: exact images in all folders, and an agreeing verifier. */
  ghost predicate IsProven(p: Plan, src: Account, w: World) {
    && (forall f :: CanSelect(src, f) && Dated(src.folders[f]) ==> IsExactImage(JobFor(p, f), src.folders[f], w))
    && VerifierAgrees(src, w.target.account)
  }

  lemma WholeIsProven(p: Plan, src: Account, w: World)
    requires IsWhole(p, src, w)
    ensures IsProven(p, src, w)
  {
    hide V.Verify, V.Passes, V.Reliable, NothingDeleted, IsCopied, IsExactImage, Dated;
    forall f | CanSelect(src, f) && Dated(src.folders[f]) ensures IsExactImage(JobFor(p, f), src.folders[f], w) {
      CopiedIsExactImage(JobFor(p, f), src.folders[f], w);
    }
    forall srcOracle: Oracle, srcTick: nat, tgtOracle: Oracle, tgtTick: nat
      | V.Reliable(srcOracle) && V.Reliable(tgtOracle)
      ensures V.Passes(V.Verify(srcOracle, Remote(src, srcTick), tgtOracle, Remote(w.target.account, tgtTick)))
              <==> NothingDeleted(src)
    {
      WholeAndVerifyAgree(p, w, srcOracle, Remote(src, srcTick), tgtOracle, Remote(w.target.account, tgtTick));
    }
  }

  /** Copy and verify agree, for one mailbox alone. */
  lemma CopyAndVerifyAgree(p: Plan, r: Run, srcOracle: Oracle, srcTick: nat, tgtOracle: Oracle, tgtTick: nat)
    requires ValidAccount(r.sides.source.account) && FreshStart(p, r)
    requires Uncancelled(p) && AlwaysAcks(p.target) && CopyMailbox(p, r).1 == None
    requires V.Reliable(srcOracle) && V.Reliable(tgtOracle)
    ensures
      var src, tgt := r.sides.source.account, CopyMailbox(p, r).0.sides.world.target.account;
      V.Passes(V.Verify(srcOracle, Remote(src, srcTick), tgtOracle, Remote(tgt, tgtTick))) <==> NothingDeleted(src)
  {
    hide CopyMailbox, FreshStart, V.Verify, V.Passes, IsWhole;
    var src, w := r.sides.source.account, CopyMailbox(p, r).0.sides.world;
    SuccessMeansWhole(p, r);
    WholeAndVerifyAgree(p, w, srcOracle, Remote(src, srcTick), tgtOracle, Remote(w.target.account, tgtTick));
  }

  lemma CompleteIsSelectable(job: FolderJob, src: Folder, w: World)
    requires Complete(job, src, EMPTY_FOLDER, w)
    ensures CanSelect(w.target.account, job.ctx.folder)
  {
  }

  lemma AllLive(fo: Folder)
    ensures Live(fo) == fo.msgs.Keys <==> forall u :: u in fo.msgs ==> !IsDeleted(fo.msgs[u].flags)
  {
    assert forall u :: u in Live(fo) ==> u in fo.msgs;
    if forall u :: u in fo.msgs ==> !IsDeleted(fo.msgs[u].flags) {
      assert Live(fo) == fo.msgs.Keys;
    }
  }
}
