/** A run in which nothing goes wrong succeeds: with every command acknowledged, every connection
    made, an idle throttle and enough UIDs left, the copy of a mailbox returns nil. */
module Faultless {
  import opened Basics
  import opened Imap
  import opened SyncState
  import opened MessageCopy
  import opened Agreement
  import opened Pipeline
  import opened FolderTree
  import opened FolderCopy
  import opened MailboxRun

  /** No command, connection or throttling fails, the context does not end, and the target leaves at
      most `gap` UIDs unused before each one that it assigns. */
  ghost predicate FaultFree(p: Plan, gap: nat) { FaultFreeFrom(p, gap, 0) }

  /** The same, but the target may have refused some of its first `n` commands. */
  ghost predicate FaultFreeFrom(p: Plan, gap: nat, n: nat) {
    && AlwaysAcks(p.source) && Uncancelled(p)
    && (forall k :: p.dial(k))
    && (p.throttle.Some? ==> forall k :: p.throttle.value(k))
    && (forall k :: p.target(k).skip <= gap)
    && (forall k :: n <= k ==> p.target(k).outcome.Acked?)
  }

  /** From UIDNEXT `next` on there are UIDs for `n` messages. */
  ghost predicate Fits(n: nat, next: nat, gap: nat) {
    1 <= next && next + n * (gap + 1) <= TWO_TO_32
  }

  lemma FitsOneMore(n: nat, next: nat, next': nat, gap: nat)
    requires Fits(n, next, gap) && n > 0
    ensures next + gap < TWO_TO_32
    ensures next <= next' <= next + gap + 1 ==> Fits(n - 1, next', gap)
  {
    assert n * (gap + 1) == (n - 1) * (gap + 1) + (gap + 1);
  }

  lemma FitsFewer(n: nat, m: nat, next: nat, gap: nat)
    requires Fits(n, next, gap) && m <= n
    ensures Fits(m, next, gap)
  {
    assert m * (gap + 1) <= n * (gap + 1);
  }

  // ---------------------------------------------------------------- messages

  lemma MessageSucceeds(p: Plan, f: string, w: World, msg: Message, gap: nat, n: nat)
    requires FaultFreeFrom(p, gap, n) && n <= w.target.tick && CanSelect(w.target.account, f) && msg.uid != 0
    requires 1 <= w.target.account.folders[f].uidNext && w.target.account.folders[f].uidNext + gap < TWO_TO_32
    ensures
      var (w', ok) := CopyMessage(JobFor(p, f).ctx, w, msg);
      && ok && w.target.tick <= w'.target.tick && CanSelect(w'.target.account, f)
      && w.target.account.folders[f].uidNext <= w'.target.account.folders[f].uidNext
         <= w.target.account.folders[f].uidNext + gap + 1
  {
    hide Apply, RecOf;
  }

  lemma {:induction false} MessagesSucceed(p: Plan, f: string, w: World, msgs: seq<Message>, gap: nat, n: nat)
    requires FaultFreeFrom(p, gap, n) && n <= w.target.tick && CanSelect(w.target.account, f)
    requires Fits(|msgs|, w.target.account.folders[f].uidNext, gap)
    requires forall i :: 0 <= i < |msgs| ==> msgs[i].uid != 0
    ensures CopyAll(JobFor(p, f).ctx, w, msgs).1 == 0
    ensures w.target.tick <= CopyAll(JobFor(p, f).ctx, w, msgs).0.target.tick
    decreases msgs
  {
    if msgs == [] {
    } else {
      var next := w.target.account.folders[f].uidNext;
      FitsOneMore(|msgs|, next, next, gap);
      MessageSucceeds(p, f, w, msgs[0], gap, n);
      hide CopyMessage, FaultFreeFrom;
      var w1 := CopyMessage(JobFor(p, f).ctx, w, msgs[0]).0;
      FitsOneMore(|msgs|, next, w1.target.account.folders[f].uidNext, gap);
      hide Fits;
      MessagesSucceed(p, f, w1, msgs[1..], gap, n);
    }
  }

  // ---------------------------------------------------------------- fetching

  lemma {:induction false} FewerElements(s: seq<uint32>)
    ensures |Elements(s)| <= |s|
  {
    if s == [] {
      assert Elements(s) == {};
    } else {
      FewerElements(s[1..]);
      assert Elements(s) == {s[0]} + Elements(s[1..]) by { assert s == [s[0]] + s[1..]; }
    }
  }

  lemma FewerAnswers(fo: Folder, uids: seq<uint32>, ans: Answer)
    ensures FetchReply(fo, uids, ans).Some? <==> ans.outcome.Acked?
    ensures FetchReply(fo, uids, ans).Some? ==> |FetchReply(fo, uids, ans).value| <= |uids|
  {
    var wanted := Elements(uids) * fo.msgs.Keys;
    var order := UidOrder(wanted, ans.uids);
    ElementsOfNoDup(order);
    FewerElements(uids);
    assert wanted <= Elements(uids);
    SubsetIsSmaller(wanted, Elements(uids));
  }

  lemma SubsetIsSmaller(a: set<uint32>, b: set<uint32>)
    requires a <= b
    ensures |a| <= |b|
  {
    assert b == a + (b - a);
  }

  lemma BatchArrives(env: Env, source: Folder, oracle: Oracle, tick: nat, start: nat)
    requires env.fetch == Fetching(source, oracle, tick) && AlwaysAcks(oracle) && start < |env.uids|
    ensures FetchAt(env, start).Fetched? && |FetchAt(env, start).msgs| <= |Request(env, start)|
  {
    var ans := oracle(tick + start / BATCH_SIZE);
    var reply := FetchReply(source, Request(env, start), ans);
    assert FetchAt(env, start) == BatchFrom(reply);
    FewerAnswers(source, Request(env, start), ans);
    hide FetchReply, FetchAt, Request;
    assert ans.outcome.Acked?;
  }

  /** An acknowledging source delivers at most what is asked for, and no fetch fails. */
  lemma {:induction false} DeliversNoMore(env: Env, source: Folder, oracle: Oracle, tick: nat, start: nat)
    requires env.fetch == Fetching(source, oracle, tick) && AlwaysAcks(oracle)
    ensures FetchFailed !in Upcoming(env, start)
    ensures |MessagesIn(Upcoming(env, start))| <= if start < |env.uids| then |env.uids| - start else 0
    decreases |env.uids| - start
  {
    if start < |env.uids| {
      BatchArrives(env, source, oracle, tick, start);
      DeliversNoMore(env, source, oracle, tick, start + BATCH_SIZE);
      hide FetchAt, AlwaysAcks;
      var b := FetchAt(env, start);
      var later := Upcoming(env, start + BATCH_SIZE);
      assert Upcoming(env, start) == [b] + later;
      assert ([b] + later)[1..] == later;
      assert MessagesIn(Upcoming(env, start)) == b.msgs + MessagesIn(later);
    }
  }

  // ---------------------------------------------------------------- folders

  lemma WholeListing(fo: Folder, ans: Answer)
    requires ans.outcome.Acked?
    ensures var listed := FetchAllReply(fo, ans);
      && listed.Some? && |listed.value| == |fo.msgs| && Outside(Uids(listed.value), {}) == Uids(listed.value)
  {
    var order := UidOrder(fo.msgs.Keys, ans.uids);
    ElementsOfNoDup(order);
    OutsideNothing(Uids(Messages(fo, order)));
  }

  /** The folder is on the target; as a mere container only if there is nothing to copy into it. */
  ghost predicate IsThere(src: Folder, f: string, tgt: Account) {
    f in tgt.folders && (CanSelect(tgt, f) || src.msgs == map[])
  }

  lemma PrepareSucceeds(p: Plan, f: string, s: Sides, info: Info, gap: nat, n: nat)
    requires FaultFreeFrom(p, gap, n) && n <= s.world.target.tick && CanSelect(s.source.account, f)
    requires IsThere(s.source.account.folders[f], f, s.world.target.account) && Pending(JobFor(p, f), s.world)
    requires info.messages == |s.source.account.folders[f].msgs|
    ensures
      var (s1, opening) := Prepare(JobFor(p, f), s, info);
      && (opening.Over? ==> opening.error == None)
      && s1.source.account == s.source.account && s1.world.target.account == s.world.target.account
      && s.world.target.tick <= s1.world.target.tick
      && (opening.ToCopy? ==>
            |opening.uids| <= |s.source.account.folders[f].msgs| && CanSelect(s1.world.target.account, f))
  {
    var job := JobFor(p, f);
    assert job.source(s.source.tick).outcome.Acked? && job.ctx.target(s.world.target.tick).outcome.Acked?;
    WholeListing(s.source.account.folders[f], job.source(s.source.tick));
    NoMessages(s.source.account.folders[f]);
    var c := Apply(s.world.state, p.mailbox, Op.SetUIDValidity(f, info.uidValidity));
    assert RecOf(c, p.mailbox, f).synced == {};
    hide FetchAllReply, Outside, Apply, RecOf, Pending, FaultFreeFrom;
  }

  /** What the opening steps find in a folder without record. */
  lemma OpenSucceeds(p: Plan, f: string, s: Sides, gap: nat, n: nat)
    requires FaultFreeFrom(p, gap, n) && n <= s.world.target.tick && CanSelect(s.source.account, f)
    requires IsThere(s.source.account.folders[f], f, s.world.target.account) && Pending(JobFor(p, f), s.world)
    requires s.world.target.account.delim != '%'
    ensures
      var (s1, opening) := Open(JobFor(p, f), s);
      && (opening.Over? ==> opening.error == None)
      && s1.source.account == s.source.account && s1.world.target.account == s.world.target.account
      && s.world.target.tick <= s1.world.target.tick
      && (opening.ToCopy? ==>
            |opening.uids| <= |s.source.account.folders[f].msgs| && CanSelect(s1.world.target.account, f))
  {
    var job, src := JobFor(p, f), s.source.account.folders[f];
    assert job.source(s.source.tick).outcome.Acked? && job.ctx.target(s.world.target.tick).outcome.Acked?;
    NameMatchesItself(f, s.world.target.account.delim);
    var (target, ok) := Ensure(job.ctx.target, s.world.target, f);
    assert ok && target.account == s.world.target.account && target.tick == s.world.target.tick + 1;
    var s2 := Sides(s.world.(target := target), Answered(s.source));
    hide Ensure, Prepare, FaultFreeFrom, RecOf, IsThere;
    PrepareSucceeds(p, f, s2, Info(|src.msgs|, src.uidValidity), gap, n);
  }

  lemma LoopSucceeds(p: Plan, f: string, s: Sides, uids: seq<uint32>, gap: nat, n: nat)
    requires FaultFreeFrom(p, gap, n) && n <= s.world.target.tick
    requires f in s.source.account.folders && ValidFolder(s.source.account.folders[f])
    requires CanSelect(s.world.target.account, f) && |uids| <= |s.source.account.folders[f].msgs|
    requires Fits(|s.source.account.folders[f].msgs|, s.world.target.account.folders[f].uidNext, gap)
    ensures CopyLoop(JobFor(p, f), s, uids).1 == None
    ensures s.world.target.tick <= CopyLoop(JobFor(p, f), s, uids).0.world.target.tick
  {
    var job, src := JobFor(p, f), s.source.account.folders[f];
    var env := EnvOf(job, s, uids);
    var d := Delivered(env);
    DeliversNoMore(env, src, p.source, s.source.tick, 0);
    DeliversSource(env, src, p.source, s.source.tick, 0);
    forall i | 0 <= i < |d| ensures d[i].uid != 0 { assert Faithful(src, d[i]); }
    FitsFewer(|src.msgs|, |d|, s.world.target.account.folders[f].uidNext, gap);
    hide Upcoming, MessagesIn, Fits, ValidFolder, AllFaithful, Apply;
    assert Processed(env, job.ending) == d;
    MessagesSucceed(p, f, s.world, d, gap, n);
    hide CopyAll, Delivered, FaultFreeFrom;
  }

  lemma FolderSucceeds(p: Plan, f: string, s: Sides, gap: nat, n: nat)
    requires FaultFreeFrom(p, gap, n) && n <= s.world.target.tick && s.world.target.account.delim != '%'
    requires ValidAccount(s.source.account) && Awaits(p, s.source.account, f, s.world, gap)
    ensures CopyFolder(JobFor(p, f), s).1 == None
    ensures s.world.target.tick <= CopyFolder(JobFor(p, f), s).0.world.target.tick
  {
    assert ValidFolder(s.source.account.folders[f]);
    hide Open, CopyLoop, FaultFreeFrom, Fits, ValidFolder, Pending;
    OpenSucceeds(p, f, s, gap, n);
    var (s1, opening) := Open(JobFor(p, f), s);
    if opening.ToCopy? { LoopSucceeds(p, f, s1, opening.uids, gap, n); }
  }

  // ---------------------------------------------------------------- the mailbox

  /** The folder can be copied whole: it is there on both sides, without record, and fits. */
  ghost predicate Awaits(p: Plan, src: Account, f: string, w: World, gap: nat) {
    && CanSelect(src, f) && IsThere(src.folders[f], f, w.target.account) && Pending(JobFor(p, f), w)
    && Fits(|src.folders[f].msgs|, w.target.account.folders[f].uidNext, gap)
  }

  lemma OthersAwait(p: Plan, src: Account, f: string, w: World, w': World, g: string, gap: nat)
    requires Elsewhere(p.mailbox, f, w, w') && g != f && Awaits(p, src, g, w, gap)
    ensures Awaits(p, src, g, w', gap)
  {
    OthersStay(p, src, f, w, w', g);
    hide Pending, Fits, RecOf, IsInferior;
  }

  lemma {:induction false} EachSucceeds(p: Plan, r: Run, es: seq<Entry>, src: Account, gap: nat, n: nat)
    requires FaultFreeFrom(p, gap, n) && n <= r.sides.world.target.tick
    requires ValidAccount(src) && r.sides.source.account == src
    requires r.sides.world.target.account.delim != '%' && DistinctNames(es)
    requires forall e :: e in es && !e.IsNoSelect() ==> Awaits(p, src, e.name, r.sides.world, gap)
    ensures CopyEach(p, r, es).1 == 0 && CopyEach(p, r, es).2
    ensures n <= CopyEach(p, r, es).0.sides.world.target.tick
    decreases es
  {
    if es == [] {
    } else {
      assert forall e :: e in es <==> e == es[0] || e in es[1..];
      assert DistinctNames(es[1..]);
      if es[0].IsNoSelect() {
        EachSucceeds(p, r, es[1..], src, gap, n);
      } else {
        var f := es[0].name;
        FirstSucceeds(p, r, es, src, gap, n);
        hide CopyFolder, Awaits, Elsewhere, FaultFreeFrom, ValidAccount;
        EachSucceeds(p, r.(sides := CopyFolder(JobFor(p, f), r.sides).0), es[1..], src, gap, n);
      }
    }
  }

  lemma FirstSucceeds(p: Plan, r: Run, es: seq<Entry>, src: Account, gap: nat, n: nat)
    requires FaultFreeFrom(p, gap, n) && n <= r.sides.world.target.tick
    requires ValidAccount(src) && r.sides.source.account == src
    requires r.sides.world.target.account.delim != '%' && DistinctNames(es) && es != [] && !es[0].IsNoSelect()
    requires forall e :: e in es && !e.IsNoSelect() ==> Awaits(p, src, e.name, r.sides.world, gap)
    ensures
      var (sides, err) := CopyFolder(JobFor(p, es[0].name), r.sides);
      && err == None && sides.source.account == src && sides.world.target.account.delim != '%'
      && r.sides.world.target.tick <= sides.world.target.tick
      && forall e :: e in es[1..] && !e.IsNoSelect() ==> Awaits(p, src, e.name, sides.world, gap)
  {
    var f := es[0].name;
    assert es[0] in es && Awaits(p, src, f, r.sides.world, gap);
    FolderSucceeds(p, f, r.sides, gap, n);
    CopyFolderElsewhere(JobFor(p, f), r.sides);
    hide CopyFolder, Awaits, FaultFreeFrom, ValidAccount, Elsewhere;
    var sides := CopyFolder(JobFor(p, f), r.sides).0;
    ElsewhereKeepsDelim(p.mailbox, f, r.sides.world, sides.world);
    forall e | e in es[1..] && !e.IsNoSelect() ensures Awaits(p, src, e.name, sides.world, gap) {
      var i :| 0 <= i < |es[1..]| && es[1..][i] == e;
      assert es[i + 1] == e && e in es;
      OthersAwait(p, src, f, r.sides.world, sides.world, e.name, gap);
    }
  }

  /** New folders begin with a small UIDNEXT. */
  ghost predicate NewAreLow(a: Account, a': Account, gap: nat) {
    forall g :: g in a'.folders ==>
      (g in a.folders && a'.folders[g].uidNext == a.folders[g].uidNext)
          || (g !in a.folders && 1 <= a'.folders[g].uidNext <= 1 + gap)
  }

  lemma CreateIsLow(a: Account, a': Account, name: string, ans: Answer, gap: nat)
    requires ans.skip <= gap && NewAreLow(a, a', gap) && a.folders.Keys <= a'.folders.Keys
    ensures NewAreLow(a, Create(a', name, ans).0, gap) && a.folders.Keys <= Create(a', name, ans).0.folders.Keys
  {
  }

  lemma {:induction false} CreatedAreLow(p: Plan, a: Account, r: Remote, present: set<string>, es: seq<Entry>, gap: nat)
    requires (forall n :: p.target(n).skip <= gap) && NewAreLow(a, r.account, gap)
      && a.folders.Keys <= r.account.folders.Keys
    ensures NewAreLow(a, CreateMissing(p.target, r, present, es).0.account, gap)
    decreases es
  {
    if es == [] {
    } else {
      hide Create, NewAreLow;
      var ans := p.target(r.tick);
      if es[0].IsNoSelect() || es[0].name in present {
        CreatedAreLow(p, a, r, present, es[1..], gap);
      } else {
        CreateIsLow(a, r.account, es[0].name, ans, gap);
        CreatedAreLow(p, a, Remote(Create(r.account, es[0].name, ans).0, r.tick + 1), present, es[1..], gap);
      }
    }
  }

  /** There are UIDs for all messages: in INBOX from where the target stands, elsewhere from the start. */
  ghost predicate HasRoom(src: Account, tgt: Account, gap: nat) {
    forall f :: CanSelect(src, f) ==>
      Fits(|src.folders[f].msgs|, if f in tgt.folders then tgt.folders[f].uidNext else 1 + gap, gap)
  }

  lemma FitsFromLower(n: nat, next: nat, next': nat, gap: nat)
    requires Fits(n, next', gap) && 1 <= next <= next'
    ensures Fits(n, next, gap)
  {
  }

  lemma FoldersSucceed(p: Plan, r: Run, gap: nat)
    requires FaultFree(p, gap) && ValidAccount(r.sides.source.account) && FreshStart(p, r)
    requires HasRoom(r.sides.source.account, r.sides.world.target.account, gap)
    ensures CopyFolders(p, r).1
    ensures forall f :: CanSelect(r.sides.source.account, f) ==>
              Awaits(p, r.sides.source.account, f, CopyFolders(p, r).0.sides.world, gap)
    ensures CopyFolders(p, r).0.sides.source.account == r.sides.source.account
    ensures CopyFolders(p, r).0.sides.world.target.account.delim != '%'
  {
    var src, w := r.sides.source.account, r.sides.world;
    assert p.source(r.sides.source.tick).outcome.Acked? && p.target(w.target.tick).outcome.Acked?;
    assert AlwaysAcks(p.target);
    var listed := ListReply(src, p.source(r.sides.source.tick)).value;
    var present := ListReply(w.target.account, p.target(w.target.tick)).value;
    assert CopyFolders(p, r).1;
    CopyFoldersMakesSelectable(p, r);
    CopyFoldersEffect(p, r);
    ListedAreSelectable(src, p.source(r.sides.source.tick));
    CreatedAreLow(p, w.target.account, Answered(w.target), NamesOf(present), SortByName(listed, false), gap);
    var w' := CopyFolders(p, r).0.sides.world;
    assert NewAreLow(w.target.account, w'.target.account, gap);
    SproutsKeepsPending(p, r, w', SourceEntries(p, r));
    hide CopyFolders, ListReply, Pending, FaultFree, ValidAccount, Fits;
    forall f | CanSelect(src, f) ensures Awaits(p, src, f, w', gap) {
      if f !in w.target.account.folders {
        FitsFromLower(|src.folders[f].msgs|, w'.target.account.folders[f].uidNext, 1 + gap, gap);
      }
    }
  }

  /** Once the folder structure stands and nothing fails any more, the copy returns nil. */
  lemma RestSucceeds(p: Plan, r: Run, gap: nat, n: nat)
    requires FaultFreeFrom(p, gap, n) && ValidAccount(r.sides.source.account)
    requires
      var (r1, structured) := CopyFolders(p, Connect(p, r).0);
      && structured && n <= r1.sides.world.target.tick && r1.sides.source.account == r.sides.source.account
      && r1.sides.world.target.account.delim != '%'
      && forall f :: CanSelect(r.sides.source.account, f) ==> Awaits(p, r.sides.source.account, f, r1.sides.world, gap)
    ensures CopyMailbox(p, r).1 == None
  {
    var src := r.sides.source.account;
    var r1 := CopyFolders(p, Connect(p, r).0).0;
    var ans := p.source(r1.sides.source.tick);
    assert ans.outcome.Acked? && Connect(p, r).1;
    ListedAreSelectable(src, ans);
    ListingNamesAll(src, ans);
    var listed := ListReply(src, ans).value;
    hide ListReply, CopyFolders, Awaits, ValidAccount, CanSelect;
    EachSucceeds(p, SourceTick(r1), listed, src, gap, n);
    hide CopyEach;
  }

  /** Nothing fails, so nothing is reported: a fault-free copy from a fresh start returns nil. */
  lemma MailboxSucceeds(p: Plan, r: Run, gap: nat)
    requires FaultFree(p, gap) && ValidAccount(r.sides.source.account) && FreshStart(p, r)
    requires HasRoom(r.sides.source.account, r.sides.world.target.account, gap)
    ensures CopyMailbox(p, r).1 == None
  {
    var r1 := Connect(p, r).0;
    assert FreshStart(p, r1);
    FoldersSucceed(p, r1, gap);
    hide CopyFolders, CopyMailbox, Awaits, ValidAccount, FreshStart, HasRoom;
    RestSucceeds(p, r, gap, 0);
  }
}
