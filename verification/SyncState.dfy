/** The sync state as a mathematical value, and every operation of `State` as a function on it
    (internal/state/state.go). The classes in StateHeap.dfy are proved against this module. */
module SyncState {
  import opened Basics

  datatype FolderRec = FolderRec(
    name: string,
    uidValidity: uint32,
    uidNext: uint32,
    lastSync: Timestamp,
    synced: set<uint32>,
    highest: uint32,
    messageCount: uint32,
    uidMap: map<uint32, uint32>)

  datatype MailboxRec = MailboxRec(
    name: string,
    folders: map<string, FolderRec>,
    lastSync: Timestamp,
    syncCount: int)

  type Contents = map<string, MailboxRec>

  function NewFolder(f: string): FolderRec { FolderRec(f, 0, 0, 0, {}, 0, 0, map[]) }

  function NewMailbox(mb: string): MailboxRec { MailboxRec(mb, map[], 0, 0) }

  predicate HasFolder(c: Contents, mb: string, f: string) { mb in c && f in c[mb].folders }

  /** The record of a folder; a missing one counts as new. */
  function RecOf(c: Contents, mb: string, f: string): FolderRec {
    if HasFolder(c, mb, f) then c[mb].folders[f] else NewFolder(f)
  }

  function EnsureMailbox(c: Contents, mb: string): Contents {
    if mb in c then c else c[mb := NewMailbox(mb)]
  }

  function PutFolder(c: Contents, mb: string, f: string, r: FolderRec): Contents {
    var m := EnsureMailbox(c, mb)[mb];
    c[mb := m.(folders := m.folders[f := r])]
  }

  function EnsureFolder(c: Contents, mb: string, f: string): Contents {
    if HasFolder(c, mb, f) then c else PutFolder(c, mb, f, NewFolder(f))
  }

  lemma PutSame(c: Contents, mb: string, f: string)
    requires HasFolder(c, mb, f)
    ensures PutFolder(c, mb, f, c[mb].folders[f]) == c
  {
    assert c[mb].folders[f := c[mb].folders[f]] == c[mb].folders;
  }

  lemma PutOverEnsured(c: Contents, mb: string, f: string, r: FolderRec)
    ensures PutFolder(EnsureFolder(c, mb, f), mb, f, r) == PutFolder(c, mb, f, r)
    ensures RecOf(EnsureFolder(c, mb, f), mb, f) == RecOf(c, mb, f)
  {
    if !HasFolder(c, mb, f) {
      var m := EnsureMailbox(c, mb)[mb].folders;
      assert m[f := NewFolder(f)][f := r] == m[f := r];
    }
  }

  /** Finding or creating a folder is finding or creating its mailbox first. */
  lemma EnsureFolderInTwoSteps(c: Contents, mb: string, f: string)
    ensures var d := EnsureMailbox(c, mb);
            if f in d[mb].folders then
              HasFolder(c, mb, f) && EnsureFolder(c, mb, f) == d && RecOf(c, mb, f) == d[mb].folders[f]
            else
              && !HasFolder(c, mb, f) && RecOf(c, mb, f) == NewFolder(f)
              && EnsureFolder(c, mb, f) == d[mb := d[mb].(folders := d[mb].folders[f := NewFolder(f)])]
  {
  }

  // ---------------------------------------------------------------- what a call leaves alone

  /** Of all records only that of folder `f` in mailbox `mb` may differ, which exists afterwards. */
  ghost predicate OnlyFolder(c: Contents, c': Contents, mb: string, f: string) {
    && HasFolder(c', mb, f)
    && (forall m :: m in c' <==> m in c || m == mb)
    && (forall m :: m in c && m != mb ==> c'[m] == c[m])
    && (forall g :: g in c'[mb].folders <==> g == f || HasFolder(c, mb, g))
    && (forall g :: HasFolder(c, mb, g) && g != f ==> c'[mb].folders[g] == c[mb].folders[g])
    && c'[mb].name == if mb in c then c[mb].name else mb
  }

  /** The mailbox has been synced as often and as lately as before; a new one never was. */
  ghost predicate SameStamps(c: Contents, c': Contents, mb: string) {
    && mb in c'
    && c'[mb].lastSync == (if mb in c then c[mb].lastSync else 0)
    && c'[mb].syncCount == (if mb in c then c[mb].syncCount else 0)
  }

  /** How often the mailbox was synced, and when last; a missing one never was. */
  function SyncsOf(c: Contents, mb: string): int { if mb in c then c[mb].syncCount else 0 }

  function LastSyncOf(c: Contents, mb: string): Timestamp { if mb in c then c[mb].lastSync else 0 }

  /** The calls made while messages are copied leave the stamps of the mailbox alone. */
  lemma CopyingKeepsStamps(c: Contents, mb: string, op: Op)
    requires op.MarkSynced? || op.SetUIDMapping? || op.SetUIDValidity?
    ensures SyncsOf(Apply(c, mb, op), mb) == SyncsOf(c, mb) && LastSyncOf(Apply(c, mb, op), mb) == LastSyncOf(c, mb)
  {
  }

  lemma PutFolderSays(c: Contents, mb: string, f: string, r: FolderRec)
    ensures var c' := PutFolder(c, mb, f, r);
            OnlyFolder(c, c', mb, f) && SameStamps(c, c', mb) && c'[mb].folders[f] == r
  {
  }

  /** What counts for a folder without a record. */
  lemma MissingIsNew(c: Contents, mb: string, f: string)
    requires !HasFolder(c, mb, f)
    ensures var r := RecOf(c, mb, f);
            && r.name == f && r.uidValidity == 0 && r.uidNext == 0 && r.lastSync == 0 && r.synced == {}
            && r.highest == 0 && r.messageCount == 0 && r.uidMap == map[]
  {
  }

  /** The mailbox is stamped with the time and counts one more sync. */
  ghost predicate Stamped(c: Contents, c': Contents, mb: string, now: Timestamp) {
    && mb in c' && c'[mb].lastSync == now
    && c'[mb].syncCount == (if mb in c then c[mb].syncCount else 0) + 1
  }

  lemma FolderStampSays(c: Contents, mb: string, f: string, now: Timestamp)
    ensures var c' := Apply(c, mb, Op.UpdateLastSync(f, now));
            && OnlyFolder(c, c', mb, f) && Stamped(c, c', mb, now)
            && c'[mb].folders[f] == RecOf(c, mb, f).(lastSync := now)
  {
    PutFolderSays(c, mb, f, RecOf(c, mb, f).(lastSync := now));
  }

  lemma MailboxStampSays(c: Contents, mb: string, now: Timestamp)
    ensures var c' := Apply(c, mb, Op.UpdateMailboxLastSync(now));
            && Stamped(c, c', mb, now) && c'[mb].name == (if mb in c then c[mb].name else mb)
            && c'[mb].folders == (if mb in c then c[mb].folders else map[])
            && (forall m :: m in c' <==> m in c || m == mb)
            && (forall m :: m in c && m != mb ==> c'[m] == c[m])
  {
  }

  // ---------------------------------------------------------------- effects on one record

  /** A changed UIDVALIDITY starts a new epoch: the synced set goes, the UID map stays. */
  function Revalidate(r: FolderRec, validity: uint32): FolderRec {
    if r.uidValidity == validity then r
    else if r.uidValidity != 0 then
      r.(uidValidity := validity, synced := {}, highest := 0, lastSync := 0)
    else r.(uidValidity := validity)
  }

  function Mark(r: FolderRec, uid: uint32): FolderRec {
    if uid == 0 then r
    else r.(synced := r.synced + {uid}, highest := if uid > r.highest then uid else r.highest)
  }

  function MarkAll(r: FolderRec, uids: seq<uint32>): FolderRec
    decreases uids
  {
    if uids == [] then r else MarkAll(Mark(r, uids[0]), uids[1..])
  }

  function Link(r: FolderRec, source: uint32, target: uint32): FolderRec {
    r.(uidMap := r.uidMap[source := target])
  }

  function Reset(r: FolderRec): FolderRec {
    r.(synced := {}, uidMap := map[], highest := 0, lastSync := 0, uidValidity := 0)
  }

  /** The UIDs of `all` outside `done`, in the order of `all`. */
  function Outside(all: seq<uint32>, done: set<uint32>): seq<uint32> {
    if all == [] then []
    else (if all[0] in done then [] else [all[0]]) + Outside(all[1..], done)
  }

  // ---------------------------------------------------------------- operations

  /** One locked call on the `State` of one mailbox. */
  datatype Op =
    | GetMailbox
    | GetFolder(folder: string)
    | SetUIDValidity(folder: string, validity: uint32)
    | MarkSynced(folder: string, uid: uint32)
    | MarkMultipleSynced(folder: string, uids: seq<uint32>)
    | SetUIDMapping(folder: string, source: uint32, target: uint32)
    | UpdateLastSync(folder: string, now: Timestamp)
    | UpdateMailboxLastSync(now: Timestamp)
    | ClearFolder(folder: string)
    | ClearMailbox
    | GetUIDValidity(folder: string)
    | GetTargetUID(folder: string, source: uint32)
    | IsSynced(folder: string, uid: uint32)
    | GetUnsyncedUIDs(folder: string, uids: seq<uint32>)
    | GetHighestSyncedUID(folder: string)
    | GetSyncedCount(folder: string)

  datatype Reply = Void | Flag(flag: bool) | Number(n: nat) | Listed(uids: seq<uint32>) | Linked(uid: Option<uint32>)

  function Apply(c: Contents, mb: string, op: Op): Contents {
    match op
    case GetMailbox => EnsureMailbox(c, mb)
    case GetFolder(f) => EnsureFolder(c, mb, f)
    case SetUIDValidity(f, v) => PutFolder(c, mb, f, Revalidate(RecOf(c, mb, f), v))
    case MarkSynced(f, uid) => if uid == 0 then c else PutFolder(c, mb, f, Mark(RecOf(c, mb, f), uid))
    case MarkMultipleSynced(f, uids) =>
      if uids == [] then c else PutFolder(c, mb, f, MarkAll(RecOf(c, mb, f), uids))
    case SetUIDMapping(f, s, t) =>
      if s == 0 || t == 0 then c else PutFolder(c, mb, f, Link(RecOf(c, mb, f), s, t))
    case UpdateLastSync(f, now) =>
      var c' := PutFolder(c, mb, f, RecOf(c, mb, f).(lastSync := now));
      c'[mb := c'[mb].(lastSync := now, syncCount := c'[mb].syncCount + 1)]
    case UpdateMailboxLastSync(now) =>
      var c' := EnsureMailbox(c, mb);
      c'[mb := c'[mb].(lastSync := now, syncCount := c'[mb].syncCount + 1)]
    case ClearFolder(f) => if HasFolder(c, mb, f) then PutFolder(c, mb, f, Reset(RecOf(c, mb, f))) else c
    case ClearMailbox => if mb in c then c[mb := NewMailbox(mb)] else c
    case _ => c
  }

  function Answer(c: Contents, mb: string, op: Op): Reply {
    match op
    case SetUIDValidity(f, v) =>
      var was := RecOf(c, mb, f).uidValidity; Flag(was != 0 && was != v)
    case MarkSynced(f, uid) => Flag(uid != 0)
    case GetUIDValidity(f) => Number(RecOf(c, mb, f).uidValidity)
    case GetTargetUID(f, s) =>
      var m := RecOf(c, mb, f).uidMap; Linked(if s in m then Some(m[s]) else None)
    case IsSynced(f, uid) => Flag(uid in RecOf(c, mb, f).synced)
    case GetUnsyncedUIDs(f, uids) => Listed(Outside(uids, RecOf(c, mb, f).synced))
    case GetHighestSyncedUID(f) => Number(RecOf(c, mb, f).highest)
    case GetSyncedCount(f) => Number(|RecOf(c, mb, f).synced|)
    case _ => Void
  }

  /** Whether the call sets the dirty flag. */
  predicate Dirties(c: Contents, mb: string, op: Op) {
    match op
    case GetMailbox => mb !in c
    case GetFolder(f) => !HasFolder(c, mb, f)
    case SetUIDValidity(f, v) => !HasFolder(c, mb, f) || RecOf(c, mb, f).uidValidity != v
    case MarkSynced(f, uid) => uid != 0
    case MarkMultipleSynced(f, uids) => uids != []
    case SetUIDMapping(f, s, t) => s != 0 && t != 0
    case UpdateLastSync(f, _) => true
    case UpdateMailboxLastSync(_) => true
    case ClearFolder(f) => HasFolder(c, mb, f)
    case ClearMailbox => mb in c
    case _ => false
  }

  datatype Call = Call(mailbox: string, op: Op)

  function RunCalls(c: Contents, calls: seq<Call>): Contents
    decreases calls
  {
    if calls == [] then c
    else RunCalls(Apply(c, calls[0].mailbox, calls[0].op), calls[1..])
  }

  // ---------------------------------------------------------------- properties

  /** Nothing is missed by the dirty flag: a call that leaves it alone changes nothing. */
  lemma CleanCallChangesNothing(c: Contents, mb: string, op: Op)
    requires !Dirties(c, mb, op)
    ensures Apply(c, mb, op) == c
  {
    match op
    case SetUIDValidity(f, v) => assert c[mb].folders[f := c[mb].folders[f]] == c[mb].folders;
    case _ =>
  }

  /** UID 0 is never recorded and the high-water mark is the maximum of the synced set. */
  ghost predicate Kept(r: FolderRec) {
    && 0 !in r.synced
    && (forall u :: u in r.synced ==> u <= r.highest)
    && (r.highest != 0 ==> r.highest in r.synced)
  }

  ghost predicate AllKept(c: Contents) {
    forall mb, f :: HasFolder(c, mb, f) ==> Kept(c[mb].folders[f])
  }

  lemma {:induction false} MarkAllSynced(r: FolderRec, uids: seq<uint32>)
    ensures MarkAll(r, uids).synced == r.synced + (Elements(uids) - {0})
    ensures MarkAll(r, uids) == r.(synced := MarkAll(r, uids).synced, highest := MarkAll(r, uids).highest)
    ensures Kept(r) ==> Kept(MarkAll(r, uids))
    decreases uids
  {
    if uids == [] {
    } else {
      MarkAllSynced(Mark(r, uids[0]), uids[1..]);
      assert Elements(uids) == {uids[0]} + Elements(uids[1..]) by {
        assert uids == [uids[0]] + uids[1..];
      }
    }
  }

  lemma PutFolderKept(c: Contents, mb: string, f: string, r: FolderRec)
    requires AllKept(c) && Kept(r)
    ensures AllKept(PutFolder(c, mb, f, r))
  {
    var c' := PutFolder(c, mb, f, r);
    forall m, g | HasFolder(c', m, g) ensures Kept(c'[m].folders[g]) {
      if m != mb || g != f { assert HasFolder(c, m, g); }
    }
  }

  lemma ApplyKeeps(c: Contents, mb: string, op: Op)
    requires AllKept(c)
    ensures AllKept(Apply(c, mb, op))
  {
    match op
    case GetFolder(f) => if !HasFolder(c, mb, f) { PutFolderKept(c, mb, f, NewFolder(f)); }
    case SetUIDValidity(f, v) => PutFolderKept(c, mb, f, Revalidate(RecOf(c, mb, f), v));
    case MarkSynced(f, uid) => PutFolderKept(c, mb, f, Mark(RecOf(c, mb, f), uid));
    case MarkMultipleSynced(f, uids) =>
      MarkAllSynced(RecOf(c, mb, f), uids);
      PutFolderKept(c, mb, f, MarkAll(RecOf(c, mb, f), uids));
    case SetUIDMapping(f, s, t) => PutFolderKept(c, mb, f, Link(RecOf(c, mb, f), s, t));
    case ClearFolder(f) => PutFolderKept(c, mb, f, Reset(RecOf(c, mb, f)));
    case UpdateLastSync(f, now) =>
      var c1 := PutFolder(c, mb, f, RecOf(c, mb, f).(lastSync := now));
      PutFolderKept(c, mb, f, RecOf(c, mb, f).(lastSync := now));
      SameFoldersKept(c1, mb, Apply(c, mb, op));
    case UpdateMailboxLastSync(now) => SameFoldersKept(EnsureMailbox(c, mb), mb, Apply(c, mb, op));
    case _ =>
  }

  lemma SameFoldersKept(c: Contents, mb: string, c': Contents)
    requires AllKept(c) && mb in c && mb in c'
    requires c' == c[mb := c'[mb]] && c'[mb].folders == c[mb].folders
    ensures AllKept(c')
  {
    forall m, g | HasFolder(c', m, g) ensures Kept(c'[m].folders[g]) {
      assert HasFolder(c, m, g);
    }
  }

  /** The record invariant holds after any sequence of calls. */
  lemma {:induction false} CallsKeep(c: Contents, calls: seq<Call>)
    requires AllKept(c)
    ensures AllKept(RunCalls(c, calls))
    decreases calls
  {
    if calls == [] {
    } else {
      ApplyKeeps(c, calls[0].mailbox, calls[0].op);
      CallsKeep(Apply(c, calls[0].mailbox, calls[0].op), calls[1..]);
    }
  }

  /** The high-water mark is the last UID of the ascending listing, and 0 for the empty set. */
  lemma HighestIsMaximum(r: FolderRec)
    requires Kept(r)
    ensures r.highest == 0 <==> r.synced == {}
    ensures r.synced != {} ==> r.highest == Ascending(r.synced)[|r.synced| - 1]
  {
    if r.synced != {} {
      var u := Inhabitant(r.synced);
      assert u <= r.highest;
      LastIsMaximum(Ascending(r.synced), r.highest);
    }
  }

  lemma LastIsMaximum(listing: seq<uint32>, top: uint32)
    requires StrictlyAscending(listing) && top in listing && forall u :: u in listing ==> u <= top
    ensures listing[|listing| - 1] == top
  {
    var i :| 0 <= i < |listing| && listing[i] == top;
    assert listing[|listing| - 1] in listing;
  }

  lemma RecordIsLocal(c: Contents, d: Contents, mb: string, f: string)
    requires (mb in c <==> mb in d) && (mb in c ==> c[mb] == d[mb])
    ensures RecOf(c, mb, f) == RecOf(d, mb, f) && (HasFolder(c, mb, f) <==> HasFolder(d, mb, f))
  {
  }

  lemma ReplyIsLocal(c: Contents, d: Contents, mb: string, op: Op)
    requires (mb in c <==> mb in d) && (mb in c ==> c[mb] == d[mb])
    ensures Answer(c, mb, op) == Answer(d, mb, op)
  {
    forall f ensures RecOf(c, mb, f) == RecOf(d, mb, f) { RecordIsLocal(c, d, mb, f); }
    hide RecOf;
  }

  lemma OthersAreLeft(c: Contents, mb: string, op: Op)
    ensures Apply(c, mb, op) - {mb} == c - {mb}
  {
    hide RecOf, HasFolder, Revalidate, MarkAll, Mark, Link, Reset;
  }

  /** A call on one mailbox neither reads nor writes the record of another. */
  lemma ApplyIsLocal(c: Contents, d: Contents, mb: string, op: Op)
    requires mb in c <==> mb in d
    requires mb in c ==> c[mb] == d[mb]
    ensures Answer(c, mb, op) == Answer(d, mb, op)
    ensures mb in Apply(c, mb, op) <==> mb in Apply(d, mb, op)
    ensures mb in Apply(c, mb, op) ==> Apply(c, mb, op)[mb] == Apply(d, mb, op)[mb]
    ensures Apply(c, mb, op) - {mb} == c - {mb}
  {
    ReplyIsLocal(c, d, mb, op);
    OthersAreLeft(c, mb, op);
    forall f
      ensures RecOf(c, mb, f) == RecOf(d, mb, f) && (HasFolder(c, mb, f) <==> HasFolder(d, mb, f))
    {
      RecordIsLocal(c, d, mb, f);
    }
    hide RecOf, HasFolder, Answer, Revalidate, MarkAll, Mark, Link, Reset;
  }

  /** `Outside` keeps order and multiplicity, and drops exactly the members of `done`. */
  lemma {:induction false} OutsideSplits(a: seq<uint32>, b: seq<uint32>, done: set<uint32>)
    ensures Outside(a + b, done) == Outside(a, done) + Outside(b, done)
  {
    if a == [] {
      assert a + b == b;
    } else {
      assert (a + b)[1..] == a[1..] + b;
      OutsideSplits(a[1..], b, done);
    }
  }

  lemma {:induction false} OutsideNothing(all: seq<uint32>)
    ensures Outside(all, {}) == all
  {
    if all == [] {
    } else {
      OutsideNothing(all[1..]);
    }
  }

  lemma {:induction false} OutsideKeepsNoDup(all: seq<uint32>, done: set<uint32>)
    requires NoDup(all)
    ensures NoDup(Outside(all, done))
  {
    if all == [] {
    } else {
      var rest := Outside(all[1..], done);
      OutsideKeepsNoDup(all[1..], done);
      OutsideCounts(all[1..], done, all[0]);
      assert all[0] !in rest;
    }
  }

  lemma {:induction false} OutsideCounts(all: seq<uint32>, done: set<uint32>, u: uint32)
    ensures multiset(Outside(all, done))[u] == if u in done then 0 else multiset(all)[u]
    ensures u in Outside(all, done) <==> u in all && u !in done
  {
    if all == [] {
    } else {
      var rest := Outside(all[1..], done);
      OutsideCounts(all[1..], done, u);
      assert all == [all[0]] + all[1..];
      if all[0] in done {
        assert Outside(all, done) == rest;
      } else {
        assert Outside(all, done) == [all[0]] + rest;
      }
    }
    assert u in all <==> u in multiset(all);
    assert u in Outside(all, done) <==> u in multiset(Outside(all, done));
  }
}
