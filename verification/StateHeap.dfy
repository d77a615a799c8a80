/** `State`, `MailboxState` and `FolderState` of internal/state/state.go as the linked records
    they are: maps of pointers whose fields every call updates in place. Each method is proved
    against the operation of the same name in SyncState.dfy. Calls are atomic: the source runs
    each one under the lock `s.mu`. */
module StateHeap {
  import opened Basics
  import opened SyncState

  /** The mailbox and folder name under which a folder record is found. */
  datatype Place = Place(mailbox: string, folder: string)

  /** An update of one folder record. */
  datatype Edit =
    | Validity(validity: uint32)
    | Synced(uid: uint32)
    | AllSynced(uids: seq<uint32>)
    | Linked(source: uint32, target: uint32)
    | Cleared
    | Touched(now: Timestamp)

  function Edited(r: FolderRec, e: Edit): FolderRec {
    match e
    case Validity(v) => Revalidate(r, v)
    case Synced(uid) => Mark(r, uid)
    case AllSynced(uids) => MarkAll(r, uids)
    case Linked(source, target) => Link(r, source, target)
    case Cleared => Reset(r)
    case Touched(now) => r.(lastSync := now)
  }

  lemma ClearingIsEdit(c: Contents, mb: string, f: string)
    ensures Apply(c, mb, Op.ClearFolder(f)) ==
            if HasFolder(c, mb, f) then PutFolder(c, mb, f, Edited(RecOf(c, mb, f), Cleared)) else c
    ensures Dirties(c, mb, Op.ClearFolder(f)) == HasFolder(c, mb, f)
  {
  }

  lemma MarkSays(was: FolderRec, uid: uint32)
    requires uid != 0
    ensures var r := Mark(was, uid);
            && r.synced == was.synced + {uid} && r.highest == (if uid > was.highest then uid else was.highest)
            && r == was.(synced := r.synced, highest := r.highest)
  {
  }

  lemma LinkSays(was: FolderRec, source: uint32, target: uint32)
    ensures var r := Link(was, source, target);
            && (forall u :: u in r.uidMap <==> u in was.uidMap || u == source) && r.uidMap[source] == target
            && (forall u :: u in was.uidMap && u != source ==> r.uidMap[u] == was.uidMap[u])
            && r == was.(uidMap := r.uidMap)
  {
  }

  lemma MarkAllSays(was: FolderRec, uids: seq<uint32>)
    ensures var r := MarkAll(was, uids);
            && r.synced == was.synced + (set u | u in uids && u != 0) && (Kept(was) ==> Kept(r))
            && r == was.(synced := r.synced, highest := r.highest)
  {
    MarkAllSynced(was, uids);
    assert Elements(uids) - {0} == set u | u in uids && u != 0;
  }

  lemma ResetSays(was: FolderRec)
    ensures var r := Edited(was, Cleared);
            && r.synced == {} && r.uidMap == map[] && r.highest == 0 && r.lastSync == 0 && r.uidValidity == 0
            && r.name == was.name && r.uidNext == was.uidNext && r.messageCount == was.messageCount
  {
  }

  lemma StampByTouch(c: Contents, mb: string, now: Timestamp)
    ensures
      var d := EnsureMailbox(c, mb);
      && mb in d
      && Apply(c, mb, Op.UpdateMailboxLastSync(now)) ==
         d[mb := d[mb].(lastSync := now, syncCount := d[mb].syncCount + 1)]
  {
  }

  class FolderState {
    var name: string
    var uidValidity: uint32
    var uidNext: uint32
    var lastSync: Timestamp
    var syncedUIDs: set<uint32>
    var highestUID: uint32
    var messageCount: uint32
    var uidMap: map<uint32, uint32>
    ghost const home: Place  // the only place that refers to this record

    function Rec(): FolderRec
      reads this
    {
      FolderRec(name, uidValidity, uidNext, lastSync, syncedUIDs, highestUID, messageCount, uidMap)
    }

    constructor (r: FolderRec, ghost home: Place)
      ensures Rec() == r && this.home == home
    {
      name, uidValidity, uidNext, lastSync := r.name, r.uidValidity, r.uidNext, r.lastSync;
      syncedUIDs, highestUID, messageCount, uidMap := r.synced, r.highest, r.messageCount, r.uidMap;
      this.home := home;
    }

    method Revalidate(validity: uint32) returns (changed: bool)
      modifies this
      ensures Rec() == SyncState.Revalidate(old(Rec()), validity)
      ensures changed == (old(uidValidity) != 0 && old(uidValidity) != validity)
    {
      changed := uidValidity != 0 && uidValidity != validity;
      uidValidity := validity;
      if changed {
        syncedUIDs := {};
        highestUID := 0;
        lastSync := 0;
      }
    }

    method Mark(uid: uint32)
      modifies this
      ensures Rec() == SyncState.Mark(old(Rec()), uid)
    {
      if uid == 0 {
        return;
      }
      syncedUIDs := syncedUIDs + {uid};
      if uid > highestUID {
        highestUID := uid;
      }
    }

    method MarkMany(uids: seq<uint32>)
      modifies this
      ensures Rec() == MarkAll(old(Rec()), uids)
    {
      for i := 0 to |uids|
        invariant MarkAll(Rec(), uids[i..]) == MarkAll(old(Rec()), uids)
      {
        assert uids[i..][1..] == uids[i + 1..];
        Mark(uids[i]);
      }
    }

    method Link(source: uint32, target: uint32)
      modifies this
      ensures Rec() == SyncState.Link(old(Rec()), source, target)
    {
      uidMap := uidMap[source := target];
    }

    method Reset()
      modifies this
      ensures Rec() == SyncState.Reset(old(Rec()))
    {
      syncedUIDs, uidMap, highestUID, lastSync, uidValidity := {}, map[], 0, 0, 0;
    }

    method Touch(now: Timestamp)
      modifies this
      ensures Rec() == old(Rec()).(lastSync := now)
    {
      lastSync := now;
    }

    method Edit(e: Edit)
      modifies this
      ensures Rec() == Edited(old(Rec()), e)
    {
      match e
      case Validity(v) => var changed := Revalidate(v);
      case Synced(uid) => Mark(uid);
      case AllSynced(uids) => MarkMany(uids);
      case Linked(source, target) => Link(source, target);
      case Cleared => Reset();
      case Touched(now) => Touch(now);
    }
  }

  /** The loop of `GetUnsyncedUIDs`. */
  method KeepOutside(all: seq<uint32>, done: set<uint32>) returns (unsynced: seq<uint32>)
    ensures unsynced == Outside(all, done)
  {
    unsynced := [];
    for i := 0 to |all|
      invariant unsynced + Outside(all[i..], done) == Outside(all, done)
    {
      assert all[i..][1..] == all[i + 1..];
      if all[i] !in done {
        unsynced := unsynced + [all[i]];
      }
    }
  }

  class MailboxState {
    var name: string
    var folders: map<string, FolderState>
    var lastSync: Timestamp
    var syncCount: int
    ghost const home: string

    constructor (mailbox: string, ghost home: string)
      ensures name == mailbox && folders == map[] && lastSync == 0 && syncCount == 0
      ensures this.home == home
    {
      name, folders, lastSync, syncCount := mailbox, map[], 0, 0;
      this.home := home;
    }
  }

  class State {
    const path: string
    var mailboxes: map<string, MailboxState>
    var dirty: bool
    ghost var Repr: set<object>
    ghost var View: Contents  // the records as a value

    /** The records of mailbox `m` agree with `View`, the one at `pending` aside, and are reached
        by their own names only. */
    ghost predicate Agrees(m: string, pending: Option<Place>)
      requires m in mailboxes && m in View && mailboxes[m] in Repr
      reads this`mailboxes, this`View, this`Repr, Repr - {this}
    {
      var ms := mailboxes[m];
      && ms.home == m
      && ms.name == View[m].name && ms.lastSync == View[m].lastSync && ms.syncCount == View[m].syncCount
      && (forall f :: f in ms.folders <==> f in View[m].folders)
      && forall f :: f in ms.folders ==>
           && ms.folders[f] in Repr
           && ms.folders[f].home == Place(m, f)
           && (pending == Some(Place(m, f)) || ms.folders[f].Rec() == View[m].folders[f])
    }

    ghost predicate ValidBut(pending: Option<Place>)
      reads this`mailboxes, this`View, this`Repr, Repr - {this}
    {
      && this in Repr
      && (forall m :: m in mailboxes <==> m in View)
      && forall m :: m in mailboxes ==> mailboxes[m] in Repr && Agrees(m, pending)
    }

    ghost predicate Valid()
      reads this`mailboxes, this`View, this`Repr, Repr - {this}
    {
      ValidBut(None)
    }

    /** A fresh, empty state (`New`). */
    constructor (path: string)
      ensures Valid() && fresh(Repr)
      ensures View == map[] && !dirty && this.path == path
    {
      this.path := path;
      mailboxes, dirty := map[], false;
      Repr := {this};
      View := map[];
    }

    method GetOrCreateMailbox(name: string) returns (ms: MailboxState)
      requires Valid()
      modifies this
      ensures Valid() && fresh(Repr - old(Repr)) && old(Repr) <= Repr
      ensures name in mailboxes && ms == mailboxes[name] && {this, ms} <= Repr
      ensures View == EnsureMailbox(old(View), name)
      ensures forall f :: f in ms.folders <==> f in View[name].folders
      ensures forall f :: f in ms.folders ==> ms.folders[f] in Repr && ms.folders[f].Rec() == View[name].folders[f]
      ensures dirty == (old(dirty) || name !in old(View))
    {
      if name in mailboxes {
        return mailboxes[name];
      }
      ms := new MailboxState(name, name);
      mailboxes := mailboxes[name := ms];
      dirty := true;
      Repr := Repr + {ms};
      View := View[name := NewMailbox(name)];
      assert Agrees(name, None);
    }

    method GetOrCreateFolder(mb: string, f: string) returns (fs: FolderState)
      requires Valid()
      modifies Repr
      ensures Valid() && fresh(Repr - old(Repr)) && old(Repr) <= Repr
      ensures HasFolder(View, mb, f) && mb in mailboxes && f in mailboxes[mb].folders
      ensures fs == mailboxes[mb].folders[f] && {this, mailboxes[mb], fs} <= Repr
      ensures View == EnsureFolder(old(View), mb, f)
      ensures fs.Rec() == RecOf(old(View), mb, f)
      ensures dirty == (old(dirty) || !HasFolder(old(View), mb, f))
    {
      assert this in Repr;
      hide Valid, ValidBut, Agrees;
      var ms := GetOrCreateMailbox(mb);
      EnsureFolderInTwoSteps(old(View), mb, f);
      if f in ms.folders {
        return ms.folders[f];
      }
      fs := AddFolder(ms, mb, f);
    }

    /** Links a new folder record into an existing mailbox record. */
    method AddFolder(ms: MailboxState, mb: string, f: string) returns (fs: FolderState)
      requires Valid()
      requires mb in mailboxes && ms == mailboxes[mb] && f !in ms.folders
      modifies this, ms
      ensures Valid() && Repr == old(Repr) + {fs} && fresh(fs)
      ensures HasFolder(View, mb, f) && mailboxes == old(mailboxes)
      ensures f in mailboxes[mb].folders && fs == mailboxes[mb].folders[f]
      ensures View == old(View)[mb := old(View)[mb].(folders := old(View)[mb].folders[f := NewFolder(f)])]
      ensures fs.Rec() == NewFolder(f) && dirty
    {
      fs := new FolderState(NewFolder(f), Place(mb, f));
      ms.folders := ms.folders[f := fs];
      dirty := true;
      Repr := Repr + {fs};
      View := View[mb := View[mb].(folders := View[mb].folders[f := NewFolder(f)])];
      assert Agrees(mb, None);
      forall m | m in mailboxes ensures Agrees(m, None) {
        assert m != mb ==> mailboxes[m] != ms;
      }
    }

    /** Carries in-place updates of one folder record over to `View`. */
    ghost method Refresh(mb: string, f: string)
      requires ValidBut(Some(Place(mb, f))) && HasFolder(View, mb, f)
      modifies this`View
      ensures Valid()
      ensures View == PutFolder(old(View), mb, f, mailboxes[mb].folders[f].Rec())
    {
      ghost var r := mailboxes[mb].folders[f].Rec();
      View := PutFolder(View, mb, f, r);
      forall m | m in mailboxes ensures Agrees(m, None) {
        assert old(Agrees(m, Some(Place(mb, f))));
        if m == mb {
          assert View[m] == old(View)[m].(folders := old(View)[m].folders[f := r]);
        } else {
          assert View[m] == old(View)[m];
        }
      }
    }

    // ------------------------------------------------------------ in-place record updates

    /** Edits one record in place; the others go on agreeing with `View`. */
    method EditRecord(fs: FolderState, ghost mb: string, ghost f: string, e: Edit)
      requires Valid() && HasFolder(View, mb, f) && fs == mailboxes[mb].folders[f]
      modifies this`dirty, fs
      ensures ValidBut(Some(Place(mb, f))) && dirty && fs == mailboxes[mb].folders[f]
      ensures fs.Rec() == Edited(old(fs.Rec()), e)
    {
      hide Edited;
      fs.Edit(e);
      dirty := true;
      forall m | m in mailboxes ensures Agrees(m, Some(Place(mb, f))) {
        assert old(Agrees(m, None));
      }
    }

    /** Edits one record in place and carries the change over to `View`. */
    method UpdateRecord(fs: FolderState, ghost mb: string, ghost f: string, e: Edit)
      requires Valid() && HasFolder(View, mb, f) && fs == mailboxes[mb].folders[f]
      modifies this, fs
      ensures Valid() && Repr == old(Repr) && mailboxes == old(mailboxes) && dirty
      ensures View == PutFolder(old(View), mb, f, Edited(old(fs.Rec()), e))
    {
      hide PutFolder, Edited, Agrees, Valid, ValidBut;
      EditRecord(fs, mb, f, e);
      Refresh(mb, f);
    }

    method TouchMailbox(ms: MailboxState, ghost mb: string, now: Timestamp)
      requires Valid() && mb in mailboxes && ms == mailboxes[mb]
      modifies this, ms
      ensures Valid() && Repr == old(Repr) && dirty
      ensures View == old(View)[mb := old(View)[mb].(lastSync := now, syncCount := old(View)[mb].syncCount + 1)]
    {
      ghost var rec := View[mb].(lastSync := now, syncCount := View[mb].syncCount + 1);
      ms.lastSync := now;
      ms.syncCount := ms.syncCount + 1;
      dirty := true;
      View := View[mb := rec];
      forall m | m in mailboxes ensures Agrees(m, None) {
        assert old(Agrees(m, None));
        if m == mb {
          assert View[m] == rec;
        } else {
          assert mailboxes[m] != ms && View[m] == old(View)[m];
        }
      }
    }

    method MarkClean()
      requires Valid()
      modifies this`dirty
      ensures Valid() && !dirty
    {
      dirty := false;
    }

    /** One mailbox record as `json.Marshal` walks it. */
    function MailboxValue(m: string): (r: MailboxRec)
      requires Valid() && m in mailboxes
      reads this, Repr
      ensures m in View && r == View[m]
    {
      assert Agrees(m, None);
      var ms := mailboxes[m];
      var folders := map f | f in ms.folders :: ms.folders[f].Rec();
      assert folders == View[m].folders;
      MailboxRec(ms.name, folders, ms.lastSync, ms.syncCount)
    }

    /** The records as `json.Marshal` walks them. */
    function Snapshot(): (c: Contents)
      requires Valid()
      reads this, Repr
      ensures c == View
    {
      map m | m in mailboxes :: MailboxValue(m)
    }

    /** A clean state holding the given contents, as `Load` builds it. */
    constructor Restore(path: string, c: Contents)
      ensures Valid() && fresh(Repr)
      ensures View == c && !dirty && this.path == path
    {
      this.path := path;
      mailboxes, dirty := map[], false;
      Repr := {this};
      View := map[];
      new;
      var left := c.Keys;
      while left != {}
        invariant left <= c.Keys && Valid() && fresh(Repr) && !dirty
        invariant View.Keys == c.Keys - left
        invariant forall m :: m in View ==> View[m] == c[m]
        decreases left
      {
        ghost var some := Inhabitant(left);
        var mb :| mb in left;
        RestoreMailbox(mb, c[mb]);
        left := left - {mb};
      }
      assert View == c;
    }

    method RestoreMailbox(mb: string, m: MailboxRec)
      requires Valid() && mb !in View && !dirty
      modifies this
      ensures Valid() && fresh(Repr - old(Repr)) && !dirty
      ensures View == old(View)[mb := m]
    {
      var ms, records := RestoreRecords(mb, m);
      mailboxes := mailboxes[mb := ms];
      Repr := Repr + {ms} + records;
      View := View[mb := m];
      assert Agrees(mb, None);
      forall k | k in mailboxes ensures Agrees(k, None) {
        assert k != mb ==> old(Agrees(k, None)) && View[k] == old(View)[k];
      }
    }

    static method RestoreRecords(mb: string, m: MailboxRec) returns (ms: MailboxState, ghost records: set<object>)
      ensures fresh(ms) && fresh(records) && ms !in records && ms.home == mb
      ensures ms.name == m.name && ms.lastSync == m.lastSync && ms.syncCount == m.syncCount
      ensures ms.folders.Keys == m.folders.Keys
      ensures forall f :: f in ms.folders ==>
        ms.folders[f] in records && ms.folders[f].home == Place(mb, f) && ms.folders[f].Rec() == m.folders[f]
    {
      ms := new MailboxState(m.name, mb);
      ms.lastSync, ms.syncCount := m.lastSync, m.syncCount;
      records := {};
      var left := m.folders.Keys;
      while left != {}
        invariant left <= m.folders.Keys
        invariant fresh(ms) && ms.home == mb
        invariant ms.name == m.name && ms.lastSync == m.lastSync && ms.syncCount == m.syncCount
        invariant ms.folders.Keys == m.folders.Keys - left
        invariant fresh(records) && ms !in records
        invariant forall f :: f in ms.folders ==>
          ms.folders[f] in records && ms.folders[f].home == Place(mb, f) && ms.folders[f].Rec() == m.folders[f]
        decreases left
      {
        ghost var some := Inhabitant(left);
        var f :| f in left;
        var fs := new FolderState(m.folders[f], Place(mb, f));
        ms.folders := ms.folders[f := fs];
        records := records + {fs};
        left := left - {f};
      }
    }

    // ------------------------------------------------------------ locked calls

    method GetMailbox(mb: string) returns (ms: MailboxState)
      requires Valid()
      modifies Repr
      ensures Valid() && fresh(Repr - old(Repr)) && old(Repr) <= Repr
      ensures View == Apply(old(View), mb, Op.GetMailbox)
      ensures mb in mailboxes && ms == mailboxes[mb]
      ensures dirty == (old(dirty) || mb !in old(View))
      ensures mb in old(View) ==> View == old(View)
      ensures mb !in old(View) ==>
        && (forall m :: m in View <==> m in old(View) || m == mb)
        && (forall m :: m in old(View) ==> View[m] == old(View)[m])
        && View[mb].name == mb && View[mb].folders == map[] && View[mb].lastSync == 0 && View[mb].syncCount == 0
    {
      ms := GetOrCreateMailbox(mb);
    }

    method GetFolder(mb: string, f: string) returns (fs: FolderState)
      requires Valid()
      modifies Repr
      ensures Valid() && fresh(Repr - old(Repr)) && old(Repr) <= Repr
      ensures View == Apply(old(View), mb, Op.GetFolder(f))
      ensures HasFolder(View, mb, f) && fs == mailboxes[mb].folders[f]
      ensures dirty == (old(dirty) || !HasFolder(old(View), mb, f))
      ensures HasFolder(old(View), mb, f) ==> View == old(View)
      ensures OnlyFolder(old(View), View, mb, f) && SameStamps(old(View), View, mb)
      ensures View[mb].folders[f] == RecOf(old(View), mb, f)
    {
      PutFolderSays(View, mb, f, NewFolder(f));
      fs := GetOrCreateFolder(mb, f);
    }

    /** Returns true if a known validity changed, which resets the sync state of the folder. */
    method SetUIDValidity(mb: string, f: string, validity: uint32) returns (changed: bool)
      requires Valid()
      modifies Repr
      ensures Valid() && fresh(Repr - old(Repr)) && old(Repr) <= Repr
      ensures View == PutFolder(old(View), mb, f, Revalidate(RecOf(old(View), mb, f), validity))
      ensures changed == (RecOf(old(View), mb, f).uidValidity != 0 && RecOf(old(View), mb, f).uidValidity != validity)
      ensures dirty == (old(dirty) || (!HasFolder(old(View), mb, f) || RecOf(old(View), mb, f).uidValidity != validity))
      ensures OnlyFolder(old(View), View, mb, f) && SameStamps(old(View), View, mb)
      ensures
        var was, r := RecOf(old(View), mb, f), View[mb].folders[f];
        && r.uidValidity == validity && r.uidMap == was.uidMap
        && r.name == was.name && r.uidNext == was.uidNext && r.messageCount == was.messageCount
        && (if changed then r.synced == {} && r.highest == 0 && r.lastSync == 0
            else r.synced == was.synced && r.highest == was.highest && r.lastSync == was.lastSync)
    {
      PutFolderSays(View, mb, f, Revalidate(RecOf(View, mb, f), validity));
      hide Valid, ValidBut, Agrees, OnlyFolder, SameStamps;
      var fs := GetOrCreateFolder(mb, f);
      PutOverEnsured(old(View), mb, f, Revalidate(fs.Rec(), validity));
      if fs.uidValidity == validity {
        PutSame(View, mb, f);
        return false;
      }
      changed := fs.uidValidity != 0 && fs.uidValidity != validity;
      UpdateRecord(fs, mb, f, Validity(validity));
    }

    /** Returns false without touching the state if the UID is 0. */
    method MarkSynced(mb: string, f: string, uid: uint32) returns (marked: bool)
      requires Valid()
      modifies Repr
      ensures Valid() && fresh(Repr - old(Repr)) && old(Repr) <= Repr
      ensures View == if uid == 0 then old(View) else PutFolder(old(View), mb, f, Mark(RecOf(old(View), mb, f), uid))
      ensures marked == (uid != 0)
      ensures dirty == (old(dirty) || (uid != 0))
      ensures uid != 0 ==>
        && OnlyFolder(old(View), View, mb, f) && SameStamps(old(View), View, mb)
        && var was, r := RecOf(old(View), mb, f), View[mb].folders[f];
           && r.synced == was.synced + {uid} && r.highest == (if uid > was.highest then uid else was.highest)
           && r == was.(synced := r.synced, highest := r.highest)
    {
      if uid == 0 {
        return false;
      }
      PutFolderSays(View, mb, f, SyncState.Mark(RecOf(View, mb, f), uid));
      MarkSays(RecOf(View, mb, f), uid);
      hide Valid, ValidBut, Agrees, PutFolder, RecOf, EnsureFolder, SyncState.Mark, OnlyFolder, SameStamps, HasFolder;
      var fs := GetOrCreateFolder(mb, f);
      PutOverEnsured(old(View), mb, f, Mark(fs.Rec(), uid));
      UpdateRecord(fs, mb, f, Synced(uid));
      return true;
    }

    method MarkMultipleSynced(mb: string, f: string, uids: seq<uint32>)
      requires Valid()
      modifies Repr
      ensures Valid() && fresh(Repr - old(Repr)) && old(Repr) <= Repr
      ensures View == if uids == [] then old(View)
        else PutFolder(old(View), mb, f, MarkAll(RecOf(old(View), mb, f), uids))
      ensures dirty == (old(dirty) || (uids != []))
      ensures uids != [] ==>
        && OnlyFolder(old(View), View, mb, f) && SameStamps(old(View), View, mb)
        && var was, r := RecOf(old(View), mb, f), View[mb].folders[f];
           && r.synced == was.synced + (set u | u in uids && u != 0) && (Kept(was) ==> Kept(r))
           && r == was.(synced := r.synced, highest := r.highest)
    {
      hide Valid, ValidBut, Agrees, PutFolder, RecOf, EnsureFolder, MarkAll, OnlyFolder, SameStamps, HasFolder, Kept,
        Elements;
      if uids == [] {
        return;
      }
      PutFolderSays(View, mb, f, MarkAll(RecOf(View, mb, f), uids));
      ghost var r := MarkAll(RecOf(View, mb, f), uids);
      MarkAllSays(RecOf(View, mb, f), uids);
      var fs := GetOrCreateFolder(mb, f);
      PutOverEnsured(old(View), mb, f, MarkAll(fs.Rec(), uids));
      assert Edited(fs.Rec(), AllSynced(uids)) == r;
      hide Edited;
      UpdateRecord(fs, mb, f, AllSynced(uids));
    }

    method SetUIDMapping(mb: string, f: string, source: uint32, target: uint32)
      requires Valid()
      modifies Repr
      ensures Valid() && fresh(Repr - old(Repr)) && old(Repr) <= Repr
      ensures source == 0 || target == 0 ==> View == old(View)
      ensures source != 0 && target != 0 ==>
        View == PutFolder(old(View), mb, f, Link(RecOf(old(View), mb, f), source, target))
      ensures dirty == (old(dirty) || (source != 0 && target != 0))
      ensures source != 0 && target != 0 ==>
        && OnlyFolder(old(View), View, mb, f) && SameStamps(old(View), View, mb)
        && var was, r := RecOf(old(View), mb, f), View[mb].folders[f];
           && (forall u :: u in r.uidMap <==> u in was.uidMap || u == source) && r.uidMap[source] == target
           && (forall u :: u in was.uidMap && u != source ==> r.uidMap[u] == was.uidMap[u])
           && r == was.(uidMap := r.uidMap)
    {
      if source == 0 || target == 0 {
        return;
      }
      PutFolderSays(View, mb, f, SyncState.Link(RecOf(View, mb, f), source, target));
      LinkSays(RecOf(View, mb, f), source, target);
      hide Valid, ValidBut, Agrees, PutFolder, RecOf, EnsureFolder, SyncState.Link, OnlyFolder, SameStamps, HasFolder;
      var fs := GetOrCreateFolder(mb, f);
      PutOverEnsured(old(View), mb, f, Link(fs.Rec(), source, target));
      ghost var r := Link(fs.Rec(), source, target);
      assert Edited(fs.Rec(), Edit.Linked(source, target)) == r;
      hide Edited;
      UpdateRecord(fs, mb, f, Edit.Linked(source, target));
    }

    method UpdateLastSync(mb: string, f: string, now: Timestamp)
      requires Valid()
      modifies Repr
      ensures Valid() && fresh(Repr - old(Repr)) && old(Repr) <= Repr
      ensures View == Apply(old(View), mb, Op.UpdateLastSync(f, now))
      ensures dirty
      ensures View[mb].lastSync == now
      ensures View[mb].syncCount == (if mb in old(View) then old(View)[mb].syncCount else 0) + 1
      ensures OnlyFolder(old(View), View, mb, f)
      ensures View[mb].folders[f] == RecOf(old(View), mb, f).(lastSync := now)
    {
      FolderStampSays(View, mb, f, now);
      hide Valid, ValidBut, Agrees, OnlyFolder;
      var fs := GetOrCreateFolder(mb, f);
      PutOverEnsured(old(View), mb, f, fs.Rec().(lastSync := now));
      UpdateRecord(fs, mb, f, Touched(now));
      TouchMailbox(mailboxes[mb], mb, now);
    }

    method UpdateMailboxLastSync(mb: string, now: Timestamp)
      requires Valid()
      modifies Repr
      ensures Valid() && fresh(Repr - old(Repr)) && old(Repr) <= Repr
      ensures View == Apply(old(View), mb, Op.UpdateMailboxLastSync(now))
      ensures dirty
      ensures mb in View && View[mb].lastSync == now
      ensures View[mb].syncCount == (if mb in old(View) then old(View)[mb].syncCount else 0) + 1
      ensures View[mb].name == (if mb in old(View) then old(View)[mb].name else mb)
      ensures View[mb].folders == if mb in old(View) then old(View)[mb].folders else map[]
      ensures forall m :: m in View <==> m in old(View) || m == mb
      ensures forall m :: m in old(View) && m != mb ==> View[m] == old(View)[m]
    {
      assert this in Repr;
      hide Valid, ValidBut, Agrees, Apply, EnsureMailbox;
      ghost var c := View;
      MailboxStampSays(c, mb, now);
      var ms := GetOrCreateMailbox(mb);
      TouchMailbox(ms, mb, now);
      StampByTouch(c, mb, now);
      assert View == Apply(c, mb, Op.UpdateMailboxLastSync(now));
    }

    lemma FolderFound(mb: string, f: string)
      requires Valid()
      ensures HasFolder(View, mb, f) <==> mb in mailboxes && f in mailboxes[mb].folders
      ensures HasFolder(View, mb, f) ==>
        {this, mailboxes[mb].folders[f]} <= Repr && mailboxes[mb].folders[f].Rec() == RecOf(View, mb, f)
    {
    }

    method ClearFolder(mb: string, f: string)
      requires Valid()
      modifies Repr
      ensures Valid() && fresh(Repr - old(Repr)) && old(Repr) <= Repr
      ensures View == Apply(old(View), mb, Op.ClearFolder(f))
      ensures dirty == (old(dirty) || HasFolder(old(View), mb, f))
      ensures !HasFolder(old(View), mb, f) ==> View == old(View)
      ensures HasFolder(old(View), mb, f) ==>
        && OnlyFolder(old(View), View, mb, f) && SameStamps(old(View), View, mb)
        && var was, r := RecOf(old(View), mb, f), View[mb].folders[f];
           && r.synced == {} && r.uidMap == map[] && r.highest == 0 && r.lastSync == 0 && r.uidValidity == 0
           && r.name == was.name && r.uidNext == was.uidNext && r.messageCount == was.messageCount
    {
      PutFolderSays(View, mb, f, Edited(RecOf(View, mb, f), Cleared));
      FolderFound(mb, f);
      ClearingIsEdit(View, mb, f);
      ResetSays(RecOf(View, mb, f));
      hide Valid, ValidBut, Agrees, PutFolder, RecOf, Apply, Dirties, Edited, HasFolder, OnlyFolder, SameStamps;
      if mb in mailboxes && f in mailboxes[mb].folders {
        UpdateRecord(mailboxes[mb].folders[f], mb, f, Cleared);
      }
    }

    method ClearMailbox(mb: string)
      requires Valid()
      modifies Repr
      ensures Valid() && fresh(Repr - old(Repr)) && old(Repr) <= Repr
      ensures View == Apply(old(View), mb, Op.ClearMailbox)
      ensures dirty == (old(dirty) || mb in old(View))
      ensures mb !in old(View) ==> View == old(View)
      ensures mb in old(View) ==>
        && View.Keys == old(View).Keys && (forall m :: m in View && m != mb ==> View[m] == old(View)[m])
        && View[mb].name == mb && View[mb].folders == map[] && View[mb].lastSync == 0 && View[mb].syncCount == 0
    {
      if mb in mailboxes {
        var ms := new MailboxState(mb, mb);
        mailboxes := mailboxes[mb := ms];
        dirty := true;
        Repr := Repr + {ms};
        View := View[mb := NewMailbox(mb)];
        forall m | m in mailboxes ensures Agrees(m, None) {
          assert m != mb ==> old(Agrees(m, None)) && View[m] == old(View)[m];
        }
      }
    }

    // ------------------------------------------------------------ queries

    method GetUIDValidity(mb: string, f: string) returns (validity: uint32)
      requires Valid()
      ensures Number(validity) == Answer(View, mb, Op.GetUIDValidity(f))
      ensures validity == if HasFolder(View, mb, f) then View[mb].folders[f].uidValidity else 0
    {
      validity := if mb in mailboxes && f in mailboxes[mb].folders then mailboxes[mb].folders[f].uidValidity else 0;
    }

    method GetTargetUID(mb: string, f: string, source: uint32) returns (uid: Option<uint32>)
      requires Valid()
      ensures Reply.Linked(uid) == Answer(View, mb, Op.GetTargetUID(f, source))
      ensures forall u :: uid == Some(u) <==>
        HasFolder(View, mb, f) && source in View[mb].folders[f].uidMap && View[mb].folders[f].uidMap[source] == u
    {
      if mb !in mailboxes || f !in mailboxes[mb].folders {
        return None;
      }
      var fs := mailboxes[mb].folders[f];
      uid := if source in fs.uidMap then Some(fs.uidMap[source]) else None;
    }

    method IsSynced(mb: string, f: string, uid: uint32) returns (yes: bool)
      requires Valid()
      ensures Flag(yes) == Answer(View, mb, Op.IsSynced(f, uid))
      ensures yes <==> HasFolder(View, mb, f) && uid in View[mb].folders[f].synced
    {
      yes := mb in mailboxes && f in mailboxes[mb].folders && uid in mailboxes[mb].folders[f].syncedUIDs;
    }

    method GetUnsyncedUIDs(mb: string, f: string, all: seq<uint32>) returns (unsynced: seq<uint32>)
      requires Valid()
      ensures Listed(unsynced) == Answer(View, mb, Op.GetUnsyncedUIDs(f, all))
      ensures forall u :: u in unsynced <==> u in all && !(HasFolder(View, mb, f) && u in View[mb].folders[f].synced)
    {
      forall u ensures u in Outside(all, RecOf(View, mb, f).synced) <==> u in all && u !in RecOf(View, mb, f).synced {
        OutsideCounts(all, RecOf(View, mb, f).synced, u);
      }
      if mb !in mailboxes || f !in mailboxes[mb].folders {
        OutsideNothing(all);
        return all;
      }
      unsynced := KeepOutside(all, mailboxes[mb].folders[f].syncedUIDs);
    }

    method GetHighestSyncedUID(mb: string, f: string) returns (uid: uint32)
      requires Valid()
      ensures Number(uid) == Answer(View, mb, Op.GetHighestSyncedUID(f))
      ensures uid == if HasFolder(View, mb, f) then View[mb].folders[f].highest else 0
    {
      uid := if mb in mailboxes && f in mailboxes[mb].folders then mailboxes[mb].folders[f].highestUID else 0;
    }

    method GetSyncedCount(mb: string, f: string) returns (n: nat)
      requires Valid()
      ensures Number(n) == Answer(View, mb, Op.GetSyncedCount(f))
      ensures n == if HasFolder(View, mb, f) then |View[mb].folders[f].synced| else 0
    {
      n := if mb in mailboxes && f in mailboxes[mb].folders then |mailboxes[mb].folders[f].syncedUIDs| else 0;
    }
  }
}
