/** Persistence of the sync state (internal/state/store.go): the JSON record structure, the
    steps by which a save touches the disk, and what the next load makes of every step. */
module StateStore {
  import opened Basics
  import opened SyncState

  // ---------------------------------------------------------------- the file format

  /** A field of `None` stands for a missing or null JSON member. */
  datatype FolderDoc = FolderDoc(
    name: string, uidValidity: uint32, uidNext: uint32, lastSync: Timestamp,
    synced: Option<seq<uint32>>, highest: uint32, messageCount: uint32,
    uidMap: Option<map<uint32, uint32>>)

  datatype MailboxDoc = MailboxDoc(
    name: string, folders: Option<map<string, FolderDoc>>, lastSync: Timestamp, syncCount: int)

  datatype StateDoc = StateDoc(version: int, updatedAt: Timestamp, mailboxes: Option<map<string, MailboxDoc>>)

  const CURRENT_VERSION := 1

  function EncodeFolder(r: FolderRec): FolderDoc {
    FolderDoc(r.name, r.uidValidity, r.uidNext, r.lastSync, Some(Ascending(r.synced)),
              r.highest, r.messageCount, Some(r.uidMap))
  }

  function EncodeMailbox(m: MailboxRec): MailboxDoc {
    MailboxDoc(m.name, Some(map f | f in m.folders :: EncodeFolder(m.folders[f])), m.lastSync, m.syncCount)
  }

  function Encode(c: Contents, now: Timestamp): StateDoc {
    StateDoc(CURRENT_VERSION, now, Some(map mb | mb in c :: EncodeMailbox(c[mb])))
  }

  function DecodeFolder(d: FolderDoc): FolderRec {
    FolderRec(d.name, d.uidValidity, d.uidNext, d.lastSync,
              if d.synced.Some? then Elements(d.synced.value) else {},
              d.highest, d.messageCount,
              if d.uidMap.Some? then d.uidMap.value else map[])
  }

  function DecodeMailbox(d: MailboxDoc): MailboxRec {
    MailboxRec(d.name,
               if d.folders.Some? then map f | f in d.folders.value :: DecodeFolder(d.folders.value[f]) else map[],
               d.lastSync, d.syncCount)
  }

  function Decode(d: StateDoc): Contents {
    if d.mailboxes.Some? then map mb | mb in d.mailboxes.value :: DecodeMailbox(d.mailboxes.value[mb]) else map[]
  }

  lemma FolderRoundTrip(r: FolderRec)
    ensures DecodeFolder(EncodeFolder(r)) == r
  {
    assert Elements(Ascending(r.synced)) == r.synced;
  }

  lemma MailboxRoundTrip(m: MailboxRec)
    ensures DecodeMailbox(EncodeMailbox(m)) == m
  {
    forall f | f in m.folders ensures DecodeFolder(EncodeFolder(m.folders[f])) == m.folders[f] {
      FolderRoundTrip(m.folders[f]);
    }
    assert DecodeMailbox(EncodeMailbox(m)).folders == m.folders;
  }

  /** Loading what was saved gives back the same mailbox data, whatever the time of the save. */
  lemma RoundTrip(c: Contents, now: Timestamp)
    ensures Decode(Encode(c, now)) == c
  {
    forall mb | mb in c ensures DecodeMailbox(EncodeMailbox(c[mb])) == c[mb] {
      MailboxRoundTrip(c[mb]);
    }
    assert Decode(Encode(c, now)) == c;
  }

  /** The record and the JSON object hold the same, a missing member standing for an empty collection. */
  ghost predicate SameFolder(r: FolderRec, d: FolderDoc) {
    && r.name == d.name && r.uidValidity == d.uidValidity && r.uidNext == d.uidNext && r.lastSync == d.lastSync
    && r.highest == d.highest && r.messageCount == d.messageCount
    && (forall u :: u in r.synced <==> d.synced.Some? && u in d.synced.value)
    && (forall u :: u in r.uidMap <==> d.uidMap.Some? && u in d.uidMap.value)
    && (forall u :: u in r.uidMap && d.uidMap.Some? && u in d.uidMap.value ==> r.uidMap[u] == d.uidMap.value[u])
  }

  ghost predicate SameMailbox(m: MailboxRec, d: MailboxDoc) {
    && m.name == d.name && m.lastSync == d.lastSync && m.syncCount == d.syncCount
    && (forall f :: f in m.folders <==> d.folders.Some? && f in d.folders.value)
    && (forall f :: f in m.folders && d.folders.Some? && f in d.folders.value ==>
          SameFolder(m.folders[f], d.folders.value[f]))
  }

  ghost predicate SameRecords(c: Contents, d: StateDoc) {
    && (forall mb :: mb in c <==> d.mailboxes.Some? && mb in d.mailboxes.value)
    && (forall mb :: mb in c && d.mailboxes.Some? && mb in d.mailboxes.value ==>
          SameMailbox(c[mb], d.mailboxes.value[mb]))
  }

  /** What is written has no missing members, and ascending lists of UIDs. */
  ghost predicate IsWholeDoc(d: StateDoc) {
    && d.version == 1 && d.mailboxes.Some?
    && forall mb :: mb in d.mailboxes.value ==>
         && d.mailboxes.value[mb].folders.Some?
         && forall f :: f in d.mailboxes.value[mb].folders.value ==>
              var x := d.mailboxes.value[mb].folders.value[f];
              x.synced.Some? && StrictlyAscending(x.synced.value) && x.uidMap.Some?
  }

  lemma MailboxIsDecoded(d: MailboxDoc)
    ensures SameMailbox(DecodeMailbox(d), d)
  {
    var m := DecodeMailbox(d);
    forall f | f in m.folders ensures SameFolder(m.folders[f], d.folders.value[f]) { }
  }

  /** Reading a file gives every member to its own field. */
  lemma DecodedIsSame(d: StateDoc)
    ensures SameRecords(Decode(d), d)
  {
    var c := Decode(d);
    forall mb | mb in c ensures SameMailbox(c[mb], d.mailboxes.value[mb]) { MailboxIsDecoded(d.mailboxes.value[mb]); }
  }

  /** A file is written with every field in its own member, and with all of them. */
  lemma EncodedIsSame(c: Contents, now: Timestamp)
    ensures SameRecords(c, Encode(c, now)) && IsWholeDoc(Encode(c, now)) && Encode(c, now).updatedAt == now
  {
    RoundTrip(c, now);
    DecodedIsSame(Encode(c, now));
  }

  /** Insertion into an ascending list, the step of the sort that `MarshalJSON` applies. */
  function Insert(x: uint32, s: seq<uint32>): seq<uint32> {
    if s == [] || x <= s[0] then [x] + s else [s[0]] + Insert(x, s[1..])
  }

  function Sorted(s: seq<uint32>): seq<uint32> {
    if s == [] then [] else Insert(s[0], Sorted(s[1..]))
  }

  lemma {:induction false} InsertAscends(x: uint32, s: seq<uint32>)
    requires StrictlyAscending(s) && x !in s
    ensures StrictlyAscending(Insert(x, s))
    ensures forall y :: y in Insert(x, s) <==> y == x || y in s
  {
    if s != [] && s[0] < x {
      assert StrictlyAscending(s[1..]);
      InsertAscends(x, s[1..]);
      var r := Insert(x, s[1..]);
      assert forall y :: y in s <==> y == s[0] || y in s[1..];
      forall i | 0 <= i < |r| ensures s[0] < r[i] { assert r[i] in r; }
    }
  }

  /** Whatever order the map iteration yields, a UID set is written as one canonical list. */
  lemma {:induction false} SortedIsCanonical(listing: seq<uint32>)
    requires NoDup(listing)
    ensures Sorted(listing) == Ascending(Elements(listing))
  {
    if listing == [] {
    } else {
      var rest := listing[1..];
      SortedIsCanonical(rest);
      InsertAscends(listing[0], Sorted(rest));
      AscendingUnique(Sorted(listing), Ascending(Elements(listing)));
    }
  }

  /** `UIDSet.MarshalJSON`: collect the keys in any order, then sort. */
  method MarshalUIDSet(u: set<uint32>) returns (uids: seq<uint32>)
    ensures uids == Ascending(u)
    ensures StrictlyAscending(uids) && Elements(uids) == u
  {
    var left := u;
    uids := [];
    while left != {}
      invariant left <= u && left !! Elements(uids) && left + Elements(uids) == u
      invariant NoDup(uids)
      decreases left
    {
      ghost var some := Inhabitant(left);
      var uid :| uid in left;
      left, uids := left - {uid}, uids + [uid];
    }
    SortedIsCanonical(uids);
    uids := Sorted(uids);
  }

  /** `UIDSet.UnmarshalJSON` overwrites its receiver with the listed UIDs; repeats do no harm. */
  method UnmarshalUIDSet(uids: seq<uint32>) returns (u: set<uint32>)
    ensures u == Elements(uids)
    ensures forall s: set<uint32> :: uids == Ascending(s) ==> u == s
  {
    u := {};
    for i := 0 to |uids|
      invariant u == Elements(uids[..i])
    {
      u := u + {uids[i]};
    }
    assert uids[..|uids|] == uids;
  }

  // ---------------------------------------------------------------- the disk

  /** `Torn` is a file whose writing was cut short: a proper prefix of a JSON text never parses. */
  datatype File = Complete(doc: StateDoc) | Torn

  /** The state file and its `.tmp` sibling. */
  datatype Files = Files(main: Option<File>, temp: Option<File>)

  datatype LoadResult = Loaded(contents: Contents) | Unreadable | Unparsable | TooNew(version: int)

  /** What `Load` makes of the files once it can read them; the temporary one is never read. */
  function LoadOf(files: Files): LoadResult {
    match files.main
    case None => Loaded(map[])
    case Some(Torn) => Unparsable
    case Some(Complete(doc)) => if doc.version > CURRENT_VERSION then TooNew(doc.version) else Loaded(Decode(doc))
  }

  /** Reading the state file may fail for another reason than that it is missing. */
  function ReadOf(files: Files, readable: bool): LoadResult {
    if readable then LoadOf(files) else Unreadable
  }

  lemma SavedFileLoads(c: Contents, now: Timestamp, temp: Option<File>)
    ensures LoadOf(Files(Some(Complete(Encode(c, now))), temp)) == Loaded(c)
  {
    RoundTrip(c, now);
  }

  /** How `os.WriteFile` ends: complete, cut short, or without opening the file. */
  datatype WriteOutcome = Written | CutShort | NotOpened

  /** The outcomes of the file operations of one save. */
  datatype SaveFaults = SaveFaults(mkdir: bool, write: WriteOutcome, rename: bool, cleanup: bool)

  /** Every state the disk passes through during a save, the last one being where it ends. */
  function SaveSteps(files: Files, doc: StateDoc, faults: SaveFaults): seq<Files> {
    if !faults.mkdir || faults.write.NotOpened? then []
    else
      var torn := files.(temp := Some(Torn));
      if faults.write.CutShort? then [torn]
      else
        var ready := files.(temp := Some(Complete(doc)));
        [torn, ready] +
        if faults.rename then [Files(Some(Complete(doc)), None)]
        else if faults.cleanup then [files.(temp := None)]
        else []
  }

  predicate SaveSucceeds(faults: SaveFaults) {
    faults.mkdir && faults.write.Written? && faults.rename
  }

  function AfterSave(files: Files, doc: StateDoc, faults: SaveFaults): Files {
    var steps := SaveSteps(files, doc, faults);
    if steps == [] then files else steps[|steps| - 1]
  }

  // ---------------------------------------------------------------- runs of the store

  /** A live state together with the disk. */
  datatype Session = Session(contents: Contents, dirty: bool, files: Files)

  datatype Act =
    | Mutate(call: Call)
    | Save(now: Timestamp, faults: SaveFaults)
    | SaveIfDirty(now: Timestamp, faults: SaveFaults)
    | Reload(tempRemoved: bool, readable: bool)

  function SaveSession(s: Session, now: Timestamp, faults: SaveFaults): Session {
    Session(s.contents, s.dirty && !SaveSucceeds(faults), AfterSave(s.files, Encode(s.contents, now), faults))
  }

  function ReloadFiles(files: Files, tempRemoved: bool): Files {
    if tempRemoved then files.(temp := None) else files
  }

  function Perform(s: Session, act: Act): Session {
    match act
    case Mutate(call) =>
      Session(Apply(s.contents, call.mailbox, call.op), s.dirty || Dirties(s.contents, call.mailbox, call.op), s.files)
    case Save(now, faults) => SaveSession(s, now, faults)
    case SaveIfDirty(now, faults) => if s.dirty then SaveSession(s, now, faults) else s
    case Reload(tempRemoved, readable) =>
      var files := ReloadFiles(s.files, tempRemoved);
      match ReadOf(files, readable)
      case Loaded(c) => Session(c, false, files)
      case _ => s.(files := files)
  }

  /** The disk states in which a crash during `act` can leave the machine. */
  function CrashPoints(s: Session, act: Act): seq<Files> {
    match act
    case Mutate(_) => [s.files]
    case Save(now, faults) => [s.files] + SaveSteps(s.files, Encode(s.contents, now), faults)
    case SaveIfDirty(now, faults) =>
      [s.files] + if s.dirty then SaveSteps(s.files, Encode(s.contents, now), faults) else []
    case Reload(tempRemoved, _) => [s.files, ReloadFiles(s.files, tempRemoved)]
  }

  function PerformAll(s: Session, acts: seq<Act>): Session
    decreases acts
  {
    if acts == [] then s else PerformAll(Perform(s, acts[0]), acts[1..])
  }

  /** A clear dirty flag promises that a load would find the contents in memory. */
  ghost predicate CleanMeansSaved(s: Session) {
    !s.dirty ==> LoadOf(s.files) == Loaded(s.contents)
  }

  lemma SaveStepIsOldOrNew(files: Files, c: Contents, now: Timestamp, faults: SaveFaults, crash: Files)
    requires crash in SaveSteps(files, Encode(c, now), faults)
    ensures LoadOf(crash) == LoadOf(files) || LoadOf(crash) == Loaded(c)
  {
    RoundTrip(c, now);
  }

  /** A crash at any step of any act leaves the old state or the new one, never a mix. */
  lemma CrashIsOldOrNew(s: Session, act: Act, crash: Files)
    requires crash in CrashPoints(s, act)
    ensures LoadOf(crash) == LoadOf(s.files) || LoadOf(crash) == Loaded(s.contents)
  {
    match act
    case Save(now, faults) =>
      if crash != s.files { SaveStepIsOldOrNew(s.files, s.contents, now, faults, crash); }
    case SaveIfDirty(now, faults) =>
      if crash != s.files { SaveStepIsOldOrNew(s.files, s.contents, now, faults, crash); }
    case _ =>
  }

  lemma PerformKeepsPromise(s: Session, act: Act)
    requires CleanMeansSaved(s)
    ensures CleanMeansSaved(Perform(s, act))
  {
    match act
    case Mutate(call) =>
      if !Dirties(s.contents, call.mailbox, call.op) {
        CleanCallChangesNothing(s.contents, call.mailbox, call.op);
      }
    case Save(now, faults) => RoundTrip(s.contents, now);
    case SaveIfDirty(now, faults) => RoundTrip(s.contents, now);
    case Reload(_, _) =>
  }

  /** The dirty flag keeps its promise over every run of calls, saves and reloads, and a load
      at the end finds the initial file or the contents in memory at some earlier moment. */
  lemma {:induction false} RunKeepsPromise(s: Session, acts: seq<Act>)
    requires CleanMeansSaved(s)
    ensures CleanMeansSaved(PerformAll(s, acts))
    ensures
      var last := LoadOf(PerformAll(s, acts).files);
      last == LoadOf(s.files) || exists k :: 0 <= k <= |acts| && last == Loaded(PerformAll(s, acts[..k]).contents)
    decreases acts
  {
    if acts == [] {
    } else {
      var s1 := Perform(s, acts[0]);
      PerformKeepsPromise(s, acts[0]);
      RunKeepsPromise(s1, acts[1..]);
      FilesAreOldOrNew(s, acts[0]);
      var last := LoadOf(PerformAll(s, acts).files);
      if last == LoadOf(s1.files) {
        if last != LoadOf(s.files) {
          assert acts[..0] == [];
          assert last == Loaded(PerformAll(s, acts[..0]).contents);
        }
      } else {
        var k :| 0 <= k <= |acts[1..]| && last == Loaded(PerformAll(s1, acts[1..][..k]).contents);
        assert acts[..k + 1][1..] == acts[1..][..k];
        assert last == Loaded(PerformAll(s, acts[..k + 1]).contents);
      }
    }
  }

  /** Crash safety of whole runs: wherever a run is cut off, the next load finds the state the
      run started from or the complete contents of memory at some earlier moment of the run. */
  lemma CrashSafety(s: Session, acts: seq<Act>, k: nat, crash: Files)
    requires CleanMeansSaved(s) && k < |acts|
    requires crash in CrashPoints(PerformAll(s, acts[..k]), acts[k])
    ensures LoadOf(crash) == LoadOf(s.files) ||
            exists j :: 0 <= j <= k && LoadOf(crash) == Loaded(PerformAll(s, acts[..j]).contents)
  {
    var before := PerformAll(s, acts[..k]);
    CrashIsOldOrNew(before, acts[k], crash);
    RunKeepsPromise(s, acts[..k]);
    if LoadOf(crash) == LoadOf(before.files) && LoadOf(crash) != LoadOf(s.files) {
      var j :| 0 <= j <= k && LoadOf(before.files) == Loaded(PerformAll(s, acts[..k][..j]).contents);
      assert acts[..k][..j] == acts[..j];
    }
  }

  lemma FilesAreOldOrNew(s: Session, act: Act)
    ensures LoadOf(Perform(s, act).files) == LoadOf(s.files) || LoadOf(Perform(s, act).files) == Loaded(s.contents)
  {
    match act
    case Save(now, faults) =>
      RoundTrip(s.contents, now);
    case SaveIfDirty(now, faults) =>
      RoundTrip(s.contents, now);
    case _ =>
  }

  /** The record invariant survives the disk too, when the run starts from a fresh file. */
  lemma {:induction false} RunKeepsRecords(s: Session, acts: seq<Act>)
    requires AllKept(s.contents)
    requires LoadOf(s.files).Loaded? ==> AllKept(LoadOf(s.files).contents)
    ensures AllKept(PerformAll(s, acts).contents)
    decreases acts
  {
    if acts == [] {
    } else {
      var s1 := Perform(s, acts[0]);
      if acts[0].Mutate? { ApplyKeeps(s.contents, acts[0].call.mailbox, acts[0].call.op); }
      FilesAreOldOrNew(s, acts[0]);
      RunKeepsRecords(s1, acts[1..]);
    }
  }
}
