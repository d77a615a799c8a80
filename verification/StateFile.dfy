/** `Save`, `SaveIfDirty` and `Load` of internal/state/store.go, acting on the linked records of
    StateHeap.dfy and on a disk that remembers every state it has been in. */
module StateFile {
  import opened Basics
  import opened SyncState
  import opened StateHeap
  import opened StateStore

  class Disk {
    var main: Option<File>
    var temp: Option<File>
    ghost var history: seq<Files>  // the states in which a crash would have left the disk so far

    ghost function Image(): Files
      reads this
    {
      Files(main, temp)
    }

    /** `os.WriteFile` on the temporary file: truncated first, then filled. */
    method WriteTemp(doc: StateDoc, outcome: WriteOutcome)
      modifies this
      ensures main == old(main)
      ensures temp == match outcome
        case Written => Some(Complete(doc))
        case CutShort => Some(Torn)
        case NotOpened => old(temp)
      ensures history == old(history) + match outcome
        case Written => [old(Image()).(temp := Some(Torn)), old(Image()).(temp := Some(Complete(doc)))]
        case CutShort => [old(Image()).(temp := Some(Torn))]
        case NotOpened => []
    {
      if outcome.NotOpened? {
        return;
      }
      temp := Some(Torn);
      history := history + [Image()];
      if outcome.Written? {
        temp := Some(Complete(doc));
        history := history + [Image()];
      }
    }

    /** `os.Rename` of the temporary file onto the state file: all or nothing. */
    method RenameTemp(ok: bool)
      modifies this
      ensures if ok then main == old(temp) && temp == None && history == old(history) + [Image()]
              else main == old(main) && temp == old(temp) && history == old(history)
    {
      if ok {
        main, temp := temp, None;
        history := history + [Image()];
      }
    }

    method RemoveTemp(ok: bool)
      modifies this
      ensures main == old(main)
      ensures if ok then temp == None && history == old(history) + [Image()]
              else temp == old(temp) && history == old(history)
    {
      if ok {
        temp := None;
        history := history + [Image()];
      }
    }
  }

  /** `Save`: false stands for any of its errors. */
  method Save(s: State, disk: Disk, now: Timestamp, faults: SaveFaults) returns (ok: bool)
    requires s.Valid() && disk !in s.Repr
    modifies s`dirty, disk
    ensures s.Valid() && s.View == old(s.View)
    ensures ok == SaveSucceeds(faults)
    ensures ok <==> faults.mkdir && faults.write.Written? && faults.rename
    ensures s.dirty == (old(s.dirty) && !ok)
    ensures disk.history == old(disk.history) + SaveSteps(old(disk.Image()), Encode(s.View, now), faults)
    ensures disk.Image() == AfterSave(old(disk.Image()), Encode(s.View, now), faults)
    ensures ok ==> LoadOf(disk.Image()) == Loaded(s.View)
    ensures ok ==>
      && disk.temp == None && disk.main.Some? && disk.main.value.Complete? && disk.main.value.doc.updatedAt == now
      && IsWholeDoc(disk.main.value.doc) && SameRecords(s.View, disk.main.value.doc)
    ensures !ok ==> disk.main == old(disk.main)
    ensures !faults.mkdir || faults.write.NotOpened? ==> disk.temp == old(disk.temp)
    ensures faults.mkdir && faults.write.Written? && !faults.rename && faults.cleanup ==> disk.temp == None
  {
    hide State.Valid, State.ValidBut, State.Agrees, State.Snapshot, Encode, Decode, IsWholeDoc, SameRecords;
    var doc := Encode(s.Snapshot(), now);
    SavedFileLoads(s.View, now, None);
    EncodedIsSame(s.View, now);
    if !faults.mkdir {
      return false;
    }
    disk.WriteTemp(doc, faults.write);
    if !faults.write.Written? {
      return false;
    }
    disk.RenameTemp(faults.rename);
    if !faults.rename {
      disk.RemoveTemp(faults.cleanup);
      return false;
    }
    s.MarkClean();
    return true;
  }

  method SaveIfDirty(s: State, disk: Disk, now: Timestamp, faults: SaveFaults) returns (ok: bool)
    requires s.Valid() && disk !in s.Repr
    modifies s`dirty, disk
    ensures s.Valid() && s.View == old(s.View)
    ensures var before := Session(old(s.View), old(s.dirty), old(disk.Image()));
            Session(s.View, s.dirty, disk.Image()) == Perform(before, Act.SaveIfDirty(now, faults))
    ensures ok == (!old(s.dirty) || SaveSucceeds(faults))
    ensures s.dirty == (old(s.dirty) && !ok)
    ensures old(s.dirty) && ok ==> LoadOf(disk.Image()) == Loaded(s.View)
    ensures !old(s.dirty) ==> disk.history == old(disk.history) && disk.Image() == old(disk.Image())
  {
    if !s.dirty {
      return true;
    }
    ok := Save(s, disk, now, faults);
  }

  /** `Load`: drops a stale temporary file, reads the state file, and builds the records. No state comes
      back exactly if the file cannot be read, is cut short, or is of a later version than 1; a missing
      file is an empty state. */
  method Load(path: string, disk: Disk, tempRemoved: bool, readable: bool) returns (result: LoadResult, s: State?)
    modifies disk
    ensures disk.Image() == ReloadFiles(old(disk.Image()), tempRemoved)
    ensures result == ReadOf(old(disk.Image()), readable)
    ensures result.Loaded? <==> s != null
    ensures s == null <==>
      || !readable || old(disk.main) == Some(Torn)
      || (exists doc :: old(disk.main) == Some(Complete(doc)) && doc.version > 1)
    ensures result.Unreadable? <==> !readable
    ensures result.Unparsable? <==> readable && old(disk.main) == Some(Torn)
    ensures forall v :: result == TooNew(v) <==>
      v > 1 && readable && exists doc :: old(disk.main) == Some(Complete(doc)) && doc.version == v
    ensures readable && old(disk.main) == None ==> s != null && s.View == map[]
    ensures forall doc :: readable && old(disk.main) == Some(Complete(doc)) && s != null ==> SameRecords(s.View, doc)
    ensures disk.main == old(disk.main) && disk.temp == if tempRemoved then None else old(disk.temp)
    ensures s != null ==> s.Valid() && fresh(s.Repr) && s.View == result.contents && !s.dirty && s.path == path
    ensures forall i :: |old(disk.history)| <= i < |disk.history| ==>
      LoadOf(disk.history[i]) == LoadOf(old(disk.Image()))
    ensures old(disk.history) <= disk.history
  {
    hide SameRecords, State.Valid;
    disk.RemoveTemp(tempRemoved);
    s := null;
    if !readable {
      result := Unreadable;
    } else if disk.main.None? {
      s := new State(path);
      result := Loaded(map[]);
    } else if disk.main.value.Torn? {
      result := Unparsable;
    } else if disk.main.value.doc.version > CURRENT_VERSION {
      result := TooNew(disk.main.value.doc.version);
    } else {
      var c := Decode(disk.main.value.doc);
      DecodedIsSame(disk.main.value.doc);
      s := new State.Restore(path, c);
      result := Loaded(c);
    }
  }
}
