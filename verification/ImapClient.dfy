/** The IMAP client wrapper (internal/imap/client.go, folder.go, message.go): every method sends
    at most one command, or the two of `EnsureFolder`, and is proved against Imap.dfy. The
    connection underneath is the server object itself. */
module ImapClient {
  import opened Basics
  import opened Imap

  /** One DELETE as the server saw it. */
  datatype Deletion = Deletion(name: string, selected: string, before: Account)

  /** One CREATE, and whether it was acknowledged. */
  datatype Creation = Creation(name: string, acked: bool)

  /** A user's account, its answers to come, and what happened to it so far. */
  class Server {
    const oracle: Oracle
    var account: Account
    var tick: nat
    ghost var history: seq<Account>  // the states after each command, or after a whole task
    ghost var deletions: seq<Deletion>
    ghost var creations: seq<Creation>
    ghost var fetches: seq<seq<uint32>>  // the UIDs of every UID FETCH

    function Value(): Remote
      reads this
    {
      Remote(account, tick)
    }

    /** The answer to the next command. */
    function Next(): Answer
      reads this
    {
      oracle(tick)
    }

    constructor (oracle: Oracle, account: Account)
      ensures this.oracle == oracle && this.account == account && tick == 0
    {
      this.oracle, this.account, tick := oracle, account, 0;
      history, deletions, creations, fetches := [], [], [], [];
    }

    /** Takes one command whose effect is the new account. */
    method Execute(after: Account)
      modifies this
      ensures account == after && tick == old(tick) + 1
      ensures history == old(history) + [after] && deletions == old(deletions)
      ensures creations == old(creations) && fetches == old(fetches)
    {
      account, tick := after, tick + 1;
      history := history + [after];
    }

    /** Takes over what a task did on its own connections. */
    method Settle(r: Remote)
      modifies this
      ensures Value() == r && history == old(history) + [r.account] && deletions == old(deletions)
    {
      account, tick := r.account, r.tick;
      history := history + [account];
    }
  }

  class Client {
    const server: Server
    var selected: string
    var gone: bool   // whether the connection has been closed
    var closes: nat  // how often Close was called

    constructor (server: Server)
      ensures this.server == server && selected == "" && closes == 0 && !gone
    {
      this.server, selected, closes, gone := server, "", 0, false;
    }

    /** Logs out and closes the connection; false stands for an error of the latter. Once that has
        worked, closing again does nothing. */
    method Close() returns (ok: bool)
      modifies this`closes, this`gone, server
      ensures closes == old(closes) + 1
      ensures ok == (old(gone) || old(server.Next()).outcome.Acked?) && gone == ok
      ensures server.account == old(server.account) && server.tick == old(server.tick) + (if old(gone) then 0 else 1)
      ensures server.history == old(server.history) + (if old(gone) then [] else [server.account])
      ensures server.deletions == old(server.deletions)
    {
      closes := closes + 1;
      if gone {
        return true;
      }
      ok := server.Next().outcome.Acked?;
      server.Execute(server.account);
      gone := ok;
    }

    method ListFolders() returns (entries: Option<seq<Entry>>)
      modifies server
      ensures entries == ListReply(old(server.account), old(server.Next()))
      ensures server.account == old(server.account) && server.tick == old(server.tick) + 1
      ensures server.creations == old(server.creations)
      ensures server.history == old(server.history) + [server.account] && server.deletions == old(server.deletions)
    {
      entries := ListReply(server.account, server.Next());
      server.Execute(server.account);
    }

    method Select(f: string) returns (info: Option<Info>)
      modifies this`selected, server
      ensures info == SelectReply(old(server.account), f, old(server.Next()))
      ensures selected == if info.Some? then f else old(selected)
      ensures server.account == old(server.account) && server.tick == old(server.tick) + 1
      ensures server.fetches == old(server.fetches)
      ensures server.history == old(server.history) + [server.account] && server.deletions == old(server.deletions)
    {
      info := SelectReply(server.account, f, server.Next());
      server.Execute(server.account);
      if info.Some? {
        selected := f;
      }
    }

    /** Without a selected mailbox no command is sent. */
    method Unselect() returns (ok: bool)
      modifies this`selected, server
      ensures ok == (old(selected) == "" || old(server.Next()).outcome.Acked?)
      ensures selected == if ok then "" else old(selected)
      ensures server.account == old(server.account)
      ensures server.tick == old(server.tick) + (if old(selected) == "" then 0 else 1)
      ensures server.history == old(server.history) + (if old(selected) == "" then [] else [server.account])
      ensures server.deletions == old(server.deletions)
    {
      if selected == "" {
        return true;
      }
      ok := server.Next().outcome.Acked?;
      server.Execute(server.account);
      if ok {
        selected := "";
      }
    }

    method CreateFolder(name: string) returns (ok: bool)
      modifies server
      ensures (server.account, ok) == Create(old(server.account), name, old(server.Next()))
      ensures server.tick == old(server.tick) + 1
      ensures server.history == old(server.history) + [server.account] && server.deletions == old(server.deletions)
      ensures server.creations == old(server.creations) + [Creation(name, ok)]
    {
      var (after, done) := Create(server.account, name, server.Next());
      server.Execute(after);
      server.creations := server.creations + [Creation(name, done)];
      return done;
    }

    method DeleteFolder(name: string) returns (ok: bool)
      modifies server
      ensures (server.account, ok) == Delete(old(server.account), name, old(server.Next()))
      ensures server.tick == old(server.tick) + 1
      ensures server.history == old(server.history) + [server.account]
      ensures server.deletions == old(server.deletions) + [Deletion(name, selected, old(server.account))]
    {
      ghost var before := server.account;
      var (after, done) := Delete(server.account, name, server.Next());
      server.Execute(after);
      server.deletions := server.deletions + [Deletion(name, selected, before)];
      return done;
    }

    /** Of all names the server lists for the pattern, only the exact one counts. */
    method FolderExists(name: string) returns (present: Option<bool>)
      modifies server
      ensures present == ExistsReply(old(server.account), name, old(server.Next()))
      ensures server.account == old(server.account) && server.tick == old(server.tick) + 1
      ensures server.history == old(server.history) + [server.account] && server.deletions == old(server.deletions)
    {
      var ok := server.Next().outcome.Acked?;
      var listed := Found(server.account, name);
      server.Execute(server.account);
      var matched := false;
      var left := listed;
      while left != {}
        invariant left <= listed
        invariant matched <==> name in listed - left
        decreases left
        modifies {}
      {
        ghost var some := Inhabitant(left);
        var n :| n in left;
        if n == name {
          matched := true;
        }
        left := left - {n};
      }
      return if ok then Some(matched) else None;
    }

    method EnsureFolder(name: string) returns (ok: bool)
      modifies server
      ensures server.deletions == old(server.deletions)
      ensures
        var before, first, second := old(server.account), old(server.Next()), server.oracle(old(server.tick) + 1);
        match ExistsReply(before, name, first)
        case None => !ok && server.account == before && server.tick == old(server.tick) + 1
        case Some(true) => ok && server.account == before && server.tick == old(server.tick) + 1
        case Some(false) => (server.account, ok) == Create(before, name, second) && server.tick == old(server.tick) + 2
    {
      var present := FolderExists(name);
      if present.None? {
        return false;
      }
      if !present.value {
        ok := CreateFolder(name);
        return ok;
      }
      return true;
    }

    /** The messages of the selected folder; fails without one. */
    method FetchAll() returns (msgs: Option<seq<Message>>)
      modifies server
      ensures msgs == if selected in old(server.account).folders
                      then FetchAllReply(old(server.account).folders[selected], old(server.Next())) else None
      ensures server.account == old(server.account) && server.tick == old(server.tick) + 1
      ensures server.fetches == old(server.fetches)
      ensures server.history == old(server.history) + [server.account] && server.deletions == old(server.deletions)
    {
      msgs := None;
      if selected in server.account.folders {
        msgs := FetchAllReply(server.account.folders[selected], server.Next());
      }
      server.Execute(server.account);
    }

    method FetchByUID(uids: seq<uint32>) returns (msgs: Option<seq<Message>>)
      modifies server
      ensures server.account == old(server.account)
      ensures server.fetches == old(server.fetches) + (if uids == [] then [] else [uids])
      ensures uids == [] ==> msgs == Some([]) && server.tick == old(server.tick)
      ensures uids != [] ==>
        && server.tick == old(server.tick) + 1
        && msgs == if selected in old(server.account).folders
                   then FetchReply(old(server.account).folders[selected], uids, old(server.Next())) else None
    {
      if uids == [] {
        return Some([]);
      }
      msgs := None;
      if selected in server.account.folders {
        msgs := FetchReply(server.account.folders[selected], uids, server.Next());
      }
      server.Execute(server.account);
      server.fetches := server.fetches + [uids];
    }

    /** The sum of the RFC822 sizes in the selected folder, added up in a `uint64`. */
    method FetchAllSizes() returns (total: Option<nat>)
      modifies server
      ensures total == if selected in old(server.account).folders && old(server.Next()).outcome.Acked?
                       then Some(TotalSize(old(server.account).folders[selected]) % TWO_TO_64) else None
      ensures server.account == old(server.account) && server.tick == old(server.tick) + 1
      ensures server.history == old(server.history) + [server.account] && server.deletions == old(server.deletions)
    {
      var ans := server.Next();
      total := None;
      if selected in server.account.folders && ans.outcome.Acked? {
        var fo := server.account.folders[selected];
        var sum := AddSizes(fo, UidOrder(fo.msgs.Keys, ans.uids));
        total := Some(sum);
      }
      server.Execute(server.account);
    }

    method Append(f: string, msg: Message) returns (uid: Option<uint32>)
      modifies server
      ensures (server.account, uid) ==
        Imap.Append(old(server.account), f, Settable(msg.flags), msg.date, msg.body, old(server.Next()))
      ensures server.tick == old(server.tick) + 1
    {
      var flags := ClientSettableFlags(msg.flags);
      var (after, acked) := Imap.Append(server.account, f, flags, msg.date, msg.body, server.Next());
      server.Execute(after);
      return acked;
    }

    /** Without UIDs no command is sent. */
    method MarkDeleted(uids: seq<uint32>) returns (ok: bool)
      modifies server
      ensures uids == [] ==> ok && server.account == old(server.account) && server.tick == old(server.tick) &&
                             server.history == old(server.history)
      ensures uids != [] ==>
        && (server.account, ok) == Imap.MarkDeleted(old(server.account), selected, uids, old(server.Next()))
        && server.tick == old(server.tick) + 1
        && server.history == old(server.history) + [server.account]
      ensures uids != [] && ok ==>
        && CanSelect(server.account, selected)
        && forall u :: u in uids && u in server.account.folders[selected].msgs ==>
             "\\Deleted" in server.account.folders[selected].msgs[u].flags
      ensures server.deletions == old(server.deletions)
    {
      if uids == [] {
        return true;
      }
      MarkKeepsSelectable(server.account, selected, uids, server.Next());
      var (after, done) := Imap.MarkDeleted(server.account, selected, uids, server.Next());
      server.Execute(after);
      return done;
    }

    method Expunge() returns (ok: bool)
      modifies server
      ensures (server.account, ok) == Imap.Expunge(old(server.account), selected, old(server.Next()))
      ensures server.tick == old(server.tick) + 1
      ensures server.history == old(server.history) + [server.account] && server.deletions == old(server.deletions)
    {
      var (after, done) := Imap.Expunge(server.account, selected, server.Next());
      server.Execute(after);
      return done;
    }
  }

  lemma MarkKeepsSelectable(a: Account, f: string, uids: seq<uint32>, ans: Answer)
    ensures Imap.MarkDeleted(a, f, uids, ans).1 ==>
      var a' := Imap.MarkDeleted(a, f, uids, ans).0;
      && CanSelect(a', f)
      && forall u :: u in uids && u in a'.folders[f].msgs ==> "\\Deleted" in a'.folders[f].msgs[u].flags
  {
    if Imap.MarkDeleted(a, f, uids, ans).1 { MarkedAreDeleted(a, f, uids, ans); }
  }

  lemma WrapOnce(x: nat, y: nat)
    ensures (x % TWO_TO_64 + y) % TWO_TO_64 == (x + y) % TWO_TO_64
  {
  }

  lemma SizeOfNext(fo: Folder, order: seq<uint32>, i: nat)
    requires i < |order| && forall u :: u in order ==> u in fo.msgs
    ensures order[i] in fo.msgs && (forall u :: u in order[..i] ==> u in fo.msgs)
      && (forall u :: u in order[..i + 1] ==> u in fo.msgs)
    ensures SizeOf(fo, order[..i + 1]) == SizeOf(fo, order[..i]) + |fo.msgs[order[i]].body|
  {
    assert order[..i + 1] == order[..i] + [order[i]];
    SizeOfParts(fo, order[..i], [order[i]]);
  }

  /** The additions of `FetchAllSizes`, wrapping as a `uint64` does. */
  method AddSizes(fo: Folder, order: seq<uint32>) returns (sum: nat)
    requires NoDup(order) && Elements(order) == fo.msgs.Keys
    requires forall u :: u in order ==> u in fo.msgs
    ensures sum == TotalSize(fo) % TWO_TO_64
  {
    sum := 0;
    for i := 0 to |order|
      invariant sum == SizeOf(fo, order[..i]) % TWO_TO_64
    {
      SizeOfNext(fo, order, i);
      WrapOnce(SizeOf(fo, order[..i]), |fo.msgs[order[i]].body|);
      sum := (sum + |fo.msgs[order[i]].body|) % TWO_TO_64;
    }
    assert order[..|order|] == order;
    SizeIsTotal(fo, order);
  }

  /** `clientSettableFlags`. */
  method ClientSettableFlags(flags: seq<string>) returns (result: seq<string>)
    ensures result == Settable(flags)
    ensures forall f :: f in result <==> f in flags && f != "\\Recent"
  {
    result := [];
    for i := 0 to |flags|
      invariant result + Settable(flags[i..]) == Settable(flags)
    {
      assert flags[i..][1..] == flags[i + 1..];
      if flags[i] != RECENT {
        result := result + [flags[i]];
      }
    }
    forall f ensures f in result <==> f in flags && f != "\\Recent" { SettableKeepsAllOthers(flags, f); }
  }

  /** `HasFlag` and `HasAttribute`. */
  method HasFlag(flags: seq<string>, flag: string) returns (has: bool)
    ensures has <==> flag in flags
  {
    for i := 0 to |flags|
      invariant flag !in flags[..i]
    {
      if flags[i] == flag {
        return true;
      }
    }
    return false;
  }

  /** The UIDs of fetched messages, in their order. */
  method CollectUIDs(msgs: seq<Message>) returns (uids: seq<uint32>)
    ensures uids == Uids(msgs)
  {
    uids := [];
    for i := 0 to |msgs|
      invariant |uids| == i && forall k :: 0 <= k < i ==> uids[k] == msgs[k].uid
    {
      uids := uids + [msgs[i].uid];
    }
  }
}
