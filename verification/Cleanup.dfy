/** Emptying a target account before the copy (internal/runner/runner.go, cleanTargetMailbox). */
module Cleanup {
  import opened Basics
  import opened Imap
  import opened ImapClient
  import opened FolderTree

  function UpperCase(c: char): char {
    if 'a' <= c <= 'z' then (c as int - 'a' as int + 'A' as int) as char else c
  }

  /** `strings.EqualFold`, as far as it matters for the letters of INBOX. */
  predicate EqualFold(a: string, b: string) {
    |a| == |b| && forall i :: 0 <= i < |a| ==> UpperCase(a[i]) == UpperCase(b[i])
  }

  /** The names that are taken for INBOX, and so never deleted. */
  lemma SpelledInbox(n: string)
    ensures EqualFold(n, INBOX) <==>
      |n| == 5 && n[0] in "Ii" && n[1] in "Nn" && n[2] in "Bb" && n[3] in "Oo" && n[4] in "Xx"
  {
    if |n| == 5 {
      assert EqualFold(n, INBOX) <==>
        && UpperCase(n[0]) == 'I' && UpperCase(n[1]) == 'N' && UpperCase(n[2]) == 'B' && UpperCase(n[3]) == 'O'
        && UpperCase(n[4]) == 'X';
    }
  }

  /** A valid account whose only INBOX is spelled so (section 5.1 of RFC 3501: the name is
      case-insensitive), the delimiter not being one of its letters. */
  ghost predicate Cleanable(a: Account) {
    && ValidAccount(a)
    && (forall f :: f in a.folders && EqualFold(f, INBOX) ==> f == INBOX)
    && a.delim !in INBOX
  }

  // ---------------------------------------------------------------- what is left of an account

  ghost predicate FolderWithin(x: Folder, y: Folder) {
    && x.uidValidity == y.uidValidity && x.uidNext == y.uidNext
    && forall u :: u in x.msgs ==> u in y.msgs && x.msgs[u].body == y.msgs[u].body && x.msgs[u].date == y.msgs[u].date
  }

  /** Account `a` is what is left of `b`: fewer folders and messages, none of them new. */
  ghost predicate Within(a: Account, b: Account) {
    && a.delim == b.delim
    && forall f :: f in a.folders ==> f in b.folders && FolderWithin(a.folders[f], b.folders[f])
  }

  /** The folders of both accounts are the same but for their messages. */
  ghost predicate SameFolders(a: Account, b: Account) {
    && (forall f :: f in a.folders <==> f in b.folders)
    && forall f :: f in a.folders ==> a.folders[f].attributes == b.folders[f].attributes
  }

  ghost predicate IsEmptyIn(a: Account, f: string) {
    f in a.folders && a.folders[f].msgs == map[]
  }

  /** Every state from number `n` on is within `a`. */
  ghost predicate TailWithin(states: seq<Account>, n: nat, a: Account) {
    n <= |states| && forall i :: n <= i < |states| ==> Within(states[i], a)
  }

  lemma MarkingStaysWithin(a: Account, a0: Account, f: string, uids: seq<uint32>, ans: Answer)
    requires Within(a, a0) && SameFolders(a, a0)
    ensures var a' := Imap.MarkDeleted(a, f, uids, ans).0;
            Within(a', a0) && SameFolders(a', a0) && forall g :: IsEmptyIn(a, g) ==> IsEmptyIn(a', g)
  {
  }

  lemma ExpungingStaysWithin(a: Account, a0: Account, f: string, ans: Answer)
    requires Within(a, a0) && SameFolders(a, a0)
    ensures var a' := Imap.Expunge(a, f, ans).0;
            Within(a', a0) && SameFolders(a', a0) && forall g :: IsEmptyIn(a, g) ==> IsEmptyIn(a', g)
  {
  }

  /** EXPUNGE takes away marked messages of the selected folder and nothing else, all of them if it is
      acknowledged. */
  lemma EffectOfExpunge(a: Account, f: string, ans: Answer)
    requires CanSelect(a, f)
    ensures
      var (a', ok) := Imap.Expunge(a, f, ans);
      && a'.folders.Keys == a.folders.Keys && (forall g :: g in a.folders && g != f ==> a'.folders[g] == a.folders[g])
      && a'.folders[f].attributes == a.folders[f].attributes && a'.folders[f].uidNext == a.folders[f].uidNext
      && (forall u :: u in a'.folders[f].msgs ==>
            u in a.folders[f].msgs && a'.folders[f].msgs[u] == a.folders[f].msgs[u])
      && (forall u :: u in a.folders[f].msgs && "\\Deleted" !in a.folders[f].msgs[u].flags ==> u in a'.folders[f].msgs)
      && (ok ==> forall u :: u in a'.folders[f].msgs ==> "\\Deleted" !in a'.folders[f].msgs[u].flags)
  {
  }

  /** An acknowledged EXPUNGE after an acknowledged marking of all UIDs empties the folder. */
  lemma MarkAndExpungeEmpties(a: Account, f: string, uids: seq<uint32>, first: Answer, second: Answer)
    requires CanSelect(a, f) && Elements(uids) == a.folders[f].msgs.Keys
    requires first.outcome.Acked? && second.outcome.Acked?
    ensures IsEmptyIn(Imap.Expunge(Imap.MarkDeleted(a, f, uids, first).0, f, second).0, f)
  {
    var marked := Imap.MarkDeleted(a, f, uids, first).0;
    assert forall u :: u in marked.folders[f].msgs ==> IsDeleted(marked.folders[f].msgs[u].flags);
  }

  // ---------------------------------------------------------------- the method

  /** What holds of the server throughout the first phase, since its state number `n`. */
  ghost predicate Emptying(server: Server, a0: Account, n: nat)
    reads server
  {
    && Within(server.account, a0) && SameFolders(server.account, a0)
    && TailWithin(server.history, n, a0)
  }

  method FetchUIDs(client: Client, ghost a0: Account, ghost n: nat) returns (uids: Option<seq<uint32>>)
    requires Emptying(client.server, a0, n)
    modifies client.server
    ensures Emptying(client.server, a0, n) && client.server.account == old(client.server.account)
    ensures client.server.deletions == old(client.server.deletions)
    ensures uids.Some? ==>
      && client.selected in client.server.account.folders
      && Elements(uids.value) == client.server.account.folders[client.selected].msgs.Keys
    ensures AlwaysAcks(client.server.oracle) && client.selected in client.server.account.folders ==> uids.Some?
  {
    hide Within, SameFolders;
    var all := client.FetchAll();
    if all.None? {
      return None;
    }
    var list := CollectUIDs(all.value);
    UidsOfListing(client.server.account.folders[client.selected], old(client.server.Next()));
    return Some(list);
  }

  lemma UidsOfListing(fo: Folder, ans: Answer)
    ensures FetchAllReply(fo, ans).Some? ==> Elements(Uids(FetchAllReply(fo, ans).value)) == fo.msgs.Keys
  {
    var order := UidOrder(fo.msgs.Keys, ans.uids);
    assert Uids(Messages(fo, order)) == order;
  }

  /** Marks the listed messages of the selected folder and expunges them. */
  method Purge(client: Client, uids: seq<uint32>, ghost a0: Account, ghost n: nat) returns (ok: bool)
    requires Emptying(client.server, a0, n) && CanSelect(client.server.account, client.selected)
    requires Elements(uids) == client.server.account.folders[client.selected].msgs.Keys
    modifies client.server
    ensures Emptying(client.server, a0, n)
    ensures forall g :: old(IsEmptyIn(client.server.account, g)) ==> IsEmptyIn(client.server.account, g)
    ensures ok ==> IsEmptyIn(client.server.account, client.selected)
    ensures client.server.deletions == old(client.server.deletions)
    ensures AlwaysAcks(client.server.oracle) ==> ok
  {
    hide Within, SameFolders, Imap.MarkDeleted, Imap.Expunge;
    var server, f := client.server, client.selected;
    ghost var before, first := server.account, server.Next();
    if |uids| > 0 {
      AckedMarking(before, f, uids, first);
      MarkingStaysWithin(before, a0, f, uids, first);
      var marked := client.MarkDeleted(uids);
      if !marked {
        return false;
      }
    }
    ghost var between, second := server.account, server.Next();
    AckedExpunge(between, f, second);
    ExpungingStaysWithin(between, a0, f, second);
    ok := client.Expunge();
    if ok {
      if |uids| > 0 {
        MarkAndExpungeEmpties(before, f, uids, first, second);
      } else {
        EmptyStaysEmpty(between, f, second);
      }
    }
  }

  lemma AckedMarking(a: Account, f: string, uids: seq<uint32>, ans: Answer)
    requires CanSelect(a, f)
    ensures Imap.MarkDeleted(a, f, uids, ans).1 <==> ans.outcome.Acked?
    ensures CanSelect(Imap.MarkDeleted(a, f, uids, ans).0, f)
  {
  }

  lemma AckedExpunge(a: Account, f: string, ans: Answer)
    requires CanSelect(a, f)
    ensures Imap.Expunge(a, f, ans).1 <==> ans.outcome.Acked?
  {
  }

  lemma EmptyStaysEmpty(a: Account, f: string, ans: Answer)
    requires CanSelect(a, f) && a.folders[f].msgs.Keys == {}
    ensures IsEmptyIn(Imap.Expunge(a, f, ans).0, f)
  {
  }

  /** Removes all messages of one folder. */
  method EmptyFolder(client: Client, name: string, ghost a0: Account, ghost n: nat) returns (ok: bool)
    requires Emptying(client.server, a0, n)
    modifies client`selected, client.server
    ensures Emptying(client.server, a0, n)
    ensures forall g :: old(IsEmptyIn(client.server.account, g)) ==> IsEmptyIn(client.server.account, g)
    ensures ok ==> IsEmptyIn(client.server.account, name)
    ensures client.server.deletions == old(client.server.deletions)
    ensures AlwaysAcks(client.server.oracle) && CanSelect(old(client.server.account), name) ==> ok
  {
    hide Within, SameFolders;
    var info := client.Select(name);
    if info.None? {
      return false;
    }
    if info.value.messages == 0 {
      assert |client.server.account.folders[name].msgs| == 0;
      return true;
    }
    var uids := FetchUIDs(client, a0, n);
    if uids.None? {
      return false;
    }
    ok := Purge(client, uids.value, a0, n);
  }

  // ---------------------------------------------------------------- deleting the folders

  /** The names that the second phase still has to visit, and INBOX. */
  ghost predicate OnlyLeft(a: Account, sorted: seq<Entry>, i: nat) {
    i <= |sorted| && forall f :: f in a.folders <==> f == INBOX || exists j :: i <= j < |sorted| && sorted[j].name == f
  }

  /** The server was asked to delete a folder without inferiors, no mailbox being selected. */
  ghost predicate SafeDeletion(d: Deletion) {
    d.selected == "" && d.name in d.before.folders && !HasInferiors(d.before, d.name)
  }

  ghost predicate SafeSince(ds: seq<Deletion>, n: nat) {
    n <= |ds| && forall i :: n <= i < |ds| ==> SafeDeletion(ds[i])
  }

  /** Descending name order leaves no inferior of the folder whose turn it is, but for INBOX, which is
      never visited. */
  lemma NoInferiorLeft(a: Account, sorted: seq<Entry>, i: nat)
    requires InOrder(sorted, true) && i < |sorted| && OnlyLeft(a, sorted, i)
    ensures HasInferiors(a, sorted[i].name) <==> IsInferior(INBOX, sorted[i].name, a.delim)
  {
    var name := sorted[i].name;
    if HasInferiors(a, name) {
      var f :| f in a.folders && IsInferior(f, name, a.delim);
      if f != INBOX {
        var j :| i <= j < |sorted| && sorted[j].name == f;
        assert |name| < |f|;
        ChildrenFirst(sorted, i, j, a.delim);
      }
    }
  }

  lemma AboveInbox(name: string, delim: char)
    ensures IsInferior(INBOX, name, delim) ==> delim in INBOX
  {
    if IsInferior(INBOX, name, delim) { assert INBOX[|name|] == (name + [delim])[|name|] == delim; }
  }

  lemma DeletingStaysWithin(a: Account, a0: Account, name: string, ans: Answer)
    requires Within(a, a0) && !HasInferiors(a, name)
    ensures Within(Imap.Delete(a, name, ans).0, a0)
    ensures a.folders.Keys - {name} <= Imap.Delete(a, name, ans).0.folders.Keys
    ensures Imap.Delete(a, name, ans).1 ==> Imap.Delete(a, name, ans).0 == a.(folders := a.folders - {name})
    ensures name in a.folders && name != INBOX && ans.outcome.Acked? ==> Imap.Delete(a, name, ans).1
    ensures forall g :: g != name && g in a.folders ==> Imap.Delete(a, name, ans).0.folders[g] == a.folders[g]
  {
  }

  method DeleteFolders(client: Client, sorted: seq<Entry>, ghost a0: Account, ghost n: nat, ghost m: nat)
    returns (ok: bool)
    requires InOrder(sorted, true) && DistinctNames(sorted) && client.selected == ""
    requires Cleanable(a0) && Within(client.server.account, a0) && OnlyLeft(client.server.account, sorted, 0)
    requires TailWithin(client.server.history, n, a0) && SafeSince(client.server.deletions, m)
    requires INBOX in client.server.account.folders
    requires forall j :: 0 <= j < |sorted| ==> sorted[j].name in a0.folders
    modifies client.server
    ensures Within(client.server.account, a0)
    ensures TailWithin(client.server.history, n, a0) && SafeSince(client.server.deletions, m)
    ensures ok ==> client.server.account.folders == map[INBOX := old(client.server.account.folders[INBOX])]
    ensures AlwaysAcks(client.server.oracle) ==> ok
  {
    hide Within, ValidAccount, HasInferiors, Imap.Delete, InOrder;
    var server := client.server;
    for i := 0 to |sorted|
      invariant Within(server.account, a0) && TailWithin(server.history, n, a0)
      invariant SafeSince(server.deletions, m)
      invariant INBOX in server.account.folders && server.account.folders[INBOX] == old(server.account.folders[INBOX])
      invariant OnlyLeft(server.account, sorted, i)
    {
      var name := sorted[i].name;
      if EqualFold(name, INBOX) {
        OnlyLeftAfterInbox(server.account, sorted, i);
        continue;
      }
      ghost var before, ans := server.account, server.Next();
      WithinKeepsDelim(before, a0);
      NoInferiorLeft(before, sorted, i);
      AboveInbox(name, before.delim);
      DeletingStaysWithin(before, a0, name, ans);
      assert name in before.folders;
      assert name != INBOX;
      var deleted := client.DeleteFolder(name);
      if !deleted {
        return false;
      }
      OnlyLeftAfterDelete(before, sorted, i);
    }
    return true;
  }

  lemma WithinKeepsDelim(a: Account, b: Account)
    requires Within(a, b)
    ensures a.delim == b.delim
  {
  }

  lemma OnlyLeftAfterInbox(a: Account, sorted: seq<Entry>, i: nat)
    requires OnlyLeft(a, sorted, i) && i < |sorted| && sorted[i].name == INBOX
    ensures OnlyLeft(a, sorted, i + 1)
  {
  }

  lemma OnlyLeftAfterDelete(a: Account, sorted: seq<Entry>, i: nat)
    requires OnlyLeft(a, sorted, i) && i < |sorted| && sorted[i].name != INBOX && DistinctNames(sorted)
    ensures OnlyLeft(a.(folders := a.folders - {sorted[i].name}), sorted, i + 1)
  {
    var name := sorted[i].name;
    forall f
      ensures f in a.folders - {name} <==> f == INBOX || exists j :: i + 1 <= j < |sorted| && sorted[j].name == f
    {
      if f in a.folders && f != INBOX && f != name {
        var j :| i <= j < |sorted| && sorted[j].name == f;
        assert i + 1 <= j;
      }
      if j :| i + 1 <= j < |sorted| && sorted[j].name == f {
        assert f != name && f in a.folders;
      }
    }
  }

  lemma SelectableStays(a: Account, a0: Account, f: string)
    requires SameFolders(a, a0)
    ensures CanSelect(a, f) <==> CanSelect(a0, f)
  {
  }

  /** The first phase: every selectable folder is emptied. */
  method EmptyFolders(client: Client, folders: seq<Entry>, ghost a0: Account, ghost n: nat) returns (ok: bool)
    requires Emptying(client.server, a0, n)
    modifies client`selected, client.server
    ensures Emptying(client.server, a0, n) && client.server.deletions == old(client.server.deletions)
    ensures ok ==> forall e :: e in folders && !e.IsNoSelect() ==> IsEmptyIn(client.server.account, e.name)
    ensures
      && AlwaysAcks(client.server.oracle)
      && (forall e :: e in folders && !e.IsNoSelect() ==> CanSelect(a0, e.name))
      ==> ok
  {
    hide Within, SameFolders, IsEmptyIn;
    for i := 0 to |folders|
      invariant Emptying(client.server, a0, n) && client.server.deletions == old(client.server.deletions)
      invariant forall j :: 0 <= j < i && !folders[j].IsNoSelect() ==> IsEmptyIn(client.server.account, folders[j].name)
    {
      if folders[i].IsNoSelect() {
        continue;
      }
      SelectableStays(client.server.account, a0, folders[i].name);
      var emptied := EmptyFolder(client, folders[i].name, a0, n);
      if !emptied {
        return false;
      }
    }
    return true;
  }

  /** The sorted listing visits every folder that there is to delete. */
  lemma ListingIsAllThereIs(a: Account, a0: Account, ans: Answer, sorted: seq<Entry>)
    requires Cleanable(a0) && SameFolders(a, a0) && ListReply(a0, ans).Some?
    requires sorted == SortByName(ListReply(a0, ans).value, true)
    ensures InOrder(sorted, true) && DistinctNames(sorted) && OnlyLeft(a, sorted, 0)
    ensures forall j :: 0 <= j < |sorted| ==> sorted[j].name in a0.folders
    ensures exists e :: e in ListReply(a0, ans).value && e.name == INBOX && !e.IsNoSelect()
  {
    var es := ListReply(a0, ans).value;
    ListingNamesAll(a0, ans);
    SortIsSorted(es, true);
    SortKeepsDistinct(es, true);
    forall f ensures f in a.folders <==> f == INBOX || exists j :: 0 <= j < |sorted| && sorted[j].name == f {
      if f in a.folders {
        var e :| e in es && e.name == f;
        assert e in sorted;
      }
      if j :| 0 <= j < |sorted| && sorted[j].name == f {
        assert sorted[j] in sorted;
      }
    }
    forall j | 0 <= j < |sorted| ensures sorted[j].name in a0.folders { assert sorted[j] in sorted; }
    var e :| e in es && e.name == INBOX;
    assert !e.IsNoSelect();
  }

  /** What a cleaned account looks like: an empty, usable INBOX of the same epoch, alone. */
  ghost predicate IsCleaned(a: Account, a0: Account) {
    && Within(a, a0) && a.folders.Keys == {INBOX}
    && IsEmptyIn(a, INBOX) && !a.folders[INBOX].IsNoSelect()
  }

  lemma InboxStaysSelectable(a: Account, a0: Account)
    requires SameFolders(a, a0) && Cleanable(a0)
    ensures INBOX in a.folders && !a.folders[INBOX].IsNoSelect()
  {
  }

  lemma InboxAloneIsCleaned(a: Account, before: Account, a0: Account)
    requires SameFolders(before, a0) && Cleanable(a0) && IsEmptyIn(before, INBOX) && Within(a, a0)
    requires a.folders == map[INBOX := before.folders[INBOX]]
    ensures IsCleaned(a, a0)
  {
    InboxStaysSelectable(before, a0);
  }

  lemma CleanedHasInbox(a: Account, a0: Account)
    requires IsCleaned(a, a0)
    ensures a.folders.Keys == {"INBOX"} && a.folders["INBOX"].msgs == map[]
  {
  }

  /** `cleanTargetMailbox` on a connected client. On success nothing but an empty INBOX is left;
      at every step, failing ones included, the account is within the original one; and every
      DELETE meets a folder without inferiors, with no mailbox selected. */
  method CleanTargetMailbox(client: Client) returns (ok: bool)
    requires Cleanable(client.server.account) && client.selected == ""
    modifies client`selected, client.server
    ensures Within(client.server.account, old(client.server.account))
    ensures TailWithin(client.server.history, |old(client.server.history)|, old(client.server.account))
    ensures SafeSince(client.server.deletions, |old(client.server.deletions)|)
    ensures ok ==> IsCleaned(client.server.account, old(client.server.account))
    ensures ok ==>
      client.server.account.folders.Keys == {"INBOX"} && client.server.account.folders["INBOX"].msgs == map[]
    ensures AlwaysAcks(client.server.oracle) ==> ok
  {
    var server := client.server;
    ghost var a0, n, m := server.account, |server.history|, |server.deletions|;
    assert Within(a0, a0) && SameFolders(a0, a0);
    hide Within, SameFolders, IsEmptyIn, IsCleaned, Cleanable, OnlyLeft, InOrder, DistinctNames, ListReply;
    var folders := client.ListFolders();
    if folders.None? {
      return false;
    }
    var emptied := EmptyFolders(client, folders.value, a0, n);
    if !emptied {
      return false;
    }
    var unselected := client.Unselect();
    if !unselected {
      return false;
    }
    var sorted := SortByName(folders.value, true);
    ListingIsAllThereIs(server.account, a0, old(server.Next()), sorted);
    InboxStaysSelectable(server.account, a0);
    ghost var before := server.account;
    ok := DeleteFolders(client, sorted, a0, n, m);
    if ok {
      InboxAloneIsCleaned(server.account, before, a0);
      CleanedHasInbox(server.account, a0);
    }
  }
}
