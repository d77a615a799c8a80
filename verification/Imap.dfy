/** One user's account on an IMAP server as a value, with the effect of every command the
    program sends (RFC 3501; APPENDUID of section 3 of RFC 4315). Each command takes the
    server's `Answer`, which decides about success and leaves the server every freedom the
    standard gives it: UID gaps, listing order, order of FETCH responses, lost replies. */
module Imap {
  import opened Basics

  const RECENT := "\\Recent"
  const DELETED := "\\Deleted"
  const NOSELECT := "\\Noselect"
  const NONEXISTENT := "\\NonExistent"
  const INBOX := "INBOX"

  type Bytes = seq<bv8>

  /** A message in a folder. */
  datatype Stored = Stored(flags: seq<string>, date: Timestamp, body: Bytes)

  /** A message as fetched. */
  datatype Message = Message(uid: uint32, flags: seq<string>, date: Timestamp, body: Bytes)

  /** Attributes of a folder that cannot be selected. */
  predicate NoSelect(attributes: seq<string>) { NOSELECT in attributes || NONEXISTENT in attributes }

  datatype Folder = Folder(attributes: seq<string>, uidValidity: uint32, uidNext: nat, msgs: map<uint32, Stored>) {
    predicate IsNoSelect() { NoSelect(attributes) }
  }

  /** All folders of an account and the character that separates levels of its hierarchy. */
  datatype Account = Account(delim: char, folders: map<string, Folder>)

  /** UIDs are positive and below UIDNEXT (section 2.3.1.1); containers hold no messages. */
  ghost predicate ValidFolder(fo: Folder) {
    && fo.uidValidity != 0
    && (forall u :: u in fo.msgs ==> 0 < u < fo.uidNext)
    && (fo.IsNoSelect() ==> fo.msgs == map[])
  }

  ghost predicate ValidAccount(a: Account) {
    && (forall f :: f in a.folders ==> ValidFolder(a.folders[f]))
    && INBOX in a.folders && !a.folders[INBOX].IsNoSelect()
  }

  predicate CanSelect(a: Account, f: string) {
    f in a.folders && !a.folders[f].IsNoSelect()
  }

  /** Two attributes alone keep a folder from being selected. */
  lemma SelectableByAttributes(a: Account, f: string)
    ensures CanSelect(a, f) <==>
      && f in a.folders
      && "\\Noselect" !in a.folders[f].attributes && "\\NonExistent" !in a.folders[f].attributes
  {
  }

  /** The command is done and acknowledged, done without the client learning it, or not done. */
  datatype Outcome = Acked | Unacked | Refused

  /** What the server does with one command. `skip` is the gap left before a new UID, `now` its
      clock, `validity` the UIDVALIDITY of a new folder (less one), `superiors` the attributes of
      implicitly created superior folders, `names` and `uids` the order of its listings, `uids`
      also the messages a failing STORE or EXPUNGE still reached, and `counts` whether a listing
      carries message counts. */
  datatype Answer = Answer(
    outcome: Outcome, skip: nat, now: Timestamp, validity: uint32,
    superiors: seq<string>, names: seq<string>, uids: seq<uint32>, counts: bool)

  type Oracle = nat -> Answer

  /** An account and the number of commands the server has answered for it. */
  datatype Remote = Remote(account: Account, tick: nat)

  // ---------------------------------------------------------------- flags

  /** The flags a client may set: all but `\Recent`. */
  function Settable(flags: seq<string>): seq<string> {
    if flags == [] then []
    else (if flags[0] == RECENT then [] else [flags[0]]) + Settable(flags[1..])
  }

  lemma {:induction false} SettableKeepsAllOthers(flags: seq<string>, flag: string)
    ensures multiset(Settable(flags))[flag] == if flag == "\\Recent" then 0 else multiset(flags)[flag]
    ensures flag in Settable(flags) <==> flag in flags && flag != "\\Recent"
  {
    if flags == [] {
    } else {
      SettableKeepsAllOthers(flags[1..], flag);
      var h: seq<string> := if flags[0] == RECENT then [] else [flags[0]];
      assert flags == [flags[0]] + flags[1..];
      assert multiset(h + Settable(flags[1..])) == multiset(h) + multiset(Settable(flags[1..]));
    }
  }

  predicate IsDeleted(flags: seq<string>) { DELETED in flags }

  // ---------------------------------------------------------------- listings

  /** The order of a listing: the server's own if it is complete and free of repeats. */
  function UidOrder(uids: set<uint32>, proposal: seq<uint32>): (r: seq<uint32>)
    ensures NoDup(r) && Elements(r) == uids
    ensures forall u :: u in r <==> u in uids
  {
    if NoDup(proposal) && Elements(proposal) == uids
    then assert forall u :: u in proposal <==> u in Elements(proposal); proposal
    else Ascending(uids)
  }

  function NameOrder(names: set<string>, proposal: seq<string>): (r: seq<string>)
    ensures NoDup(r) && Elements(r) == names
    ensures forall n :: n in r <==> n in names
  {
    if NoDup(proposal) && Elements(proposal) == names
    then assert forall n :: n in proposal <==> n in Elements(proposal); proposal
    else AscendingNames(names)
  }

  function MessageAt(fo: Folder, uid: uint32): Message
    requires uid in fo.msgs
  {
    Message(uid, fo.msgs[uid].flags, fo.msgs[uid].date, fo.msgs[uid].body)
  }

  function Messages(fo: Folder, uids: seq<uint32>): (r: seq<Message>)
    requires forall u :: u in uids ==> u in fo.msgs
    ensures |r| == |uids|
    ensures forall i :: 0 <= i < |r| ==> r[i] == MessageAt(fo, uids[i])
  {
    seq(|uids|, i requires 0 <= i < |uids| => assert uids[i] in uids; MessageAt(fo, uids[i]))
  }

  function Uids(msgs: seq<Message>): (r: seq<uint32>)
    ensures |r| == |msgs| && forall i :: 0 <= i < |r| ==> r[i] == msgs[i].uid
  {
    seq(|msgs|, i requires 0 <= i < |msgs| => msgs[i].uid)
  }

  /** FETCH of the named UIDs; those without a message are passed over. */
  function FetchReply(fo: Folder, uids: seq<uint32>, ans: Answer): Option<seq<Message>> {
    if !ans.outcome.Acked? then None
    else Some(Messages(fo, UidOrder(Elements(uids) * fo.msgs.Keys, ans.uids)))
  }

  /** FETCH of UIDs 1:*. */
  function FetchAllReply(fo: Folder, ans: Answer): Option<seq<Message>> {
    if !ans.outcome.Acked? then None
    else Some(Messages(fo, UidOrder(fo.msgs.Keys, ans.uids)))
  }

  datatype Entry = Entry(name: string, attributes: seq<string>, messages: Option<nat>) {
    predicate IsNoSelect() { NoSelect(attributes) }
  }

  function Entries(a: Account, names: seq<string>, counts: bool): (r: seq<Entry>)
    requires forall n :: n in names ==> n in a.folders
    ensures |r| == |names|
    ensures forall i :: 0 <= i < |r| ==> r[i].name == names[i] && r[i].attributes == a.folders[names[i]].attributes
    ensures forall i :: 0 <= i < |r| ==> r[i].messages == if counts then Some(|a.folders[names[i]].msgs|) else None
  {
    seq(|names|, i requires 0 <= i < |names| => assert names[i] in names;
      Entry(names[i], a.folders[names[i]].attributes, if counts then Some(|a.folders[names[i]].msgs|) else None))
  }

  /** LIST "" "*", with message counts if the server reports them. */
  function ListReply(a: Account, ans: Answer): Option<seq<Entry>> {
    if ans.outcome.Acked? then Some(Entries(a, NameOrder(a.folders.Keys, ans.names), ans.counts)) else None
  }

  // ---------------------------------------------------------------- commands

  datatype Info = Info(messages: nat, uidValidity: uint32)

  function SelectReply(a: Account, f: string, ans: Answer): Option<Info> {
    if ans.outcome.Acked? && CanSelect(a, f) then Some(Info(|a.folders[f].msgs|, a.folders[f].uidValidity)) else None
  }

  /** APPEND: the new UID is at or above UIDNEXT; a zero date is replaced by the server's clock. */
  function Append(a: Account, f: string, flags: seq<string>, date: Timestamp, body: Bytes, ans: Answer)
    : (Account, Option<uint32>)
  {
    if ans.outcome.Refused? || !CanSelect(a, f) then (a, None)
    else
      var fo := a.folders[f];
      var uid := fo.uidNext + ans.skip;
      if uid == 0 || uid >= TWO_TO_32 then (a, None)
      else
        var stored := Stored(flags, if date == 0 then ans.now else date, body);
        (a.(folders := a.folders[f := fo.(uidNext := uid + 1, msgs := fo.msgs[uid := stored])]),
         if ans.outcome.Acked? then Some(uid) else None)
  }

  /** Nothing is below the empty name: a leading delimiter opens no level. */
  predicate IsInferior(n: string, of: string, delim: char) { of != "" && of + [delim] <= n }

  /** The names above `name` in the hierarchy. */
  function Superiors(name: string, delim: char): set<string> {
    set i | 0 < i < |name| && name[i] == delim :: name[..i]
  }

  function NewFolder(ans: Answer, attributes: seq<string>): Folder {
    Folder(attributes, if ans.validity == 0 then 1 else ans.validity, 1 + ans.skip, map[])
  }

  /** CREATE also creates the missing superiors (section 6.3.3). */
  function Create(a: Account, name: string, ans: Answer): (Account, bool) {
    if ans.outcome.Refused? || name in a.folders then (a, false)
    else
      var above := map s | s in Superiors(name, a.delim) && s !in a.folders :: NewFolder(ans, ans.superiors);
      (a.(folders := a.folders + above + map[name := NewFolder(ans, [])]), ans.outcome.Acked?)
  }

  predicate HasInferiors(a: Account, name: string) {
    exists n :: n in a.folders && IsInferior(n, name, a.delim)
  }

  /** DELETE (section 6.3.4): not of INBOX; a folder with inferiors turns into a container. */
  function Delete(a: Account, name: string, ans: Answer): (Account, bool) {
    if ans.outcome.Refused? || name == INBOX || name !in a.folders then (a, false)
    else if !HasInferiors(a, name) then (a.(folders := a.folders - {name}), ans.outcome.Acked?)
    else if a.folders[name].IsNoSelect() then (a, false)
    else
      var husk := a.folders[name].(attributes := [NOSELECT], msgs := map[]);
      (a.(folders := a.folders[name := husk]), ans.outcome.Acked?)
  }

  /** UID STORE +FLAGS (\Deleted); a failing one may have reached some messages. */
  function MarkDeleted(a: Account, f: string, uids: seq<uint32>, ans: Answer): (Account, bool) {
    if ans.outcome.Refused? || !CanSelect(a, f) then (a, false)
    else
      var reached := if ans.outcome.Acked? then Elements(uids) else Elements(uids) * Elements(ans.uids);
      var fo := a.folders[f];
      var msgs := map u | u in fo.msgs ::
        if u in reached && !IsDeleted(fo.msgs[u].flags)
        then fo.msgs[u].(flags := fo.msgs[u].flags + [DELETED]) else fo.msgs[u];
      (a.(folders := a.folders[f := fo.(msgs := msgs)]), ans.outcome.Acked?)
  }

  /** Once it is acknowledged all named messages are flagged so, and have all their other flags. */
  lemma MarkedAreDeleted(a: Account, f: string, uids: seq<uint32>, ans: Answer)
    requires MarkDeleted(a, f, uids, ans).1
    ensures
      var a' := MarkDeleted(a, f, uids, ans).0;
      && CanSelect(a, f) && a'.folders.Keys == a.folders.Keys && a'.folders[f].msgs.Keys == a.folders[f].msgs.Keys
      && (forall u :: u in uids && u in a'.folders[f].msgs ==> "\\Deleted" in a'.folders[f].msgs[u].flags)
      && (forall u, g :: u in a'.folders[f].msgs && g != "\\Deleted" ==>
            (g in a'.folders[f].msgs[u].flags <==> g in a.folders[f].msgs[u].flags))
  {
  }

  /** EXPUNGE; a failing one may have removed some of the marked messages. */
  function Expunge(a: Account, f: string, ans: Answer): (Account, bool) {
    if ans.outcome.Refused? || !CanSelect(a, f) then (a, false)
    else
      var fo := a.folders[f];
      var msgs := map u | u in fo.msgs && !(IsDeleted(fo.msgs[u].flags) && (ans.outcome.Acked? || u in ans.uids)) ::
        fo.msgs[u];
      (a.(folders := a.folders[f := fo.(msgs := msgs)]), ans.outcome.Acked?)
  }

  // ---------------------------------------------------------------- sizes

  const TWO_TO_64: int := 0x1_0000_0000_0000_0000

  /** The sizes of the listed messages, added up. */
  function SizeOf(fo: Folder, uids: seq<uint32>): nat
    requires forall u :: u in uids ==> u in fo.msgs
  {
    if uids == [] then 0 else |fo.msgs[uids[0]].body| + SizeOf(fo, uids[1..])
  }

  /** The size of a whole folder. */
  function TotalSize(fo: Folder): nat { SizeOf(fo, Ascending(fo.msgs.Keys)) }

  lemma {:induction false} SizeOfParts(fo: Folder, a: seq<uint32>, b: seq<uint32>)
    requires forall u :: u in a + b ==> u in fo.msgs
    ensures (forall u :: u in a ==> u in fo.msgs) && (forall u :: u in b ==> u in fo.msgs)
    ensures SizeOf(fo, a + b) == SizeOf(fo, a) + SizeOf(fo, b)
  {
    assert forall u :: u in a ==> u in a + b;
    assert forall u :: u in b ==> u in a + b;
    if a == [] {
      assert a + b == b;
    } else {
      assert (a + b)[1..] == a[1..] + b;
      SizeOfParts(fo, a[1..], b);
    }
  }

  lemma MoveToFront(fo: Folder, s: seq<uint32>, i: nat)
    requires i < |s| && forall u :: u in s ==> u in fo.msgs
    ensures forall u :: u in s[..i] + s[i + 1..] ==> u in fo.msgs
    ensures SizeOf(fo, s) == |fo.msgs[s[i]].body| + SizeOf(fo, s[..i] + s[i + 1..])
  {
    assert s == s[..i] + ([s[i]] + s[i + 1..]);
    SizeOfParts(fo, s[..i], [s[i]] + s[i + 1..]);
    SizeOfParts(fo, s[..i], s[i + 1..]);
    assert ([s[i]] + s[i + 1..])[1..] == s[i + 1..];
  }

  /** The total does not depend on the order in which the sizes arrive. */
  lemma {:induction false} SizeIsOrderFree(fo: Folder, a: seq<uint32>, b: seq<uint32>)
    requires NoDup(a) && NoDup(b) && Elements(a) == Elements(b)
    requires forall u :: u in a ==> u in fo.msgs
    requires forall u :: u in b ==> u in fo.msgs
    ensures SizeOf(fo, a) == SizeOf(fo, b)
    decreases a
  {
    if a == [] {
      assert forall i :: 0 <= i < |b| ==> b[i] in Elements(b);
    } else {
      assert a[0] in Elements(b);
      var i :| 0 <= i < |b| && b[i] == a[0];
      var rest := b[..i] + b[i + 1..];
      MoveToFront(fo, b, i);
      assert Elements(a[1..]) == Elements(a) - {a[0]};
      assert Elements(rest) == Elements(b) - {a[0]};
      SizeIsOrderFree(fo, a[1..], rest);
    }
  }

  lemma SizeIsTotal(fo: Folder, order: seq<uint32>)
    requires NoDup(order) && Elements(order) == fo.msgs.Keys
    requires forall u :: u in order ==> u in fo.msgs
    ensures SizeOf(fo, order) == TotalSize(fo)
  {
    assert Elements(Ascending(fo.msgs.Keys)) == fo.msgs.Keys;
    SizeIsOrderFree(fo, order, Ascending(fo.msgs.Keys));
  }

  // ---------------------------------------------------------------- LIST patterns

  /** Whether a name matches a LIST pattern (section 6.3.8): `*` stands for any characters,
      `%` for any but the hierarchy delimiter, anything else for itself. */
  predicate Matches(pattern: string, name: string, delim: char)
    decreases |pattern| + |name|
  {
    if pattern == [] then name == []
    else if pattern[0] == '*' then
      Matches(pattern[1..], name, delim) || (name != [] && Matches(pattern, name[1..], delim))
    else if pattern[0] == '%' then
      Matches(pattern[1..], name, delim) || (name != [] && name[0] != delim && Matches(pattern, name[1..], delim))
    else name != [] && name[0] == pattern[0] && Matches(pattern[1..], name[1..], delim)
  }

  /** Every name is found by itself as a pattern, wildcards in it included, as long as the
      delimiter is not the wildcard `%`. */
  lemma {:induction false} NameMatchesItself(name: string, delim: char)
    requires delim != '%'
    ensures Matches(name, name, delim)
    decreases |name|
  {
    if name == [] {
    } else {
      NameMatchesItself(name[1..], delim);
      if name[0] == '*' || name[0] == '%' {
        assert Matches(name[1..], name[1..], delim);
        assert Matches(name, name[1..], delim);
      }
    }
  }

  /** LIST "" name: the names the pattern finds. */
  function Found(a: Account, pattern: string): set<string> {
    set n | n in a.folders && Matches(pattern, n, a.delim)
  }

  /** The existence test keeps only the exact name of all that the pattern finds. */
  function ExistsReply(a: Account, name: string, ans: Answer): Option<bool> {
    if !ans.outcome.Acked? then None else Some(name in Found(a, name))
  }

  lemma ExistenceTestIsExact(a: Account, name: string, ans: Answer)
    requires a.delim != '%'
    ensures ExistsReply(a, name, ans) == if ans.outcome.Acked? then Some(name in a.folders) else None
  {
    NameMatchesItself(name, a.delim);
  }
}
