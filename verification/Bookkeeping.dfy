/** Records of what the copy of a mailbox has tried, and the names it has to go through: the
    numbers in its errors and counters are counted in them. */
module Bookkeeping {
  import opened Basics
  import opened Imap
  import opened ImapClient
  import opened FolderTree

  /** One folder copy: whether both servers were connected when it was begun, and whether it returned nil. */
  datatype Attempt = Attempt(name: string, connected: bool, ok: bool)

  function NamesTried(attempts: seq<Attempt>): (names: seq<string>)
    ensures |names| == |attempts| && forall i :: 0 <= i < |names| ==> names[i] == attempts[i].name
  {
    seq(|attempts|, i requires 0 <= i < |attempts| => attempts[i].name)
  }

  /** How many of the folder copies returned an error. */
  function FailuresIn(attempts: seq<Attempt>): (n: nat)
    ensures n == 0 <==> forall i :: 0 <= i < |attempts| ==> attempts[i].ok
    decreases |attempts|
  {
    if attempts == [] then 0
    else
      var last := |attempts| - 1;
      FailuresIn(attempts[..last]) + (if attempts[last].ok then 0 else 1)
  }

  function NamesCreated(creations: seq<Creation>): (names: seq<string>)
    ensures |names| == |creations| && forall i :: 0 <= i < |names| ==> names[i] == creations[i].name
  {
    seq(|creations|, i requires 0 <= i < |creations| => creations[i].name)
  }

  /** How many of the CREATEs were acknowledged. */
  function AckedIn(creations: seq<Creation>): (n: nat)
    decreases |creations|
  {
    if creations == [] then 0
    else
      var last := |creations| - 1;
      AckedIn(creations[..last]) + (if creations[last].acked then 1 else 0)
  }

  /** The names of the selectable entries that are not `present`, in order. */
  function NamesOutside(present: set<string>, es: seq<Entry>): seq<string>
    decreases |es|
  {
    if es == [] then []
    else
      var last := es[|es| - 1];
      NamesOutside(present, es[..|es| - 1]) + (if last.IsNoSelect() || last.name in present then [] else [last.name])
  }

  lemma OneMoreAttempt(attempts: seq<Attempt>, a: Attempt)
    ensures FailuresIn(attempts + [a]) == FailuresIn(attempts) + (if a.ok then 0 else 1)
    ensures NamesTried(attempts + [a]) == NamesTried(attempts) + [a.name]
  {
    assert (attempts + [a])[..|attempts|] == attempts;
  }

  lemma OneMoreCreation(creations: seq<Creation>, c: Creation)
    ensures AckedIn(creations + [c]) == AckedIn(creations) + (if c.acked then 1 else 0)
    ensures NamesCreated(creations + [c]) == NamesCreated(creations) + [c.name]
  {
    assert (creations + [c])[..|creations|] == creations;
  }

  lemma OneMoreName(present: set<string>, es: seq<Entry>, i: nat)
    requires i < |es|
    ensures NamesOutside(present, es[..i + 1]) ==
      NamesOutside(present, es[..i]) + (if es[i].IsNoSelect() || es[i].name in present then [] else [es[i].name])
  {
    assert es[..i + 1][..i] == es[..i];
  }

  lemma {:induction false} OutsideIsPrefix(present: set<string>, es: seq<Entry>, i: nat)
    requires i <= |es|
    ensures NamesOutside(present, es[..i]) <= NamesOutside(present, es)
    decreases |es| - i
  {
    if i == |es| {
      assert es[..i] == es;
    } else {
      OneMoreName(present, es, i);
      OutsideIsPrefix(present, es, i + 1);
    }
  }

  lemma {:induction false} MembersOutside(present: set<string>, es: seq<Entry>, n: string)
    ensures n in NamesOutside(present, es) <==>
      n !in present && exists i :: 0 <= i < |es| && es[i].name == n && !es[i].IsNoSelect()
    decreases |es|
  {
    if es == [] {
    } else {
      MembersOutside(present, es[..|es| - 1], n);
    }
  }

  lemma {:induction false} OutsideAscends(present: set<string>, es: seq<Entry>)
    requires InOrder(es, false) && DistinctNames(es)
    ensures SortedNames(NamesOutside(present, es))
    decreases |es|
  {
    if es == [] {
    } else {
      var before, last := es[..|es| - 1], es[|es| - 1];
      OutsideAscends(present, before);
      var names := NamesOutside(present, before);
      forall i | 0 <= i < |names| ensures Less(names[i], last.name) {
        MembersOutside(present, before, names[i]);
        var j :| 0 <= j < |before| && before[j].name == names[i];
        assert es[j] == before[j];
        LessTotal(names[i], last.name);
      }
    }
  }

  lemma {:induction false} OutsideIsNoDup(present: set<string>, es: seq<Entry>)
    requires DistinctNames(es)
    ensures NoDup(NamesOutside(present, es))
    decreases |es|
  {
    if es == [] {
    } else {
      var before, last := es[..|es| - 1], es[|es| - 1];
      OutsideIsNoDup(present, before);
      MembersOutside(present, before, last.name);
      var names := NamesOutside(present, before);
      assert forall i :: 0 <= i < |names| ==> names[i] in names;
    }
  }

  lemma EntryNames(a: Account, ans: Answer, n: string)
    requires ListReply(a, ans).Some?
    ensures var es := ListReply(a, ans).value;
            (exists i :: 0 <= i < |es| && es[i].name == n && !es[i].IsNoSelect()) <==> CanSelect(a, n)
  {
    ListingNamesAll(a, ans);
    var es := ListReply(a, ans).value;
    hide ListReply;
    if CanSelect(a, n) {
      var e :| e in es && e.name == n;
      var i :| 0 <= i < |es| && es[i] == e;
    }
    if i :| 0 <= i < |es| && es[i].name == n && !es[i].IsNoSelect() { assert es[i] in es; }
  }

  /** Going through a listing in its own order, each selectable folder is met once. */
  lemma ListedSelectable(a: Account, ans: Answer)
    requires ListReply(a, ans).Some?
    ensures
      var names := NamesOutside({}, ListReply(a, ans).value);
      NoDup(names) && forall n :: n in names <==> CanSelect(a, n)
  {
    var es := ListReply(a, ans).value;
    ListingNamesAll(a, ans);
    OutsideIsNoDup({}, es);
    hide ListReply, NamesOutside;
    forall n ensures n in NamesOutside({}, es) <==> CanSelect(a, n) {
      MembersOutside({}, es, n);
      EntryNames(a, ans, n);
    }
  }

  /** Going through the sorted listing, each selectable folder outside `present` is met once, in
      ascending order. */
  lemma SortedOutside(a: Account, ans: Answer, present: set<string>)
    requires ListReply(a, ans).Some?
    ensures
      var names := NamesOutside(present, SortByName(ListReply(a, ans).value, false));
      SortedNames(names) && forall n :: n in names <==> CanSelect(a, n) && n !in present
  {
    var es := ListReply(a, ans).value;
    var sorted := SortByName(es, false);
    ListingNamesAll(a, ans);
    SortIsSorted(es, false);
    SortKeepsDistinct(es, false);
    OutsideAscends(present, sorted);
    hide ListReply, NamesOutside, SortByName, InOrder, DistinctNames;
    forall n ensures n in NamesOutside(present, sorted) <==> CanSelect(a, n) && n !in present {
      MembersOutside(present, sorted, n);
      EntryNames(a, ans, n);
      SameEntries(es, sorted, n);
    }
  }

  /** The names are those of the selectable source folders that the target lacks, in ascending order. */
  ghost predicate AreMissing(names: seq<string>, src: Account, tgt: Account) {
    SortedNames(names) && forall f :: f in names <==> CanSelect(src, f) && f !in tgt.folders
  }

  lemma SortedAreMissing(src: Account, sa: Answer, tgt: Account, present: set<string>)
    requires ListReply(src, sa).Some? && present == tgt.folders.Keys
    ensures AreMissing(NamesOutside(present, SortByName(ListReply(src, sa).value, false)), src, tgt)
  {
    hide ListReply, NamesOutside, SortByName, SortedNames, CanSelect;
    SortedOutside(src, sa, present);
  }

  lemma SameEntries(es: seq<Entry>, sorted: seq<Entry>, n: string)
    requires forall e :: e in sorted <==> e in es
    ensures (exists i :: 0 <= i < |es| && es[i].name == n && !es[i].IsNoSelect()) <==>
            (exists i :: 0 <= i < |sorted| && sorted[i].name == n && !sorted[i].IsNoSelect())
  {
    if i :| 0 <= i < |es| && es[i].name == n && !es[i].IsNoSelect() {
      assert es[i] in sorted;
      var j :| 0 <= j < |sorted| && sorted[j] == es[i];
    }
    if i :| 0 <= i < |sorted| && sorted[i].name == n && !sorted[i].IsNoSelect() {
      assert sorted[i] in es;
      var j :| 0 <= j < |es| && es[j] == sorted[i];
    }
  }
}
