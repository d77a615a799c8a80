/** Folder names and their hierarchy: the name sorts of `sort.Slice`, and why they visit
    children before parents or parents before children. */
module FolderTree {
  import opened Basics
  import opened Imap

  predicate Precedes(a: Entry, b: Entry, descending: bool) {
    if descending then Less(b.name, a.name) else Less(a.name, b.name)
  }

  function InsertByName(e: Entry, s: seq<Entry>, descending: bool): seq<Entry> {
    if s == [] || !Precedes(s[0], e, descending) then [e] + s
    else [s[0]] + InsertByName(e, s[1..], descending)
  }

  /** The effect of `sort.Slice` with the comparison of names. */
  function SortByName(s: seq<Entry>, descending: bool): seq<Entry> {
    if s == [] then [] else InsertByName(s[0], SortByName(s[1..], descending), descending)
  }

  /** No entry stands before one that has to precede it. */
  ghost predicate InOrder(s: seq<Entry>, descending: bool) {
    forall i, j :: 0 <= i < j < |s| ==> !Precedes(s[j], s[i], descending)
  }

  lemma PrecedesTransitive(a: Entry, b: Entry, c: Entry, descending: bool)
    requires !Precedes(b, a, descending) && !Precedes(c, b, descending)
    ensures !Precedes(c, a, descending)
  {
    LessTotal(a.name, b.name);
    LessTotal(b.name, c.name);
    LessTotal(a.name, c.name);
    LessIrreflexive(a.name);
    if a.name != b.name && b.name != c.name && Precedes(c, a, descending) {
      if descending {
        LessTransitive(a.name, c.name, b.name);
        LessTransitive(a.name, b.name, a.name);
      } else {
        LessTransitive(c.name, a.name, b.name);
        LessTransitive(c.name, b.name, c.name);
        LessIrreflexive(c.name);
      }
    }
  }

  lemma {:induction false} InsertKeepsEntries(e: Entry, s: seq<Entry>, descending: bool)
    ensures multiset(InsertByName(e, s, descending)) == multiset(s) + multiset{e}
    ensures forall x :: x in InsertByName(e, s, descending) <==> x == e || x in s
  {
    hide Precedes;
    var r := InsertByName(e, s, descending);
    if s == [] || !Precedes(s[0], e, descending) {
      assert r == [e] + s;
    } else {
      InsertKeepsEntries(e, s[1..], descending);
      assert s == [s[0]] + s[1..] && r == [s[0]] + InsertByName(e, s[1..], descending);
    }
    assert forall x :: x in r <==> x in multiset(r);
    assert forall x :: x in s <==> x in multiset(s);
  }

  lemma {:induction false} InsertKeepsOrder(e: Entry, s: seq<Entry>, descending: bool)
    requires InOrder(s, descending)
    ensures InOrder(InsertByName(e, s, descending), descending)
  {
    hide Precedes;
    if s == [] {
    } else if !Precedes(s[0], e, descending) {
      forall j | 0 <= j < |s| ensures !Precedes(s[j], e, descending) {
        if j > 0 { PrecedesTransitive(e, s[0], s[j], descending); }
      }
    } else {
      InsertKeepsOrder(e, s[1..], descending);
      InsertKeepsEntries(e, s[1..], descending);
      var tail := InsertByName(e, s[1..], descending);
      forall j | 0 <= j < |tail| ensures !Precedes(tail[j], s[0], descending) {
        assert tail[j] in tail;
        if tail[j] == e {
          NotBothWays(s[0], e, descending);
        } else {
          var k :| 0 <= k < |s[1..]| && s[1..][k] == tail[j];
          assert s[k + 1] == tail[j];
        }
      }
    }
  }

  lemma NotBothWays(a: Entry, b: Entry, descending: bool)
    requires Precedes(a, b, descending)
    ensures !Precedes(b, a, descending)
  {
    if Precedes(b, a, descending) {
      LessTransitive(a.name, b.name, a.name);
      LessIrreflexive(a.name);
      if descending { LessTransitive(b.name, a.name, b.name); LessIrreflexive(b.name); }
    }
  }

  /** The sort yields the same entries in order. */
  lemma {:induction false} SortIsSorted(s: seq<Entry>, descending: bool)
    ensures InOrder(SortByName(s, descending), descending)
    ensures multiset(SortByName(s, descending)) == multiset(s)
    ensures forall e :: e in SortByName(s, descending) <==> e in s
  {
    hide InOrder, InsertByName;
    if s == [] {
      NothingToSort(descending);
    } else {
      var rest := SortByName(s[1..], descending);
      SortIsSorted(s[1..], descending);
      InsertKeepsOrder(s[0], rest, descending);
      InsertKeepsEntries(s[0], rest, descending);
      assert s == [s[0]] + s[1..];
    }
  }

  lemma NothingToSort(descending: bool)
    ensures InOrder([], descending)
  {
  }

  ghost predicate DistinctNames(es: seq<Entry>) {
    forall i, j :: 0 <= i < j < |es| ==> es[i].name != es[j].name
  }

  lemma {:induction false} InsertKeepsDistinct(e: Entry, s: seq<Entry>, descending: bool)
    requires DistinctNames(s) && forall i :: 0 <= i < |s| ==> s[i].name != e.name
    ensures DistinctNames(InsertByName(e, s, descending))
    ensures forall x :: x in InsertByName(e, s, descending) <==> x == e || x in s
  {
    if s != [] && Precedes(s[0], e, descending) {
      InsertKeepsDistinct(e, s[1..], descending);
      var tail := InsertByName(e, s[1..], descending);
      assert forall x :: x in s <==> x == s[0] || x in s[1..];
      forall j | 0 <= j < |tail| ensures tail[j].name != s[0].name { assert tail[j] in tail; }
    }
  }

  lemma {:induction false} SortKeepsDistinct(s: seq<Entry>, descending: bool)
    requires DistinctNames(s)
    ensures DistinctNames(SortByName(s, descending))
  {
    if s == [] {
    } else {
      SortKeepsDistinct(s[1..], descending);
      SortIsSorted(s[1..], descending);
      var tail := SortByName(s[1..], descending);
      forall i | 0 <= i < |tail| ensures tail[i].name != s[0].name { assert tail[i] in s[1..]; }
      InsertKeepsDistinct(s[0], tail, descending);
    }
  }

  /** A listing names every folder of the account once. */
  lemma ListingNamesAll(a: Account, ans: Answer)
    requires ListReply(a, ans).Some?
    ensures DistinctNames(ListReply(a, ans).value)
    ensures forall f :: f in a.folders <==> exists e :: e in ListReply(a, ans).value && e.name == f
    ensures forall e :: e in ListReply(a, ans).value ==>
              e.name in a.folders && e.attributes == a.folders[e.name].attributes
  {
    var names, es := NameOrder(a.folders.Keys, ans.names), ListReply(a, ans).value;
    forall f | f in a.folders ensures exists e :: e in es && e.name == f {
      assert f in names;
      var i :| 0 <= i < |names| && names[i] == f;
      assert es[i] in es && es[i].name == f;
    }
    forall e | e in es ensures e.name in a.folders && e.attributes == a.folders[e.name].attributes {
      var i :| 0 <= i < |es| && es[i] == e;
      assert names[i] in names;
    }
  }

  /** In descending order inferiors come before their superiors, for any delimiter. */
  lemma ChildrenFirst(s: seq<Entry>, i: nat, j: nat, delim: char)
    requires InOrder(s, true) && i < j < |s|
    ensures !IsInferior(s[j].name, s[i].name, delim)
  {
    if IsInferior(s[j].name, s[i].name, delim) { PrefixLess(s[i].name, s[j].name); }
  }

  /** In ascending order superiors come before their inferiors, for any delimiter. */
  lemma ParentsFirst(s: seq<Entry>, i: nat, j: nat, delim: char)
    requires InOrder(s, false) && i < j < |s|
    ensures !IsInferior(s[i].name, s[j].name, delim)
  {
    if IsInferior(s[i].name, s[j].name, delim) { PrefixLess(s[j].name, s[i].name); }
  }

  // ---------------------------------------------------------------- creating the folders

  /** The loop of `copyFolders` over the sorted source listing: selectable folders that were not
      `present` on the target are created, failures passed over. Also counts the successes. */
  function CreateMissing(oracle: Oracle, r: Remote, present: set<string>, es: seq<Entry>): (Remote, nat)
    decreases es
  {
    if es == [] then (r, 0)
    else if es[0].IsNoSelect() || es[0].name in present then CreateMissing(oracle, r, present, es[1..])
    else
      var (account, ok) := Create(r.account, es[0].name, oracle(r.tick));
      var (r', n) := CreateMissing(oracle, Remote(account, r.tick + 1), present, es[1..]);
      (r', n + (if ok then 1 else 0))
  }

  function Missing(present: set<string>, es: seq<Entry>): nat {
    if es == [] then 0
    else (if es[0].IsNoSelect() || es[0].name in present then 0 else 1) + Missing(present, es[1..])
  }

  ghost predicate AlwaysAcks(oracle: Oracle) {
    forall k :: oracle(k).outcome.Acked?
  }

  ghost predicate AcksBetween(oracle: Oracle, from: nat, to: nat) {
    forall k :: from <= k < to ==> oracle(k).outcome.Acked?
  }

  /** A folder is one of the listed ones or above one of them. */
  ghost predicate Explained(f: string, done: seq<Entry>, delim: char) {
    exists e :: e in done && (f == e.name || IsInferior(e.name, f, delim))
  }

  /** The account holds the folders of `a0`, the folders created for `done`, and superiors of
      these; what is new is empty. */
  ghost predicate GrownBy(a: Account, a0: Account, done: seq<Entry>) {
    && a.delim == a0.delim
    && (forall f :: f in a0.folders ==> f in a.folders && a.folders[f] == a0.folders[f])
    && (forall f :: f in a.folders && f !in a0.folders ==>
          a.folders[f].msgs == map[] && a.folders[f].uidValidity != 0 && Explained(f, done, a0.delim))
    && (forall e :: e in done && !e.IsNoSelect() && e.name !in a0.folders ==> CanSelect(a, e.name))
  }

  lemma SuperiorIsAbove(s: string, name: string, delim: char)
    ensures s in Superiors(name, delim) <==> IsInferior(name, s, delim)
  {
    if s in Superiors(name, delim) {
      var i :| 0 < i < |name| && name[i] == delim && s == name[..i];
      assert s + [delim] == name[..i + 1];
    }
    if IsInferior(name, s, delim) {
      assert name[|s|] == (s + [delim])[|s|] == delim && s == name[..|s|];
    }
  }

  /** In ascending order the name whose turn it is was not created before, not even as the
      superior of another one. */
  lemma NameIsFree(a: Account, a0: Account, es: seq<Entry>, i: nat)
    requires InOrder(es, false) && DistinctNames(es) && i < |es|
    requires GrownBy(a, a0, es[..i]) && es[i].name !in a0.folders
    ensures es[i].name !in a.folders
  {
    var name := es[i].name;
    if name in a.folders {
      var e :| e in es[..i] && (name == e.name || IsInferior(e.name, name, a0.delim));
      var j :| 0 <= j < i && es[j] == e;
      ParentsFirst(es, j, i, a0.delim);
    }
  }

  lemma EffectOfCreate(a: Account, name: string, ans: Answer)
    requires name !in a.folders
    ensures
      var (a', ok) := Create(a, name, ans);
      && ok == ans.outcome.Acked? && a'.delim == a.delim && (ok ==> CanSelect(a', name))
      && (forall f :: f in a.folders ==> f in a'.folders && a'.folders[f] == a.folders[f])
      && (forall f :: f in a'.folders && f !in a.folders ==>
            && a'.folders[f].msgs == map[] && a'.folders[f].uidValidity != 0
            && ((f == name && CanSelect(a', f)) || IsInferior(name, f, a.delim)))
  {
    var a' := Create(a, name, ans).0;
    forall f | f in a'.folders && f !in a.folders && f != name ensures IsInferior(name, f, a.delim) {
      SuperiorIsAbove(f, name, a.delim);
    }
  }

  lemma ExplainedStays(done: seq<Entry>, e: Entry, delim: char)
    ensures forall f :: Explained(f, done, delim) ==> Explained(f, done + [e], delim)
    ensures forall f :: f == e.name || IsInferior(e.name, f, delim) ==> Explained(f, done + [e], delim)
    ensures forall x :: x in done + [e] <==> x in done || x == e
  {
    assert e in done + [e];
    forall f | Explained(f, done, delim) ensures Explained(f, done + [e], delim) {
      var x :| x in done && (f == x.name || IsInferior(x.name, f, delim));
      assert x in done + [e];
    }
  }

  /** The folders of `a'` beside those of `a` are explained by the new entry. */
  lemma NewAreExplained(a: Account, a0: Account, done: seq<Entry>, e: Entry, ans: Answer)
    requires GrownBy(a, a0, done) && e.name !in a.folders
    ensures
      var a' := Create(a, e.name, ans).0;
      forall f :: f in a'.folders && f !in a0.folders ==> Explained(f, done + [e], a0.delim)
  {
    EffectOfCreate(a, e.name, ans);
    ExplainedStays(done, e, a0.delim);
    hide Create, IsInferior, Explained, CanSelect;
  }

  lemma CreateGrows(a: Account, a0: Account, done: seq<Entry>, e: Entry, ans: Answer)
    requires GrownBy(a, a0, done) && e.name !in a.folders && ans.outcome.Acked?
    ensures Create(a, e.name, ans).1 && GrownBy(Create(a, e.name, ans).0, a0, done + [e])
  {
    hide Create, IsInferior, Explained;
    EffectOfCreate(a, e.name, ans);
    NewAreExplained(a, a0, done, e, ans);
    var a' := Create(a, e.name, ans).0;
    forall x | x in done + [e] && !x.IsNoSelect() && x.name !in a0.folders ensures CanSelect(a', x.name) {
      assert x in done || x == e;
      if x in done { assert CanSelect(a, x.name); }
    }
  }

  lemma SkippingGrows(a: Account, a0: Account, done: seq<Entry>, e: Entry)
    requires GrownBy(a, a0, done) && (e.IsNoSelect() || e.name in a0.folders)
    ensures GrownBy(a, a0, done + [e])
  {
    ExplainedStays(done, e, a0.delim);
    hide IsInferior, Explained;
  }

  /** In ascending order every CREATE meets a free name whose selectable superiors of the source
      exist already; so if the commands are acknowledged all missing folders appear, empty, and all
      are counted. */
  lemma {:induction false} AllMissingAreCreated(oracle: Oracle, r: Remote, a0: Account, es: seq<Entry>, i: nat)
    requires InOrder(es, false) && DistinctNames(es) && i <= |es|
    requires AcksBetween(oracle, r.tick, r.tick + Missing(a0.folders.Keys, es[i..]))
    requires GrownBy(r.account, a0, es[..i])
    ensures
      var (r', n) := CreateMissing(oracle, r, a0.folders.Keys, es[i..]);
      GrownBy(r'.account, a0, es) && n == Missing(a0.folders.Keys, es[i..]) && r'.tick == r.tick + n
    decreases |es| - i
  {
    hide GrownBy, InOrder, DistinctNames, Create;
    if i == |es| {
      assert es[..i] == es && es[i..] == [];
    } else {
      assert es[i..][0] == es[i] && es[i..][1..] == es[i + 1..];
      assert es[..i] + [es[i]] == es[..i + 1];
      if es[i].IsNoSelect() || es[i].name in a0.folders {
        SkippingGrows(r.account, a0, es[..i], es[i]);
        AllMissingAreCreated(oracle, r, a0, es, i + 1);
      } else {
        var ans := oracle(r.tick);
        NameIsFree(r.account, a0, es, i);
        CreateGrows(r.account, a0, es[..i], es[i], ans);
        AllMissingAreCreated(oracle, Remote(Create(r.account, es[i].name, ans).0, r.tick + 1), a0, es, i + 1);
      }
    }
  }

  /** When a folder's turn comes, its selectable superiors have had theirs: each of them exists. */
  lemma SuperiorsExistBefore(a: Account, a0: Account, es: seq<Entry>, i: nat, j: nat)
    requires InOrder(es, false) && i < |es| && j < |es| && GrownBy(a, a0, es[..i])
    requires IsInferior(es[i].name, es[j].name, a0.delim) && !es[j].IsNoSelect()
    ensures es[j].name in a.folders
  {
    if i < j {
      ParentsFirst(es, i, j, a0.delim);
    } else {
      assert es[j] != es[i] by { assert |es[j].name| < |es[i].name|; }
      assert es[j] == es[..i][j];
    }
  }
}
