/** Which folders a copy leaves on a cleaned target beside the copied ones, and whether all of the
    copied ones can be selected there. CREATE makes missing superiors as the server likes
    (section 6.3.3 of RFC 3501), and a failing CREATE is passed over (internal/mailbox/copy.go:51-66);
    here is exactly when that shows in the result. */
module Hierarchy {
  import opened Basics
  import opened Imap
  import opened SyncState
  import opened MessageCopy
  import opened FolderTree
  import opened FolderCopy
  import opened MailboxRun
  import opened Faultless

  /** Beside INBOX only selectable source folders are selectable. */
  ghost predicate OnlySourceFolders(src: Account, tgt: Account) {
    forall g :: CanSelect(tgt, g) ==> g == INBOX || CanSelect(src, g)
  }

  /** All selectable source folders are selectable. */
  ghost predicate AllSourceFolders(src: Account, tgt: Account) {
    forall f :: CanSelect(src, f) ==> CanSelect(tgt, f)
  }

  /** A copy of the source from a fresh start on a target with this delimiter. */
  ghost predicate FreshCopy(p: Plan, r: Run, src: Account, delim: char) {
    FreshStart(p, r) && r.sides.source.account == src && r.sides.world.target.account.delim == delim
  }

  function TargetAfter(p: Plan, r: Run): Account { CopyMailbox(p, r).0.sides.world.target.account }

  // ---------------------------------------------------------------- when all is well

  /** Every name above a selectable source folder is INBOX or can be selected itself. */
  ghost predicate IsClosed(src: Account, delim: char) {
    forall s :: IsAbove(src, s, delim) ==> s == INBOX || CanSelect(src, s)
  }

  /** An empty selectable source folder above another selectable one. */
  ghost predicate IsEmptyAbove(src: Account, f: string, g: string, delim: char) {
    && f != INBOX && CanSelect(src, f) && src.folders[f].msgs == map[]
    && g != INBOX && CanSelect(src, g) && IsInferior(g, f, delim)
  }

  ghost predicate HasEmptyAbove(src: Account, delim: char) { exists f, g :: IsEmptyAbove(src, f, g, delim) }

  /** With a closed source nothing else is ever left, whatever fails or is cancelled. */
  lemma ClosedLeavesNothingElse(p: Plan, r: Run)
    requires FreshStart(p, r) && IsClosed(r.sides.source.account, r.sides.world.target.account.delim)
    ensures OnlySourceFolders(r.sides.source.account, TargetAfter(p, r))
  {
    NothingForeignAfterwards(p, r);
    hide CopyMailbox, IsAbove;
    var src, tgt := r.sides.source.account, TargetAfter(p, r);
    forall g | CanSelect(tgt, g) ensures g == INBOX || CanSelect(src, g) { assert Wanted(src, tgt, g); }
  }

  lemma InboxStays(p: Plan, r: Run)
    requires FreshStart(p, r)
    ensures CanSelect(TargetAfter(p, r), INBOX)
  {
    var r1 := Connect(p, r).0;
    assert FreshStart(p, r1);
    CopyFoldersFromScratch(p, r1);
    LastStepOfCopy(p, r);
    hide CopyMailbox, CopyFolders, CopyEach, ListReply, Pending, NothingForeign;
    var r2 := CopyFolders(p, r1).0;
    var listed := ListReply(r2.sides.source.account, p.source(r2.sides.source.tick));
    if listed.Some? { CopyEachKeepsAttributes(p, SourceTick(r2), listed.value, INBOX); }
  }

  /** Without an empty folder above another, success makes all source folders selectable. */
  lemma NoEmptyAboveMeansSelectable(p: Plan, r: Run)
    requires ValidAccount(r.sides.source.account) && FreshStart(p, r)
    requires Uncancelled(p) && CopyMailbox(p, r).1 == None
    requires !HasEmptyAbove(r.sides.source.account, r.sides.world.target.account.delim)
    ensures AllSourceFolders(r.sides.source.account, TargetAfter(p, r))
  {
    SuccessMeansHome(p, r);
    NothingForeignAfterwards(p, r);
    InboxStays(p, r);
    hide CopyMailbox, FreshStart, ValidAccount, Complete, HasEmptyAbove, Wanted;
    var src, tgt := r.sides.source.account, TargetAfter(p, r);
    forall f | CanSelect(src, f) ensures CanSelect(tgt, f) {
      assert Home(p, src, f, CopyMailbox(p, r).0.sides.world);
      if !CanSelect(tgt, f) { ContainerIsAbove(src, tgt, f); }
    }
  }

  /** A container that was to be a folder is an empty folder above another one. */
  lemma ContainerIsAbove(src: Account, tgt: Account, f: string)
    requires CanSelect(src, f) && src.folders[f].msgs == map[] && !CanSelect(tgt, f)
    requires Wanted(src, tgt, f) && CanSelect(tgt, INBOX)
    ensures HasEmptyAbove(src, tgt.delim)
  {
    hide IsInferior;
    assert IsAbove(src, f, tgt.delim);
    var g :| g != INBOX && CanSelect(src, g) && IsInferior(g, f, tgt.delim);
    assert IsEmptyAbove(src, f, g, tgt.delim);
  }

  // ---------------------------------------------------------------- runs that show the rest

  /** A server that does all it is asked to, and makes superiors with the given attributes. */
  function Acking(superiors: seq<string>): Answer { Answer(Acked, 0, 0, 1, superiors, [], [], true) }

  function PlanWith(target: Oracle): Plan {
    Plan("", (_: nat) => Acking([]), target, None, (_: nat) => true, 0, 0, map[])
  }

  /** Nothing copied yet, and a target with a new INBOX only. */
  function StartOf(src: Account, delim: char): Run {
    var tgt := Account(delim, map[INBOX := Folder([], 1, 1, map[])]);
    Run(Sides(World(map[], Remote(tgt, 0), Stats(0, 0, 0, 0), 0), Remote(src, 0)), 0)
  }

  lemma StartIsFresh(src: Account, delim: char, target: Oracle)
    requires delim != '%'
    ensures FreshCopy(PlanWith(target), StartOf(src, delim), src, delim)
  {
  }

  /** UIDs are positive 32-bit numbers, so a folder has at most 2^32 - 1 messages. */
  lemma FewMessages(fo: Folder)
    requires ValidFolder(fo)
    ensures Fits(|fo.msgs|, 1, 0)
  {
    var uids: set<int> := set u | u in fo.msgs.Keys :: u;
    assert uids == fo.msgs.Keys;
    assert 0 !in uids && |uids + {0}| == |uids| + 1;
    CardinalityBound(uids + {0}, TWO_TO_32);
  }

  lemma EverythingFits(src: Account, tgt: Account)
    requires ValidAccount(src) && forall f :: f in tgt.folders ==> tgt.folders[f].uidNext == 1
    ensures HasRoom(src, tgt, 0)
  {
    hide Fits;
    forall f | CanSelect(src, f) ensures Fits(|src.folders[f].msgs|, 1, 0) {
      assert ValidFolder(src.folders[f]);
      FewMessages(src.folders[f]);
    }
  }

  // ---------------------------------------------------------------- the shape of what is created

  /** From `a0` to `a` folders of these names and their superiors were created, the latter with the
      attributes `marks`; no superior is missing. */
  ghost predicate Shaped(a: Account, a0: Account, names: set<string>, marks: seq<string>) {
    && a.delim == a0.delim && INBOX in a.folders
    && (forall g, s :: g in a.folders && g != INBOX && IsInferior(g, s, a.delim) ==> s in a.folders)
    && (forall g :: g in a.folders && g !in a0.folders && g !in names ==> a.folders[g].attributes == marks)
  }

  lemma SuperiorOfSuperior(n: string, s: string, t: string, delim: char)
    requires IsInferior(n, s, delim) && IsInferior(s, t, delim)
    ensures IsInferior(n, t, delim)
  {
    assert t + [delim] <= s <= n;
  }

  lemma CreateKeepsShape(a: Account, a0: Account, names: set<string>, marks: seq<string>, name: string, ans: Answer)
    requires Shaped(a, a0, names, marks) && name in names && ans.superiors == marks
    ensures Shaped(Create(a, name, ans).0, a0, names, marks)
  {
    var a' := Create(a, name, ans).0;
    if a' != a {
      forall s ensures s in Superiors(name, a.delim) <==> IsInferior(name, s, a.delim) {
        SuperiorIsAbove(s, name, a.delim);
      }
      hide Superiors, IsInferior;
      forall g, s | g in a'.folders && g != INBOX && IsInferior(g, s, a.delim) ensures s in a'.folders {
        if g !in a.folders && g != name { SuperiorOfSuperior(name, g, s, a.delim); }
      }
    }
  }

  lemma {:induction false} CreatingKeepsShape(oracle: Oracle, r: Remote, present: set<string>, es: seq<Entry>,
                                              a0: Account, names: set<string>, marks: seq<string>)
    requires Shaped(r.account, a0, names, marks) && forall k :: oracle(k).superiors == marks
    requires forall e :: e in es && !e.IsNoSelect() ==> e.name in names
    ensures Shaped(CreateMissing(oracle, r, present, es).0.account, a0, names, marks)
    decreases es
  {
    hide Shaped, Create;
    if es == [] {
    } else {
      assert es[0] in es && forall e :: e in es[1..] ==> e in es;
      if es[0].IsNoSelect() || es[0].name in present {
        CreatingKeepsShape(oracle, r, present, es[1..], a0, names, marks);
      } else {
        CreateKeepsShape(r.account, a0, names, marks, es[0].name, oracle(r.tick));
        var r1 := Remote(Create(r.account, es[0].name, oracle(r.tick)).0, r.tick + 1);
        CreatingKeepsShape(oracle, r1, present, es[1..], a0, names, marks);
      }
    }
  }

  /** What is there after `copyFolders` is there at the end, with the same attributes. */
  lemma AttributesStay(p: Plan, r: Run, g: string)
    requires FreshStart(p, r) && Connect(p, r).1 && CopyFolders(p, Connect(p, r).0).1
    requires g in CopyFolders(p, Connect(p, r).0).0.sides.world.target.account.folders
    ensures
      var a, a' := CopyFolders(p, Connect(p, r).0).0.sides.world.target.account, TargetAfter(p, r);
      g in a'.folders && a'.folders[g].attributes == a.folders[g].attributes
  {
    var r1 := Connect(p, r).0;
    assert FreshStart(p, r1);
    CopyFoldersFromScratch(p, r1);
    LastStepOfCopy(p, r);
    hide CopyMailbox, CopyFolders, CopyEach, ListReply, Pending, NothingForeign;
    var r2 := CopyFolders(p, r1).0;
    var listed := ListReply(r2.sides.source.account, p.source(r2.sides.source.tick));
    if listed.Some? { CopyEachKeepsAttributes(p, SourceTick(r2), listed.value, g); }
  }

  // ---------------------------------------------------------------- superiors that stay

  /** A source with `s` above the selectable `f`, `s` itself not selectable: on a server that makes
      superiors selectable the copy succeeds without any fault, and `s` is left as a folder. */
  lemma SuperiorRemains(src: Account, f: string, s: string, delim: char) returns (p: Plan, r: Run)
    requires ValidAccount(src) && delim != '%'
    requires f != INBOX && CanSelect(src, f) && IsInferior(f, s, delim) && s != INBOX && !CanSelect(src, s)
    ensures FreshCopy(p, r, src, delim) && FaultFree(p, 0) && CopyMailbox(p, r).1 == None
    ensures CanSelect(TargetAfter(p, r), s)
  {
    p, r := PlanWith((_: nat) => Acking([])), StartOf(src, delim);
    StartIsFresh(src, delim, p.target);
    assert AlwaysAcks(p.source) && AlwaysAcks(p.target) && FaultFree(p, 0);
    EverythingFits(src, r.sides.world.target.account);
    var r1 := Connect(p, r).0;
    assert Connect(p, r).1 && r1.sides == r.sides && FreshStart(p, r1);
    hide Fits, HasRoom, ValidAccount, CopyMailbox, CopyFolders, FaultFree, Shaped, RecOf, IsInferior;
    MailboxSucceeds(p, r, 0);
    SuperiorAppears(p, r1, f, s);
    AttributesStay(p, r, s);
  }

  lemma SuperiorAppears(p: Plan, r: Run, f: string, s: string)
    requires FreshStart(p, r) && AlwaysAcks(p.source) && AlwaysAcks(p.target) && forall k :: p.target(k).superiors == []
    requires f != INBOX && CanSelect(r.sides.source.account, f)
    requires IsInferior(f, s, r.sides.world.target.account.delim) && s != INBOX && !CanSelect(r.sides.source.account, s)
    ensures CopyFolders(p, r).1 && CanSelect(CopyFolders(p, r).0.sides.world.target.account, s)
  {
    hide CopyFolders, ListReply, SortByName, InOrder, DistinctNames, CreateMissing, RecOf, IsInferior;
    var src, target := r.sides.source.account, r.sides.world.target;
    var a0, a' := target.account, CopyFolders(p, r).0.sides.world.target.account;
    var es := SourceEntries(p, r);
    var wanted := set e | e in es && !e.IsNoSelect() :: e.name;
    assert p.source(r.sides.source.tick).outcome.Acked? && p.target(target.tick).outcome.Acked?;
    CopyFoldersInSteps(p, r);
    CopyFoldersMakesSelectable(p, r);
    hide FreshStart, AlwaysAcks;
    ListingsArrived(p, r);
    ListedAreSelectable(src, p.source(r.sides.source.tick));
    assert s !in wanted;
    InboxAloneIsShaped(a0, wanted);
    CreatingKeepsShape(p.target, Answered(target), a0.folders.Keys, SortByName(es, false), a0, wanted, []);
    assert Shaped(a', a0, wanted, []);
    hide CanSelect;
    MarkedSuperior(a', a0, wanted, f, s);
  }

  /** A superior that was not asked for has the attributes the server gives superiors. */
  lemma MarkedSuperior(a: Account, a0: Account, names: set<string>, f: string, s: string)
    requires Shaped(a, a0, names, []) && CanSelect(a, f) && f != INBOX && IsInferior(f, s, a0.delim)
    requires s !in names && s !in a0.folders
    ensures CanSelect(a, s)
  {
    hide IsInferior;
  }

  lemma InboxAloneIsShaped(a: Account, names: set<string>)
    requires a.folders.Keys == {INBOX}
    ensures Shaped(a, a, names, [])
  {
  }

  // ---------------------------------------------------------------- folders that end as containers

  lemma {:induction false} CreateMissingInParts(oracle: Oracle, r: Remote, present: set<string>, a: seq<Entry>,
                                                b: seq<Entry>)
    ensures
      var (r1, n1) := CreateMissing(oracle, r, present, a);
      var (r2, n2) := CreateMissing(oracle, r1, present, b);
      CreateMissing(oracle, r, present, a + b) == (r2, n1 + n2)
    decreases a
  {
    hide Create;
    if a == [] {
      assert a + b == b;
    } else {
      assert (a + b)[0] == a[0] && (a + b)[1..] == a[1..] + b;
      if a[0].IsNoSelect() || a[0].name in present {
        CreateMissingInParts(oracle, r, present, a[1..], b);
      } else {
        var (account, ok) := Create(r.account, a[0].name, oracle(r.tick));
        CreateMissingInParts(oracle, Remote(account, r.tick + 1), present, a[1..], b);
      }
    }
  }

  /** Where entry number `k` of a list without its `i`-th stands in the whole one. */
  function Origin(i: nat, k: nat): nat { if k < i then k else k + 1 }

  lemma EntriesLeft(es: seq<Entry>, i: nat)
    requires i < |es|
    ensures var rest := es[..i] + es[i + 1..];
            && |rest| == |es| - 1 && (forall k :: 0 <= k < |rest| ==> rest[k] == es[Origin(i, k)])
            && rest[..i] == es[..i] && rest[i..] == es[i + 1..]
    ensures es == es[..i] + ([es[i]] + es[i + 1..])
  {
  }

  lemma OrderLeft(es: seq<Entry>, i: nat)
    requires InOrder(es, false) && DistinctNames(es) && i < |es|
    ensures InOrder(es[..i] + es[i + 1..], false) && DistinctNames(es[..i] + es[i + 1..])
    ensures InOrder(es[..i], false) && DistinctNames(es[..i])
  {
    hide Precedes;
    EntriesLeft(es, i);
  }

  lemma MembersLeft(es: seq<Entry>, i: nat)
    requires DistinctNames(es) && i < |es|
    ensures forall e :: e in es[..i] + es[i + 1..] <==> e in es && e.name != es[i].name
  {
    EntriesLeft(es, i);
    var rest := es[..i] + es[i + 1..];
    forall e | e in es && e.name != es[i].name ensures e in rest {
      var j :| 0 <= j < |es| && es[j] == e;
      assert e == rest[if j < i then j else j - 1];
    }
    forall e | e in rest ensures e in es && e.name != es[i].name {
      var k :| 0 <= k < |rest| && rest[k] == e;
      assert e == es[Origin(i, k)] && Origin(i, k) != i;
    }
  }

  /** The server refuses command number `refused`, does all others, and makes superiors mere containers. */
  function RefusingOnce(refused: nat): Oracle {
    (k: nat) => Acking([NOSELECT]).(outcome := if k == refused then Refused else Acked)
  }

  lemma RefusesOneOnly(refused: nat, from: nat, to: nat)
    requires to <= refused || refused < from
    ensures AcksBetween(RefusingOnce(refused), from, to)
  {
  }

  lemma RefusedCreate(oracle: Oracle, r: Remote, present: set<string>, e: Entry, refused: nat)
    requires oracle == RefusingOnce(refused) && r.tick == refused && !e.IsNoSelect() && e.name !in present
    ensures CreateMissing(oracle, r, present, [e]).0 == Remote(r.account, refused + 1)
  {
    assert [e][1..] == [];
  }

  /** The loop up to the refused CREATE. */
  lemma UpToRefused(r: Remote, first: seq<Entry>, refused: nat)
    requires InOrder(first, false) && DistinctNames(first)
    requires refused == r.tick + Missing(r.account.folders.Keys, first)
    ensures var r1 := CreateMissing(RefusingOnce(refused), r, r.account.folders.Keys, first).0;
            GrownBy(r1.account, r.account, first) && r1.tick == refused
  {
    hide InOrder, DistinctNames, GrownBy, Create, CreateMissing, Missing, RefusingOnce, AcksBetween;
    GrownByNothing(r.account, first);
    RefusesOneOnly(refused, r.tick, refused);
    AllMissingAreCreated(RefusingOnce(refused), r, r.account, first, 0);
  }

  /** The loop after it. */
  lemma AfterRefused(a: Account, a0: Account, first: seq<Entry>, last: seq<Entry>, refused: nat)
    requires InOrder(first + last, false) && DistinctNames(first + last) && GrownBy(a, a0, first)
    ensures var r2 := CreateMissing(RefusingOnce(refused), Remote(a, refused + 1), a0.folders.Keys, last).0;
            GrownBy(r2.account, a0, first + last) && refused < r2.tick
  {
    hide InOrder, DistinctNames, GrownBy, Create, CreateMissing, Missing, RefusingOnce, AcksBetween;
    var rest, i := first + last, |first|;
    assert rest[..i] == first && rest[i..] == last;
    RefusesOneOnly(refused, refused + 1, refused + 1 + Missing(a0.folders.Keys, last));
    AllMissingAreCreated(RefusingOnce(refused), Remote(a, refused + 1), a0, rest, i);
  }

  /** The creation loop when the CREATE for entry `i` is refused: all others appear. */
  lemma RefusedIsPassedOver(r: Remote, es: seq<Entry>, i: nat, refused: nat)
    requires InOrder(es, false) && DistinctNames(es) && i < |es|
    requires !es[i].IsNoSelect() && es[i].name !in r.account.folders
    requires refused == r.tick + Missing(r.account.folders.Keys, es[..i])
    ensures
      var oracle, present, rest := RefusingOnce(refused), r.account.folders.Keys, es[..i] + es[i + 1..];
      var r1 := CreateMissing(oracle, r, present, es[..i]).0;
      var r' := CreateMissing(oracle, r, present, es).0;
      && r' == CreateMissing(oracle, Remote(r1.account, refused + 1), present, es[i + 1..]).0
      && GrownBy(r'.account, r.account, rest) && refused < r'.tick
  {
    hide InOrder, DistinctNames, GrownBy, Create, CreateMissing, Missing, RefusingOnce;
    var oracle, present, first, last := RefusingOnce(refused), r.account.folders.Keys, es[..i], es[i + 1..];
    EntriesLeft(es, i);
    OrderLeft(es, i);
    UpToRefused(r, first, refused);
    var r1 := CreateMissing(oracle, r, present, first).0;
    RefusedCreate(oracle, r1, present, es[i], refused);
    AfterRefused(r1.account, r.account, first, last, refused);
    CreateMissingInParts(oracle, r, present, first, [es[i]] + last);
    CreateMissingInParts(oracle, r1, present, [es[i]], last);
  }

  /** The accounts after that loop: the refused folder is there, as a container, if one of the others
      is below it. */
  lemma RefusedIsContainer(r: Remote, es: seq<Entry>, i: nat, j: nat, refused: nat)
    requires InOrder(es, false) && DistinctNames(es) && i < |es| && j < |es| && r.account.folders.Keys == {INBOX}
    requires !es[i].IsNoSelect() && es[i].name != INBOX && !es[j].IsNoSelect() && es[j].name != INBOX
    requires IsInferior(es[j].name, es[i].name, r.account.delim)
    requires refused == r.tick + Missing(r.account.folders.Keys, es[..i])
    ensures
      var a := CreateMissing(RefusingOnce(refused), r, r.account.folders.Keys, es).0.account;
      es[i].name in a.folders && !CanSelect(a, es[i].name)
  {
    var oracle, present, first, last := RefusingOnce(refused), r.account.folders.Keys, es[..i], es[i + 1..];
    var names := set e | e in es && !e.IsNoSelect() && e.name != es[i].name :: e.name;
    RefusedIsPassedOver(r, es, i, refused);
    MembersLeft(es, i);
    assert Shaped(r.account, r.account, names, [NOSELECT]);
    hide InOrder, DistinctNames, Create, CreateMissing, Missing, IsInferior;
    assert forall e :: e in first ==> e in first + last;
    assert forall e :: e in last ==> e in first + last;
    CreatingKeepsShape(oracle, r, present, first, r.account, names, [NOSELECT]);
    var r1 := CreateMissing(oracle, r, present, first).0;
    CreatingKeepsShape(oracle, Remote(r1.account, refused + 1), present, last, r.account, names, [NOSELECT]);
    hide RefusingOnce;
    var a := CreateMissing(oracle, r, present, es).0.account;
    assert es[j].name != es[i].name && es[j] in first + last;
    assert CanSelect(a, es[j].name) by { hide Shaped; }
    assert es[i].name in a.folders;
    assert a.folders[es[i].name].attributes == [NOSELECT];
  }

  /** The source as a listing of all its folders, in name order. */
  function Sorted(src: Account): seq<Entry> { SortByName(ListReply(src, Acking([])).value, false) }

  /** Where the folder stands in it. */
  lemma PlaceOf(src: Account, f: string) returns (i: nat)
    requires CanSelect(src, f)
    ensures i < |Sorted(src)| && Sorted(src)[i].name == f && !Sorted(src)[i].IsNoSelect()
  {
    assert ListReply(src, Acking([])).Some?;
    hide ListReply, SortByName, InOrder, DistinctNames;
    var es := ListReply(src, Acking([])).value;
    ListedAreSelectable(src, Acking([]));
    SortIsSorted(es, false);
    var e :| e in es && !e.IsNoSelect() && e.name == f;
    assert e in Sorted(src);
    i :| 0 <= i < |Sorted(src)| && Sorted(src)[i] == e;
  }

  lemma SortedIsOfSource(p: Plan, r: Run, target: Oracle)
    requires p == PlanWith(target)
    ensures Sorted(r.sides.source.account) == SortByName(SourceEntries(p, r), false)
    ensures SourceEntries(p, r) == ListReply(r.sides.source.account, Acking([])).value
  {
    hide SortByName;
  }

  /** The other folders of the source are selectable if the target has grown by them. */
  lemma OthersAreSelectable(src: Account, f: string, i: nat, a: Account, a0: Account)
    requires i < |Sorted(src)| && Sorted(src)[i].name == f && DistinctNames(Sorted(src))
    requires a0.folders.Keys == {INBOX} && CanSelect(a0, INBOX)
    requires GrownBy(a, a0, Sorted(src)[..i] + Sorted(src)[i + 1..])
    ensures forall h :: CanSelect(src, h) && h != f ==> CanSelect(a, h)
  {
    hide GrownBy, Sorted, DistinctNames;
    MembersLeft(Sorted(src), i);
    forall h | CanSelect(src, h) && h != f ensures CanSelect(a, h) {
      var k := PlaceOf(src, h);
      GrownIsSelectable(a, a0, Sorted(src)[..i] + Sorted(src)[i + 1..], Sorted(src)[k]);
    }
  }

  /** What the folder structure looks like after such a run. */
  lemma StructureWithContainer(p: Plan, r: Run, f: string, g: string, i: nat, refused: nat)
    requires ValidAccount(r.sides.source.account) && FreshStart(p, r)
    requires IsEmptyAbove(r.sides.source.account, f, g, r.sides.world.target.account.delim)
    requires r == StartOf(r.sides.source.account, r.sides.world.target.account.delim)
      && p == PlanWith(RefusingOnce(refused))
    requires var sorted := Sorted(r.sides.source.account);
             && i < |sorted| && sorted[i].name == f && !sorted[i].IsNoSelect()
             && refused == 1 + Missing(r.sides.world.target.account.folders.Keys, sorted[..i])
    ensures
      var (r', structured) := CopyFolders(p, r);
      var src, a := r.sides.source.account, r'.sides.world.target.account;
      && structured && refused < r'.sides.world.target.tick && f in a.folders && !CanSelect(a, f)
      && NewAreLow(r.sides.world.target.account, a, 0)
      && forall h :: CanSelect(src, h) && h != f ==> CanSelect(a, h)
  {
    var src, target := r.sides.source.account, r.sides.world.target;
    assert p.source(r.sides.source.tick).outcome.Acked? && p.target(target.tick).outcome.Acked?;
    hide CopyFolders, ListReply, Sorted, InOrder, DistinctNames, CreateMissing, Missing, RefusingOnce, GrownBy,
      NewAreLow, IsInferior, ValidAccount, RecOf, FreshStart;
    var sorted, a0 := Sorted(src), target.account;
    SortedIsOfSource(p, r, p.target);
    CopyFoldersInSteps(p, r);
    var j := PlaceOf(src, g);
    RefusedIsPassedOver(Answered(target), sorted, i, refused);
    RefusedIsContainer(Answered(target), sorted, i, j, refused);
    RefusingSkipsNothing(refused);
    NewIsLow(a0);
    CreatedAreLow(p, a0, Answered(target), a0.folders.Keys, sorted, 0);
    OthersAreSelectable(src, f, i, CopyFolders(p, r).0.sides.world.target.account, a0);
  }

  lemma RefusingSkipsNothing(refused: nat)
    ensures forall k :: RefusingOnce(refused)(k).skip == 0
    ensures forall k :: refused < k ==> RefusingOnce(refused)(k).outcome.Acked?
  {
  }

  lemma NewIsLow(a: Account)
    ensures NewAreLow(a, a, 0)
  {
  }

  /** The empty `f` above the selectable `g`: if the CREATE of `f` is refused and `f` then made as the
      superior of `g`, the copy returns nil and leaves `f` as a mere container. */
  lemma ContainerRemains(src: Account, f: string, g: string, delim: char) returns (p: Plan, r: Run)
    requires ValidAccount(src) && delim != '%' && IsEmptyAbove(src, f, g, delim)
    ensures FreshCopy(p, r, src, delim) && Uncancelled(p) && CopyMailbox(p, r).1 == None
    ensures f in TargetAfter(p, r).folders && !CanSelect(TargetAfter(p, r), f)
  {
    r := StartOf(src, delim);
    var i := PlaceOf(src, f);
    var refused := 1 + Missing(r.sides.world.target.account.folders.Keys, Sorted(src)[..i]);
    p := PlanWith(RefusingOnce(refused));
    StartIsFresh(src, delim, p.target);
    assert Connect(p, r).1 && Connect(p, r).0.sides == r.sides && AlwaysAcks(p.source);
    var r1 := Connect(p, r).0;
    RefusingSkipsNothing(refused);
    hide CopyFolders, CopyMailbox, Sorted, Missing, RefusingOnce, NewAreLow, ValidAccount, IsInferior, Fits;
    DialsDoNotMatter(p, r, 2);
    StructureWithContainer(p, r, f, g, i, refused);
    AllAwait(p, r1, src, f);
    RestSucceeds(p, r, 0, refused + 1);
    AttributesStay(p, r, f);
  }

  lemma DialsDoNotMatter(p: Plan, r: Run, n: nat)
    ensures CopyFolders(p, r.(dials := n)) == (CopyFolders(p, r).0.(dials := n), CopyFolders(p, r).1)
  {
    hide ListReply, CreateMissing, SortByName;
  }

  lemma AllAwait(p: Plan, r: Run, src: Account, f: string)
    requires ValidAccount(src) && FreshStart(p, r) && src == r.sides.source.account
    requires CanSelect(src, f) && src.folders[f].msgs == map[]
    requires forall g :: g in r.sides.world.target.account.folders ==>
      r.sides.world.target.account.folders[g].uidNext == 1
    requires
      var a := CopyFolders(p, r).0.sides.world.target.account;
      && f in a.folders && NewAreLow(r.sides.world.target.account, a, 0)
      && forall h :: CanSelect(src, h) && h != f ==> CanSelect(a, h)
    ensures forall h :: CanSelect(src, h) ==> Awaits(p, src, h, CopyFolders(p, r).0.sides.world, 0)
    ensures CopyFolders(p, r).0.sides.source.account == src
      && CopyFolders(p, r).0.sides.world.target.account.delim != '%'
  {
    CopyFoldersFromScratch(p, r);
    hide CopyFolders, Pending, Fits, RecOf, NothingForeign;
    var w := CopyFolders(p, r).0.sides.world;
    forall h | CanSelect(src, h) ensures Awaits(p, src, h, w, 0) {
      assert ValidFolder(src.folders[h]);
      FewMessages(src.folders[h]);
      assert w.target.account.folders[h].uidNext == 1;
    }
  }

  // ---------------------------------------------------------------- exactly when

  /** Every fault-free copy of this source from a fresh start leaves nothing else selectable. */
  ghost predicate NeverLeavesMore(src: Account, delim: char) {
    forall p: Plan, r: Run, gap: nat ::
      FreshCopy(p, r, src, delim) && FaultFree(p, gap) && CopyMailbox(p, r).1 == None ==>
        OnlySourceFolders(src, TargetAfter(p, r))
  }

  /** The clause "no other selectable folder but INBOX remains" holds of all successful fault-free
      copies exactly if all names above selectable source folders are selectable there, or INBOX. */
  lemma NothingElseExactlyIfClosed(src: Account, delim: char)
    requires ValidAccount(src) && delim != '%'
    ensures NeverLeavesMore(src, delim) <==> IsClosed(src, delim)
  {
    hide CopyMailbox, FreshStart, FaultFree, ValidAccount, IsInferior;
    if IsClosed(src, delim) {
      forall p: Plan, r: Run, gap: nat | FreshCopy(p, r, src, delim) && FaultFree(p, gap) && CopyMailbox(p, r).1 == None
        ensures OnlySourceFolders(src, TargetAfter(p, r))
      {
        ClosedLeavesNothingElse(p, r);
      }
    } else {
      var s :| IsAbove(src, s, delim) && s != INBOX && !CanSelect(src, s);
      var f :| f != INBOX && CanSelect(src, f) && IsInferior(f, s, delim);
      var p, r := SuperiorRemains(src, f, s, delim);
      assert FreshCopy(p, r, src, delim) && FaultFree(p, 0);
    }
  }

  /** Every undisturbed copy of this source from a fresh start that returns nil makes all its
      selectable folders selectable, whatever the servers answer. */
  ghost predicate NilMeansSelectable(src: Account, delim: char) {
    forall p: Plan, r: Run :: FreshCopy(p, r, src, delim) && Uncancelled(p) && CopyMailbox(p, r).1 == None ==>
      AllSourceFolders(src, TargetAfter(p, r))
  }

  /** This is so exactly if no empty selectable folder is above another selectable one. */
  lemma SelectableExactlyWithoutEmptyAbove(src: Account, delim: char)
    requires ValidAccount(src) && delim != '%'
    ensures NilMeansSelectable(src, delim) <==> !HasEmptyAbove(src, delim)
  {
    hide CopyMailbox, FreshStart, ValidAccount, IsInferior;
    if HasEmptyAbove(src, delim) {
      var f, g :| IsEmptyAbove(src, f, g, delim);
      var p, r := ContainerRemains(src, f, g, delim);
      assert FreshCopy(p, r, src, delim);
    } else {
      forall p: Plan, r: Run | FreshCopy(p, r, src, delim) && Uncancelled(p) && CopyMailbox(p, r).1 == None
        ensures AllSourceFolders(src, TargetAfter(p, r))
      {
        NoEmptyAboveMeansSelectable(p, r);
      }
    }
  }

  /** An account with INBOX, `A` and `A/B`, the latter two with these attributes, all without messages. */
  function Nested(above: seq<string>): Account {
    Account('/', map[INBOX := Folder([], 1, 1, map[]), "A" := Folder(above, 1, 1, map[]),
                     "A/B" := Folder([], 1, 1, map[])])
  }

  /** The container `A` of the source comes out as a folder that can be selected. */
  lemma SelectableSuperiorStays() returns (p: Plan, r: Run)
    ensures FreshCopy(p, r, Nested([NOSELECT]), '/') && FaultFree(p, 0) && CopyMailbox(p, r).1 == None
    ensures !CanSelect(Nested([NOSELECT]), "A") && CanSelect(TargetAfter(p, r), "A")
  {
    hide CopyMailbox, FreshStart, FaultFree;
    assert "A" + ['/'] == "A/" <= "A/B";
    p, r := SuperiorRemains(Nested([NOSELECT]), "A/B", "A", '/');
  }

  /** The empty folder `A` of the source comes out as a container. */
  lemma EmptyFolderBecomesContainer() returns (p: Plan, r: Run)
    ensures FreshCopy(p, r, Nested([]), '/') && Uncancelled(p) && CopyMailbox(p, r).1 == None
    ensures CanSelect(Nested([]), "A") && "A" in TargetAfter(p, r).folders && !CanSelect(TargetAfter(p, r), "A")
  {
    hide CopyMailbox, FreshStart;
    assert "A" + ['/'] == "A/" <= "A/B";
    p, r := ContainerRemains(Nested([]), "A", "A/B", '/');
  }
}
