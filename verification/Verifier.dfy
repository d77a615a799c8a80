/** The read-only comparison of source and target (internal/verifier/verifier.go), and what its
    counts and sizes prove about the copy. */
module Verifier {
  import opened Basics
  import opened Imap
  import opened ImapClient
  import opened FolderTree

  datatype FolderResult = FolderResult(name: string, srcCount: nat, tgtCount: nat, srcSize: nat, tgtSize: nat) {
    predicate OK() { srcCount == tgtCount && srcSize == tgtSize }
  }

  datatype VerifyError = SourceConnectFailed | TargetConnectFailed | ListSourceFailed | ListTargetFailed | CloseFailed

  datatype MailboxResult = MailboxResult(
    error: Option<VerifyError>, missing: seq<string>, extra: seq<string>, folders: seq<FolderResult>)

  predicate Passes(r: MailboxResult) {
    r.error.None? && r.missing == [] && forall i :: 0 <= i < |r.folders| ==> r.folders[i].OK()
  }

  /** `MailboxResult.OK`. */
  method OK(r: MailboxResult) returns (ok: bool)
    ensures ok == Passes(r)
  {
    if r.error.Some? || |r.missing| > 0 {
      return false;
    }
    for i := 0 to |r.folders|
      invariant forall j :: 0 <= j < i ==> r.folders[j].OK()
    {
      if !r.folders[i].OK() {
        return false;
      }
    }
    return true;
  }

  // ---------------------------------------------------------------- what is compared

  function CountOf(e: Entry): nat { if e.messages.None? then 0 else e.messages.value }

  /** The map of selectable folder names to message counts. */
  function CountMap(es: seq<Entry>): map<string, nat> {
    if es == [] then map[]
    else
      var last := es[|es| - 1];
      var before := CountMap(es[..|es| - 1]);
      if last.IsNoSelect() then before else before[last.name := CountOf(last)]
  }

  /** `folderTotalSize`: the server's answers to come start at `r.tick`; `None` is an error. */
  function FolderSize(oracle: Oracle, r: Remote, name: string): (Remote, Option<nat>) {
    var info := SelectReply(r.account, name, oracle(r.tick));
    if info.None? then (r.(tick := r.tick + 1), None)
    else if info.value.messages == 0 then (r.(tick := r.tick + 1), Some(0))
    else
      (r.(tick := r.tick + 2),
       if oracle(r.tick + 1).outcome.Acked? then Some(TotalSize(r.account.folders[name]) % TWO_TO_64) else None)
  }

  /** An error only leads to a warning and to size 0. */
  function SizeOrZero(size: Option<nat>): nat { if size.None? then 0 else size.value }

  function CompareFolders(srcOracle: Oracle, src: Remote, tgtOracle: Oracle, tgt: Remote,
                          srcMap: map<string, nat>, tgtMap: map<string, nat>, names: seq<string>): seq<FolderResult>
    requires forall n :: n in names ==> n in srcMap && n in tgtMap
    decreases names
  {
    if names == [] then []
    else
      var n := names[0];
      var (src', s) := FolderSize(srcOracle, src, n);
      var (tgt', t) := FolderSize(tgtOracle, tgt, n);
      [FolderResult(n, srcMap[n], tgtMap[n], SizeOrZero(s), SizeOrZero(t))]
      + CompareFolders(srcOracle, src', tgtOracle, tgt', srcMap, tgtMap, names[1..])
  }

  // ---------------------------------------------------------------- no wrap-around

  /** Message sizes are 32-bit numbers (section 9 of RFC 3501). */
  ghost predicate Sized(fo: Folder) {
    forall u :: u in fo.msgs ==> |fo.msgs[u].body| < 0x1_0000_0000
  }

  lemma {:induction false} SizeBound(fo: Folder, uids: seq<uint32>)
    requires Sized(fo) && forall u :: u in uids ==> u in fo.msgs
    ensures SizeOf(fo, uids) <= |uids| * (TWO_TO_32 - 1)
  {
    if uids == [] {
    } else {
      assert uids[0] in uids;
      SizeBound(fo, uids[1..]);
    }
  }

  /** The `uint64` sum of a folder's sizes never wraps around. */
  lemma TotalNeverWraps(fo: Folder)
    requires Sized(fo)
    ensures TotalSize(fo) < 0x1_0000_0000_0000_0000
  {
    var uids := Ascending(fo.msgs.Keys);
    SizeBound(fo, uids);
    CardinalityBound(fo.msgs.Keys, TWO_TO_32);
    assert |uids| <= TWO_TO_32;
    assert TWO_TO_32 * (TWO_TO_32 - 1) < TWO_TO_64;
  }

  // ---------------------------------------------------------------- soundness

  /** The target folder came from the source folder by dropping messages and cutting bodies
      short: `from` tells the origin of every target message. */
  ghost predicate DegradedBy(tgt: Folder, src: Folder, from: map<uint32, uint32>) {
    && (forall u :: u in from <==> u in tgt.msgs)
    && (forall u :: u in from ==> from[u] in src.msgs && tgt.msgs[u].body <= src.msgs[from[u]].body)
    && (forall a, b :: a in from && b in from && a != b ==> from[a] != from[b])
  }

  /** Nothing dropped and nothing cut short. */
  ghost predicate Intact(tgt: Folder, src: Folder, from: map<uint32, uint32>) {
    && (forall s :: s in src.msgs ==> exists u :: u in from && from[u] == s)
    && (forall u :: u in from && u in tgt.msgs && from[u] in src.msgs ==> tgt.msgs[u].body == src.msgs[from[u]].body)
  }

  lemma {:induction false} SizesCompare(tgt: Folder, src: Folder, from: map<uint32, uint32>, uids: seq<uint32>)
    requires DegradedBy(tgt, src, from) && forall u :: u in uids ==> u in from
    ensures forall s :: s in Along(from, uids) ==> s in src.msgs
    ensures SizeOf(tgt, uids) <= SizeOf(src, Along(from, uids))
    ensures SizeOf(tgt, uids) == SizeOf(src, Along(from, uids)) ==>
              forall u :: u in uids ==> tgt.msgs[u].body == src.msgs[from[u]].body
  {
    var origins := Along(from, uids);
    forall s | s in origins ensures s in src.msgs {
      var i :| 0 <= i < |origins| && origins[i] == s;
      assert uids[i] in uids;
    }
    if uids == [] {
    } else {
      assert uids[0] in uids;
      assert Along(from, uids)[1..] == Along(from, uids[1..]);
      SizesCompare(tgt, src, from, uids[1..]);
    }
  }

  lemma ProperImage(from: map<uint32, uint32>, uids: seq<uint32>, all: set<uint32>)
    requires NoDup(uids) && (forall u :: u in uids <==> u in from) && |uids| == |all|
    requires forall u :: u in from ==> from[u] in all
    requires forall a, b :: a in from && b in from && a != b ==> from[a] != from[b]
    ensures NoDup(Along(from, uids)) && Elements(Along(from, uids)) == all
  {
    var origins := Along(from, uids);
    forall i, j | 0 <= i < j < |origins| ensures origins[i] != origins[j] {
      assert uids[i] in uids && uids[j] in uids;
    }
    ElementsOfNoDup(origins);
    forall s | s in Elements(origins) ensures s in all {
      var i :| 0 <= i < |origins| && origins[i] == s;
      assert uids[i] in uids;
    }
    SubsetOfSameSize(Elements(origins), all);
  }

  lemma SubsetOfSameSize(a: set<uint32>, b: set<uint32>)
    requires a <= b && |a| == |b|
    ensures a == b
  {
    assert b == a + (b - a) && |b| == |a| + |b - a|;
    assert b - a == {};
  }

  lemma TotalsCompare(tgt: Folder, src: Folder, from: map<uint32, uint32>)
    requires DegradedBy(tgt, src, from) && |tgt.msgs| == |src.msgs|
    ensures var origins := Along(from, Ascending(tgt.msgs.Keys));
            && Elements(origins) == src.msgs.Keys
            && (forall s :: s in origins ==> s in src.msgs)
            && SizeOf(src, origins) == TotalSize(src)
    ensures TotalSize(tgt) <= TotalSize(src)
  {
    var uids := Ascending(tgt.msgs.Keys);
    assert |uids| == |tgt.msgs.Keys| == |src.msgs.Keys|;
    SizesCompare(tgt, src, from, uids);
    ProperImage(from, uids, src.msgs.Keys);
    SizeIsTotal(src, Along(from, uids));
  }

  lemma SubsetSizes(a: set<uint32>, b: set<uint32>)
    requires a <= b && a != b
    ensures |a| < |b|
  {
    assert b == a + (b - a) && |b| == |a| + |b - a|;
    assert b - a != {};
  }

  lemma SmallRemaindersAreEqual(x: nat, y: nat)
    requires x < TWO_TO_64 && y < TWO_TO_64 && x % TWO_TO_64 == y % TWO_TO_64
    ensures x == y
  {
  }

  lemma SameSizesMeanIntact(tgt: Folder, src: Folder, from: map<uint32, uint32>, uids: seq<uint32>)
    requires DegradedBy(tgt, src, from) && forall u :: u in uids <==> u in from
    requires Elements(Along(from, uids)) == src.msgs.Keys && forall s :: s in Along(from, uids) ==> s in src.msgs
    requires SizeOf(tgt, uids) == SizeOf(src, Along(from, uids))
    ensures Intact(tgt, src, from)
  {
    SizesCompare(tgt, src, from, uids);
    hide SizeOf;
    forall s | s in src.msgs ensures exists u :: u in from && from[u] == s {
      assert s in Elements(Along(from, uids));
      var i :| 0 <= i < |uids| && Along(from, uids)[i] == s;
      assert uids[i] in uids;
    }
  }

  /** Soundness for one folder: equal counts and equal 64-bit totals rule out any loss. */
  lemma EqualTotalsMeanIntact(tgt: Folder, src: Folder, from: map<uint32, uint32>)
    requires DegradedBy(tgt, src, from) && Sized(src)
    requires |tgt.msgs| == |src.msgs| && TotalSize(tgt) % TWO_TO_64 == TotalSize(src) % TWO_TO_64
    ensures Intact(tgt, src, from)
  {
    hide Sized, SizeOf, Intact;
    var uids := Ascending(tgt.msgs.Keys);
    TotalsCompare(tgt, src, from);
    TotalNeverWraps(src);
    assert TotalSize(tgt) == SizeOf(tgt, uids);
    SmallRemaindersAreEqual(TotalSize(tgt), TotalSize(src));
    hide TotalSize;
    SameSizesMeanIntact(tgt, src, from, uids);
  }

  // ---------------------------------------------------------------- a whole mailbox

  /** The comparison of a mailbox once both servers are connected, up to closing them again. */
  function Verify(srcOracle: Oracle, src: Remote, tgtOracle: Oracle, tgt: Remote): MailboxResult {
    var srcList := ListReply(src.account, srcOracle(src.tick));
    if srcList.None? then MailboxResult(Some(ListSourceFailed), [], [], [])
    else
      var tgtList := ListReply(tgt.account, tgtOracle(tgt.tick));
      if tgtList.None? then MailboxResult(Some(ListTargetFailed), [], [], [])
      else
        var srcMap, tgtMap := CountMap(srcList.value), CountMap(tgtList.value);
        MailboxResult(
          None,
          AscendingNames(srcMap.Keys - tgtMap.Keys),
          AscendingNames(tgtMap.Keys - srcMap.Keys),
          CompareFolders(srcOracle, src.(tick := src.tick + 1), tgtOracle, tgt.(tick := tgt.tick + 1),
                         srcMap, tgtMap, AscendingNames(srcMap.Keys * tgtMap.Keys)))
  }

  lemma {:induction false} CountMapEntries(es: seq<Entry>)
    requires DistinctNames(es)
    ensures forall e :: e in es && !e.IsNoSelect() ==> e.name in CountMap(es) && CountMap(es)[e.name] == CountOf(e)
    ensures forall n :: n in CountMap(es) ==> exists e :: e in es && !e.IsNoSelect() && e.name == n
  {
    if es == [] {
    } else {
      var before, last := es[..|es| - 1], es[|es| - 1];
      CountMapEntries(before);
      assert forall e :: e in es <==> e in before || e == last;
      forall e | e in before ensures e.name != last.name {
        var i :| 0 <= i < |before| && before[i] == e;
        assert es[i] == e;
      }
    }
  }

  /** The count that a listing gives for a folder: 0 if the server did not report it. */
  function ReportedCount(a: Account, f: string, counts: bool): nat
    requires f in a.folders
  {
    if counts then |a.folders[f].msgs| else 0
  }

  lemma ListedCounts(a: Account, ans: Answer)
    requires ListReply(a, ans).Some?
    ensures forall e :: e in ListReply(a, ans).value ==>
      e.name in a.folders && CountOf(e) == ReportedCount(a, e.name, ans.counts)
  {
    var names, es := NameOrder(a.folders.Keys, ans.names), ListReply(a, ans).value;
    forall e | e in es ensures e.name in a.folders && CountOf(e) == ReportedCount(a, e.name, ans.counts) {
      var i :| 0 <= i < |es| && es[i] == e;
      assert names[i] in names;
    }
  }

  /** The count map of a listing has the selectable folders with their counts as far as reported. */
  lemma CountMapOfListing(a: Account, ans: Answer)
    requires ListReply(a, ans).Some?
    ensures forall f :: f in CountMap(ListReply(a, ans).value) <==> CanSelect(a, f)
    ensures forall f :: CanSelect(a, f) ==> CountMap(ListReply(a, ans).value)[f] == ReportedCount(a, f, ans.counts)
  {
    hide ListReply, ReportedCount, CountOf;
    var es := ListReply(a, ans).value;
    ListingNamesAll(a, ans);
    ListedCounts(a, ans);
    CountMapEntries(es);
    forall f | CanSelect(a, f) ensures f in CountMap(es) && CountMap(es)[f] == ReportedCount(a, f, ans.counts) {
      var e :| e in es && e.name == f;
    }
  }

  /** The server acknowledges every command and reports message counts in listings. */
  ghost predicate Reliable(oracle: Oracle) {
    forall k :: oracle(k).outcome.Acked? && oracle(k).counts
  }

  /** Same number of messages and same total size. */
  ghost predicate SameTotals(src: Account, tgt: Account, f: string) {
    && f in src.folders && f in tgt.folders
    && |src.folders[f].msgs| == |tgt.folders[f].msgs|
    && TotalSize(src.folders[f]) % TWO_TO_64 == TotalSize(tgt.folders[f]) % TWO_TO_64
  }

  lemma FolderSizeOfReliable(oracle: Oracle, r: Remote, f: string)
    requires Reliable(oracle) && CanSelect(r.account, f)
    ensures FolderSize(oracle, r, f).0.account == r.account
    ensures FolderSize(oracle, r, f).1 == Some(TotalSize(r.account.folders[f]) % TWO_TO_64)
  {
    var fo := r.account.folders[f];
    if |fo.msgs| == 0 {
      assert fo.msgs.Keys == {};
      assert TotalSize(fo) == 0;
    }
  }

  /** The map has the true message counts of the named folders. */
  ghost predicate Counted(a: Account, m: map<string, nat>, names: seq<string>) {
    forall n :: n in names ==> n in m && CanSelect(a, n) && m[n] == |a.folders[n].msgs|
  }

  /** The results stand for the named folders, each OK exactly on equal totals. */
  ghost predicate Judged(results: seq<FolderResult>, src: Account, tgt: Account, names: seq<string>) {
    && |results| == |names|
    && forall i :: 0 <= i < |names| ==> (results[i].OK() <==> SameTotals(src, tgt, names[i]))
  }

  lemma JudgedCons(r: FolderResult, rest: seq<FolderResult>, src: Account, tgt: Account, names: seq<string>)
    requires names != [] && Judged(rest, src, tgt, names[1..])
    requires r.OK() <==> SameTotals(src, tgt, names[0])
    ensures Judged([r] + rest, src, tgt, names)
  {
    hide SameTotals;
    forall i | 0 <= i < |names| ensures ([r] + rest)[i].OK() <==> SameTotals(src, tgt, names[i]) {
      if i > 0 { assert names[i] == names[1..][i - 1] && ([r] + rest)[i] == rest[i - 1]; }
    }
  }

  lemma {:induction false} ComparisonOfReliable(srcOracle: Oracle, src: Remote, tgtOracle: Oracle, tgt: Remote,
                                                srcMap: map<string, nat>, tgtMap: map<string, nat>, names: seq<string>)
    requires Reliable(srcOracle) && Reliable(tgtOracle)
    requires Counted(src.account, srcMap, names) && Counted(tgt.account, tgtMap, names)
    ensures Judged(CompareFolders(srcOracle, src, tgtOracle, tgt, srcMap, tgtMap, names), src.account, tgt.account,
                   names)
    decreases names
  {
    if names == [] {
    } else {
      var n := names[0];
      assert n in names;
      FolderSizeOfReliable(srcOracle, src, n);
      FolderSizeOfReliable(tgtOracle, tgt, n);
      var (src', s) := FolderSize(srcOracle, src, n);
      var (tgt', t) := FolderSize(tgtOracle, tgt, n);
      var r := FolderResult(n, srcMap[n], tgtMap[n], SizeOrZero(s), SizeOrZero(t));
      assert r.OK() <==> SameTotals(src.account, tgt.account, n);
      assert Counted(src.account, srcMap, names[1..]) && Counted(tgt.account, tgtMap, names[1..]);
      hide FolderSize, CanSelect, TotalSize, Reliable, Counted, Judged, SameTotals;
      ComparisonOfReliable(srcOracle, src', tgtOracle, tgt', srcMap, tgtMap, names[1..]);
      JudgedCons(r, CompareFolders(srcOracle, src', tgtOracle, tgt', srcMap, tgtMap, names[1..]), src.account,
                 tgt.account, names);
    }
  }

  lemma CommonAreCounted(src: Remote, sa: Answer, tgt: Remote, ta: Answer)
    requires ListReply(src.account, sa).Some? && ListReply(tgt.account, ta).Some? && sa.counts && ta.counts
    ensures
      var srcMap, tgtMap := CountMap(ListReply(src.account, sa).value), CountMap(ListReply(tgt.account, ta).value);
      var names := AscendingNames(srcMap.Keys * tgtMap.Keys);
      && Counted(src.account, srcMap, names) && Counted(tgt.account, tgtMap, names)
      && (forall f :: f in names <==> CanSelect(src.account, f) && CanSelect(tgt.account, f))
      && (srcMap.Keys <= tgtMap.Keys <==> forall f :: CanSelect(src.account, f) ==> CanSelect(tgt.account, f))
  {
    CountMapOfListing(src.account, sa);
    CountMapOfListing(tgt.account, ta);
    hide CanSelect, CountMap, ListReply;
  }

  /** Every selectable source folder is on the target with the same totals. */
  ghost predicate AllTheSame(src: Account, tgt: Account) {
    forall f :: CanSelect(src, f) ==> CanSelect(tgt, f) && SameTotals(src, tgt, f)
  }

  /** The folders that `Verify` compares. */
  function CommonNames(src: Account, sa: Answer, tgt: Account, ta: Answer): seq<string>
    requires ListReply(src, sa).Some? && ListReply(tgt, ta).Some?
  {
    AscendingNames(CountMap(ListReply(src, sa).value).Keys * CountMap(ListReply(tgt, ta).value).Keys)
  }

  lemma VerifyJudges(srcOracle: Oracle, src: Remote, tgtOracle: Oracle, tgt: Remote)
    requires Reliable(srcOracle) && Reliable(tgtOracle)
    requires ListReply(src.account, srcOracle(src.tick)).Some? && ListReply(tgt.account, tgtOracle(tgt.tick)).Some?
    ensures Judged(Verify(srcOracle, src, tgtOracle, tgt).folders, src.account, tgt.account,
                   CommonNames(src.account, srcOracle(src.tick), tgt.account, tgtOracle(tgt.tick)))
  {
    hide CanSelect, SameTotals, CountMap, TotalSize, CompareFolders, ListReply, Counted, Judged;
    var sa, ta := srcOracle(src.tick), tgtOracle(tgt.tick);
    CommonAreCounted(src, sa, tgt, ta);
    var srcMap, tgtMap := CountMap(ListReply(src.account, sa).value), CountMap(ListReply(tgt.account, ta).value);
    ComparisonOfReliable(srcOracle, src.(tick := src.tick + 1), tgtOracle, tgt.(tick := tgt.tick + 1), srcMap, tgtMap,
                         CommonNames(src.account, sa, tgt.account, ta));
  }

  /** With reliable servers the verdict is exact: a mailbox passes if and only if every selectable
      source folder is selectable on the target and has the same totals there. */
  lemma PassesExactlyOnSameTotals(srcOracle: Oracle, src: Remote, tgtOracle: Oracle, tgt: Remote)
    requires Reliable(srcOracle) && Reliable(tgtOracle)
    ensures Passes(Verify(srcOracle, src, tgtOracle, tgt)) <==> AllTheSame(src.account, tgt.account)
  {
    var sa, ta := srcOracle(src.tick), tgtOracle(tgt.tick);
    ReliableListing(srcOracle, src);
    ReliableListing(tgtOracle, tgt);
    hide CanSelect, SameTotals, CountMap, TotalSize, CompareFolders, ListReply, Counted, Judged, Passes, AllTheSame;
    VerifyJudges(srcOracle, src, tgtOracle, tgt);
    CommonAreCounted(src, sa, tgt, ta);
    NothingListed(CountMap(ListReply(src.account, sa).value).Keys - CountMap(ListReply(tgt.account, ta).value).Keys);
    VerdictOfJudgement(Verify(srcOracle, src, tgtOracle, tgt), src.account, tgt.account,
                       CommonNames(src.account, sa, tgt.account, ta));
  }

  lemma VerdictOfJudgement(r: MailboxResult, src: Account, tgt: Account, names: seq<string>)
    requires r.error.None? && Judged(r.folders, src, tgt, names)
    requires forall f :: f in names <==> CanSelect(src, f) && CanSelect(tgt, f)
    requires r.missing == [] <==> forall f :: CanSelect(src, f) ==> CanSelect(tgt, f)
    ensures Passes(r) <==> AllTheSame(src, tgt)
  {
    assert forall i :: 0 <= i < |names| ==> names[i] in names;
  }

  lemma ReliableListing(oracle: Oracle, r: Remote)
    requires Reliable(oracle)
    ensures ListReply(r.account, oracle(r.tick)).Some?
  {
  }

  lemma NothingListed(s: set<string>)
    ensures AscendingNames(s) == [] <==> s == {}
  {
    if s != {} {
      var x := Inhabitant(s);
      assert x in AscendingNames(s);
    }
  }

  // ---------------------------------------------------------------- what passing is evidence of

  /** The folder passes the comparison when its turn comes at these ticks of the two servers, whose
      listings carried message counts or not. */
  ghost predicate FolderPasses(srcOracle: Oracle, src: Remote, tgtOracle: Oracle, tgt: Remote,
                               srcCounts: bool, tgtCounts: bool, f: string)
    requires f in src.account.folders && f in tgt.account.folders
  {
    var srcMap, tgtMap := map[f := ReportedCount(src.account, f, srcCounts)],
      map[f := ReportedCount(tgt.account, f, tgtCounts)];
    CompareFolders(srcOracle, src, tgtOracle, tgt, srcMap, tgtMap, [f])[0].OK()
  }

  lemma FolderPassesOnEqual(srcOracle: Oracle, src: Remote, tgtOracle: Oracle, tgt: Remote,
                            srcCounts: bool, tgtCounts: bool, f: string)
    requires f in src.account.folders && f in tgt.account.folders
    ensures FolderPasses(srcOracle, src, tgtOracle, tgt, srcCounts, tgtCounts, f) <==>
      && ReportedCount(src.account, f, srcCounts) == ReportedCount(tgt.account, f, tgtCounts)
      && SizeOrZero(FolderSize(srcOracle, src, f).1) == SizeOrZero(FolderSize(tgtOracle, tgt, f).1)
  {
    hide FolderSize, SizeOrZero;
  }

  /** The two commands that fetch the size of a folder are acknowledged. */
  predicate SizeAnswered(oracle: Oracle, tick: nat) {
    oracle(tick).outcome.Acked? && oracle(tick + 1).outcome.Acked?
  }

  lemma AnsweredSize(oracle: Oracle, r: Remote, f: string)
    requires CanSelect(r.account, f)
    ensures var size := SizeOrZero(FolderSize(oracle, r, f).1);
            size == 0 || size == TotalSize(r.account.folders[f]) % TWO_TO_64
    ensures SizeAnswered(oracle, r.tick) ==>
      SizeOrZero(FolderSize(oracle, r, f).1) == TotalSize(r.account.folders[f]) % TWO_TO_64
  {
    hide TotalSize;
    NoMessagesNoSize(r.account.folders[f]);
  }

  lemma NoMessagesNoSize(fo: Folder)
    ensures |fo.msgs| == 0 ==> TotalSize(fo) == 0
  {
    if |fo.msgs| == 0 { assert fo.msgs.Keys == {}; }
  }

  lemma UnansweredSize(oracle: Oracle, r: Remote, f: string)
    requires CanSelect(r.account, f) && |r.account.folders[f].msgs| != 0 && !SizeAnswered(oracle, r.tick)
    ensures SizeOrZero(FolderSize(oracle, r, f).1) == 0
  {
    hide TotalSize;
  }

  /** A passing folder is free of loss, whatever the two servers hold and whatever was lost. */
  ghost predicate PassingIsEvidence(srcOracle: Oracle, srcTick: nat, tgtOracle: Oracle, tgtTick: nat,
                                    srcCounts: bool, tgtCounts: bool)
  {
    forall src: Account, tgt: Account, f: string, from: map<uint32, uint32> ::
      && CanSelect(src, f) && CanSelect(tgt, f) && Sized(src.folders[f])
      && DegradedBy(tgt.folders[f], src.folders[f], from)
      && FolderPasses(srcOracle, Remote(src, srcTick), tgtOracle, Remote(tgt, tgtTick), srcCounts, tgtCounts, f) ==>
        Intact(tgt.folders[f], src.folders[f], from)
  }

  /** What it takes for that: the source reports its count, and it answers for the size unless the target
      does not report its count. The size on the target is never needed. */
  predicate HasEvidence(srcOracle: Oracle, srcTick: nat, srcCounts: bool, tgtCounts: bool) {
    srcCounts && (!tgtCounts || SizeAnswered(srcOracle, srcTick))
  }

  lemma NothingToLose(x: nat, y: nat, z: nat)
    requires y <= x < TWO_TO_64 && x % TWO_TO_64 == z && (z == 0 || z == y % TWO_TO_64)
    ensures y % TWO_TO_64 == x % TWO_TO_64
  {
    if z == 0 { SmallRemaindersAreEqual(x, 0); }
  }

  /** An empty source folder has nothing to lose. */
  lemma EmptyIsIntact(tgt: Folder, src: Folder, from: map<uint32, uint32>)
    requires DegradedBy(tgt, src, from) && |src.msgs| == 0
    ensures Intact(tgt, src, from)
  {
    assert src.msgs.Keys == {};
  }

  lemma EvidenceSuffices(srcOracle: Oracle, src: Remote, tgtOracle: Oracle, tgt: Remote, srcCounts: bool,
                         tgtCounts: bool, f: string, from: map<uint32, uint32>)
    requires CanSelect(src.account, f) && CanSelect(tgt.account, f) && Sized(src.account.folders[f])
    requires DegradedBy(tgt.account.folders[f], src.account.folders[f], from)
    requires FolderPasses(srcOracle, src, tgtOracle, tgt, srcCounts, tgtCounts, f)
    requires HasEvidence(srcOracle, src.tick, srcCounts, tgtCounts)
    ensures Intact(tgt.account.folders[f], src.account.folders[f], from)
  {
    FolderPassesOnEqual(srcOracle, src, tgtOracle, tgt, srcCounts, tgtCounts, f);
    hide FolderPasses, TotalSize, Sized, DegradedBy, Intact, FolderSize, SizeOrZero;
    var x, y := src.account.folders[f], tgt.account.folders[f];
    if !tgtCounts {
      EmptyIsIntact(y, x, from);
    } else {
      AnsweredSize(srcOracle, src, f);
      AnsweredSize(tgtOracle, tgt, f);
      TotalsCompare(y, x, from);
      TotalNeverWraps(x);
      NothingToLose(TotalSize(x), TotalSize(y), SizeOrZero(FolderSize(tgtOracle, tgt, f).1));
      EqualTotalsMeanIntact(y, x, from);
    }
  }

  /** Two accounts with one message in INBOX each, of the given bodies. */
  function OneMessage(body: Bytes): Account {
    Account('/', map[INBOX := Folder([], 1, 2, map[1 := Stored([], 1, body)])])
  }

  const NO_MESSAGE := Account('/', map[INBOX := Folder([], 1, 2, map[])])

  lemma EmptyBodySize(fo: Folder)
    requires fo == OneMessage([]).folders[INBOX] || fo == NO_MESSAGE.folders[INBOX]
    ensures TotalSize(fo) == 0
  {
    if fo == OneMessage([]).folders[INBOX] { SizeIsTotal(fo, [1]); }
  }

  /** Without counts of the source an empty message can be missing. */
  lemma DroppedPassesWithoutCounts(srcOracle: Oracle, srcTick: nat, tgtOracle: Oracle, tgtTick: nat, tgtCounts: bool)
    ensures FolderPasses(srcOracle, Remote(OneMessage([]), srcTick), tgtOracle, Remote(NO_MESSAGE, tgtTick), false,
                         tgtCounts, INBOX)
    ensures DegradedBy(NO_MESSAGE.folders[INBOX], OneMessage([]).folders[INBOX], map[])
      && Sized(OneMessage([]).folders[INBOX])
    ensures !Intact(NO_MESSAGE.folders[INBOX], OneMessage([]).folders[INBOX], map[])
  {
    var src, tgt := Remote(OneMessage([]), srcTick), Remote(NO_MESSAGE, tgtTick);
    FolderPassesOnEqual(srcOracle, src, tgtOracle, tgt, false, tgtCounts, INBOX);
    AnsweredSize(srcOracle, src, INBOX);
    AnsweredSize(tgtOracle, tgt, INBOX);
    EmptyBodySize(src.account.folders[INBOX]);
    EmptyBodySize(tgt.account.folders[INBOX]);
    hide FolderPasses, TotalSize, FolderSize;
    assert 1 in OneMessage([]).folders[INBOX].msgs;
  }

  lemma OneByteIsSized()
    ensures Sized(OneMessage([1]).folders[INBOX])
  {
  }

  /** Without the size of the source a message can be cut short. */
  lemma CutPassesWithoutSize(srcOracle: Oracle, srcTick: nat, tgtOracle: Oracle, tgtTick: nat)
    requires !SizeAnswered(srcOracle, srcTick)
    ensures FolderPasses(srcOracle, Remote(OneMessage([1]), srcTick), tgtOracle, Remote(OneMessage([]), tgtTick), true,
                         true, INBOX)
    ensures
      var src, tgt, from: map<uint32, uint32> := OneMessage([1]).folders[INBOX], OneMessage([]).folders[INBOX],
        map[1 := 1];
      DegradedBy(tgt, src, from) && Sized(src) && !Intact(tgt, src, from)
  {
    var src, tgt := Remote(OneMessage([1]), srcTick), Remote(OneMessage([]), tgtTick);
    var x, y := src.account.folders[INBOX], tgt.account.folders[INBOX];
    OneByteIsSized();
    hide FolderPasses, TotalSize, FolderSize, SizeAnswered, Sized;
    assert x.msgs.Keys == {1} && y.msgs.Keys == {1};
    assert |x.msgs| == 1 && |y.msgs| == 1;
    FolderPassesOnEqual(srcOracle, src, tgtOracle, tgt, true, true, INBOX);
    AnsweredSize(tgtOracle, tgt, INBOX);
    EmptyBodySize(y);
    UnansweredSize(srcOracle, src, INBOX);
    var from: map<uint32, uint32> := map[1 := 1];
    assert 1 in from && y.msgs[1].body != x.msgs[from[1]].body;
  }

  /** Exactly when a passing folder proves that nothing was lost. The source has to report its message
      count and to answer for its size; only if the target reports no count the size may be missing. */
  lemma EvidenceExactly(srcOracle: Oracle, srcTick: nat, tgtOracle: Oracle, tgtTick: nat, srcCounts: bool,
                        tgtCounts: bool)
    ensures PassingIsEvidence(srcOracle, srcTick, tgtOracle, tgtTick, srcCounts, tgtCounts) <==>
            HasEvidence(srcOracle, srcTick, srcCounts, tgtCounts)
  {
    hide FolderPasses, Sized, DegradedBy, Intact, OneMessage;
    if HasEvidence(srcOracle, srcTick, srcCounts, tgtCounts) {
      forall src: Account, tgt: Account, f: string, from: map<uint32, uint32>
        | && CanSelect(src, f) && CanSelect(tgt, f) && Sized(src.folders[f])
          && DegradedBy(tgt.folders[f], src.folders[f], from)
          && FolderPasses(srcOracle, Remote(src, srcTick), tgtOracle, Remote(tgt, tgtTick), srcCounts, tgtCounts, f)
        ensures Intact(tgt.folders[f], src.folders[f], from)
      {
        EvidenceSuffices(srcOracle, Remote(src, srcTick), tgtOracle, Remote(tgt, tgtTick), srcCounts, tgtCounts, f,
                         from);
      }
    } else if !srcCounts {
      InboxesCanBeSelected();
      DroppedPassesWithoutCounts(srcOracle, srcTick, tgtOracle, tgtTick, tgtCounts);
    } else {
      InboxesCanBeSelected();
      CutPassesWithoutSize(srcOracle, srcTick, tgtOracle, tgtTick);
    }
  }

  lemma InboxesCanBeSelected()
    ensures CanSelect(OneMessage([]), INBOX) && CanSelect(OneMessage([1]), INBOX) && CanSelect(NO_MESSAGE, INBOX)
  {
  }

  // ---------------------------------------------------------------- the same for a whole mailbox

  /** The server when it is the turn of folder number `i`. */
  function TurnOf(oracle: Oracle, r: Remote, names: seq<string>, i: nat): (r': Remote)
    requires i <= |names|
    ensures r'.account == r.account
    decreases i
  {
    if i == 0 then r else FolderSize(oracle, TurnOf(oracle, r, names, i - 1), names[i - 1]).0
  }

  lemma {:induction false} TurnAfterFirst(oracle: Oracle, r: Remote, names: seq<string>, i: nat)
    requires 0 < i <= |names|
    ensures TurnOf(oracle, r, names, i) == TurnOf(oracle, FolderSize(oracle, r, names[0]).0, names[1..], i - 1)
  {
    hide FolderSize;
    if i == 1 {
    } else {
      TurnAfterFirst(oracle, r, names, i - 1);
      assert names[1..][i - 2] == names[i - 1];
    }
  }

  /** Every folder is judged as if it were alone, at its own turn. */
  lemma {:induction false} VerdictAtTurn(srcOracle: Oracle, src: Remote, tgtOracle: Oracle, tgt: Remote,
                                         srcMap: map<string, nat>, tgtMap: map<string, nat>, names: seq<string>, i: nat)
    requires (forall n :: n in names ==> n in srcMap && n in tgtMap) && i < |names|
    ensures names[i] in srcMap && names[i] in tgtMap
    ensures
      var results := CompareFolders(srcOracle, src, tgtOracle, tgt, srcMap, tgtMap, names);
      && |results| == |names|
      && results[i] == FolderResult(names[i], srcMap[names[i]], tgtMap[names[i]],
           SizeOrZero(FolderSize(srcOracle, TurnOf(srcOracle, src, names, i), names[i]).1),
           SizeOrZero(FolderSize(tgtOracle, TurnOf(tgtOracle, tgt, names, i), names[i]).1))
    decreases names
  {
    hide FolderSize, SizeOrZero;
    assert names[0] in names && names[i] in names;
    if |names| == 1 {
      assert names[1..] == [];
    } else {
      var src', tgt' := FolderSize(srcOracle, src, names[0]).0, FolderSize(tgtOracle, tgt, names[0]).0;
      VerdictAtTurn(srcOracle, src', tgtOracle, tgt', srcMap, tgtMap, names[1..], if i == 0 then 0 else i - 1);
      if i > 0 {
        TurnAfterFirst(srcOracle, src, names, i);
        TurnAfterFirst(tgtOracle, tgt, names, i);
      }
    }
  }

  /** The turn of folder `f` in a whole verification. */
  ghost predicate IsTurn(srcOracle: Oracle, src: Remote, tgtOracle: Oracle, tgt: Remote, f: string, i: nat) {
    && ListReply(src.account, srcOracle(src.tick)).Some? && ListReply(tgt.account, tgtOracle(tgt.tick)).Some?
    && var names := CommonNames(src.account, srcOracle(src.tick), tgt.account, tgtOracle(tgt.tick));
    && i < |names| && names[i] == f
  }

  /** What `Verify` comes to once both listings have arrived. */
  lemma VerifyInSteps(srcOracle: Oracle, src: Remote, tgtOracle: Oracle, tgt: Remote)
    requires ListReply(src.account, srcOracle(src.tick)).Some? && ListReply(tgt.account, tgtOracle(tgt.tick)).Some?
    ensures
      var names := CommonNames(src.account, srcOracle(src.tick), tgt.account, tgtOracle(tgt.tick));
      var r := Verify(srcOracle, src, tgtOracle, tgt);
      && r.error == None && (forall f :: f in names <==> CanSelect(src.account, f) && CanSelect(tgt.account, f))
      && (r.missing == [] <==> forall f :: CanSelect(src.account, f) ==> CanSelect(tgt.account, f))
      && r.folders == Results(srcOracle, src, tgtOracle, tgt, names)
  {
    var sa, ta := srcOracle(src.tick), tgtOracle(tgt.tick);
    CountMapOfListing(src.account, sa);
    CountMapOfListing(tgt.account, ta);
    hide CanSelect, CountMap, ListReply, CompareFolders;
    NothingListed(CountMap(ListReply(src.account, sa).value).Keys - CountMap(ListReply(tgt.account, ta).value).Keys);
  }

  /** The results for the named folders, which both listings have. */
  function Results(srcOracle: Oracle, src: Remote, tgtOracle: Oracle, tgt: Remote,
                   names: seq<string>): seq<FolderResult>
    requires ListReply(src.account, srcOracle(src.tick)).Some? && ListReply(tgt.account, tgtOracle(tgt.tick)).Some?
    requires forall f :: f in names ==> CanSelect(src.account, f) && CanSelect(tgt.account, f)
  {
    CountMapOfListing(src.account, srcOracle(src.tick));
    CountMapOfListing(tgt.account, tgtOracle(tgt.tick));
    CompareFolders(srcOracle, src.(tick := src.tick + 1), tgtOracle, tgt.(tick := tgt.tick + 1),
                   CountMap(ListReply(src.account, srcOracle(src.tick)).value),
                   CountMap(ListReply(tgt.account, tgtOracle(tgt.tick)).value), names)
  }

  /** Result number `i` is the verdict on its folder. */
  lemma ResultIsVerdict(srcOracle: Oracle, src: Remote, tgtOracle: Oracle, tgt: Remote, names: seq<string>, i: nat)
    requires ListReply(src.account, srcOracle(src.tick)).Some? && ListReply(tgt.account, tgtOracle(tgt.tick)).Some?
    requires (forall f :: f in names ==> CanSelect(src.account, f) && CanSelect(tgt.account, f)) && i < |names|
    ensures |Results(srcOracle, src, tgtOracle, tgt, names)| == |names| && names[i] in names
    ensures Results(srcOracle, src, tgtOracle, tgt, names)[i].OK() <==>
      FolderPasses(srcOracle, TurnOf(srcOracle, src.(tick := src.tick + 1), names, i),
                   tgtOracle, TurnOf(tgtOracle, tgt.(tick := tgt.tick + 1), names, i),
                   srcOracle(src.tick).counts, tgtOracle(tgt.tick).counts, names[i])
  {
    hide CountMap, ListReply, CompareFolders, FolderPasses, TurnOf, ReportedCount;
    var sa, ta, f := srcOracle(src.tick), tgtOracle(tgt.tick), names[i];
    assert f in names && CanSelect(src.account, f) && CanSelect(tgt.account, f);
    CountMapOfListing(src.account, sa);
    CountMapOfListing(tgt.account, ta);
    VerdictIsPass(srcOracle, src.(tick := src.tick + 1), tgtOracle, tgt.(tick := tgt.tick + 1),
                  CountMap(ListReply(src.account, sa).value), CountMap(ListReply(tgt.account, ta).value),
                  names, i, sa.counts, ta.counts);
  }

  lemma VerdictIsPass(srcOracle: Oracle, src: Remote, tgtOracle: Oracle, tgt: Remote, srcMap: map<string, nat>,
                      tgtMap: map<string, nat>, names: seq<string>, i: nat, srcCounts: bool, tgtCounts: bool)
    requires (forall n :: n in names ==> n in srcMap && n in tgtMap) && i < |names| && names[i] in names
    requires names[i] in src.account.folders && srcMap[names[i]] == ReportedCount(src.account, names[i], srcCounts)
    requires names[i] in tgt.account.folders && tgtMap[names[i]] == ReportedCount(tgt.account, names[i], tgtCounts)
    ensures
      var results := CompareFolders(srcOracle, src, tgtOracle, tgt, srcMap, tgtMap, names);
      && |results| == |names|
      && (results[i].OK() <==> FolderPasses(srcOracle, TurnOf(srcOracle, src, names, i), tgtOracle,
                                            TurnOf(tgtOracle, tgt, names, i), srcCounts, tgtCounts, names[i]))
  {
    hide CompareFolders, FolderSize, FolderPasses, TurnOf, SizeOrZero, ReportedCount;
    VerdictAtTurn(srcOracle, src, tgtOracle, tgt, srcMap, tgtMap, names, i);
    FolderPassesOnEqual(srcOracle, TurnOf(srcOracle, src, names, i), tgtOracle, TurnOf(tgtOracle, tgt, names, i),
                        srcCounts, tgtCounts, names[i]);
  }

  lemma PassingFolderPasses(srcOracle: Oracle, src: Remote, tgtOracle: Oracle, tgt: Remote, f: string, i: nat)
    requires Passes(Verify(srcOracle, src, tgtOracle, tgt)) && CanSelect(src.account, f)
    requires IsTurn(srcOracle, src, tgtOracle, tgt, f, i)
    ensures CanSelect(tgt.account, f)
    ensures
      var names := CommonNames(src.account, srcOracle(src.tick), tgt.account, tgtOracle(tgt.tick));
      FolderPasses(srcOracle, TurnOf(srcOracle, src.(tick := src.tick + 1), names, i),
                   tgtOracle, TurnOf(tgtOracle, tgt.(tick := tgt.tick + 1), names, i),
                   srcOracle(src.tick).counts, tgtOracle(tgt.tick).counts, f)
  {
    hide Verify, CommonNames, FolderPasses, TurnOf, Results, ListReply, CanSelect;
    var names := CommonNames(src.account, srcOracle(src.tick), tgt.account, tgtOracle(tgt.tick));
    VerifyInSteps(srcOracle, src, tgtOracle, tgt);
    assert names[i] in names;
    ResultIsVerdict(srcOracle, src, tgtOracle, tgt, names, i);
  }

  /** Soundness of a whole verification: when a mailbox passes, and a target folder arose from its
      source folder only by dropping messages or cutting bodies short, and there is evidence for the
      folder at its turn, then nothing was dropped from it and nothing cut. */
  lemma PassingMeansIntact(srcOracle: Oracle, src: Remote, tgtOracle: Oracle, tgt: Remote,
                           from: map<uint32, uint32>, f: string, i: nat)
    requires Passes(Verify(srcOracle, src, tgtOracle, tgt))
    requires CanSelect(src.account, f) && Sized(src.account.folders[f])
    requires f in tgt.account.folders ==> DegradedBy(tgt.account.folders[f], src.account.folders[f], from)
    requires IsTurn(srcOracle, src, tgtOracle, tgt, f, i)
    requires
      var names := CommonNames(src.account, srcOracle(src.tick), tgt.account, tgtOracle(tgt.tick));
      HasEvidence(srcOracle, TurnOf(srcOracle, src.(tick := src.tick + 1), names, i).tick,
                  srcOracle(src.tick).counts, tgtOracle(tgt.tick).counts)
    ensures CanSelect(tgt.account, f) && Intact(tgt.account.folders[f], src.account.folders[f], from)
  {
    hide Passes, Verify, CommonNames, FolderPasses, HasEvidence, Sized, DegradedBy, Intact, FolderSize;
    PassingFolderPasses(srcOracle, src, tgtOracle, tgt, f, i);
    var names := CommonNames(src.account, srcOracle(src.tick), tgt.account, tgtOracle(tgt.tick));
    EvidenceSuffices(srcOracle, TurnOf(srcOracle, src.(tick := src.tick + 1), names, i),
                     tgtOracle, TurnOf(tgtOracle, tgt.(tick := tgt.tick + 1), names, i),
                     srcOracle(src.tick).counts, tgtOracle(tgt.tick).counts, f, from);
  }

  // ---------------------------------------------------------------- what a verification reports

  function Compared(results: seq<FolderResult>): (names: seq<string>)
    ensures |names| == |results| && forall i :: 0 <= i < |names| ==> names[i] == results[i].name
  {
    seq(|results|, i requires 0 <= i < |results| => results[i].name)
  }

  /** Every selectable folder is reported once: as missing, as extra, or as compared. */
  ghost predicate NamesAreRight(r: MailboxResult, src: Account, tgt: Account) {
    && SortedNames(r.missing) && SortedNames(r.extra) && SortedNames(Compared(r.folders))
    && (forall f :: f in r.missing <==> CanSelect(src, f) && !CanSelect(tgt, f))
    && (forall f :: f in r.extra <==> CanSelect(tgt, f) && !CanSelect(src, f))
    && (forall f :: f in Compared(r.folders) <==> CanSelect(src, f) && CanSelect(tgt, f))
  }

  /** The counts are those of the listings, 0 where these have none. */
  ghost predicate CountsAreRight(results: seq<FolderResult>, src: Account, srcCounts: bool, tgt: Account,
                                 tgtCounts: bool)
  {
    forall x :: x in results ==>
      && x.name in src.folders && x.srcCount == (if srcCounts then |src.folders[x.name].msgs| else 0)
      && x.name in tgt.folders && x.tgtCount == (if tgtCounts then |tgt.folders[x.name].msgs| else 0)
  }

  /** A size is the total of the folder in 64 bits, or 0 if the server did not answer for it. */
  ghost predicate IsSize(size: nat, fo: Folder, answered: bool) {
    size == TotalSize(fo) % 0x1_0000_0000_0000_0000 || (size == 0 && !answered)
  }

  ghost predicate SizesAreRight(results: seq<FolderResult>, src: Account, srcAnswers: bool, tgt: Account,
                                tgtAnswers: bool)
  {
    forall x :: x in results ==>
      && x.name in src.folders && IsSize(x.srcSize, src.folders[x.name], srcAnswers)
      && x.name in tgt.folders && IsSize(x.tgtSize, tgt.folders[x.name], tgtAnswers)
  }

  lemma SizeIsRight(oracle: Oracle, r: Remote, f: string)
    requires CanSelect(r.account, f)
    ensures IsSize(SizeOrZero(FolderSize(oracle, r, f).1), r.account.folders[f], AlwaysAcks(oracle))
  {
    AnsweredSize(oracle, r, f);
    hide TotalSize, FolderSize;
  }

  /** One result, at the turn of its folder. */
  lemma ResultIsRight(srcOracle: Oracle, src: Remote, tgtOracle: Oracle, tgt: Remote, names: seq<string>, i: nat)
    requires ListReply(src.account, srcOracle(src.tick)).Some? && ListReply(tgt.account, tgtOracle(tgt.tick)).Some?
    requires (forall f :: f in names ==> CanSelect(src.account, f) && CanSelect(tgt.account, f)) && i < |names|
    ensures
      var results := Results(srcOracle, src, tgtOracle, tgt, names);
      && |results| == |names| && names[i] in names && results[i].name == names[i]
      && results[i].srcCount == ReportedCount(src.account, names[i], srcOracle(src.tick).counts)
      && results[i].tgtCount == ReportedCount(tgt.account, names[i], tgtOracle(tgt.tick).counts)
      && IsSize(results[i].srcSize, src.account.folders[names[i]], AlwaysAcks(srcOracle))
      && IsSize(results[i].tgtSize, tgt.account.folders[names[i]], AlwaysAcks(tgtOracle))
  {
    hide CountMap, ListReply, CompareFolders, TurnOf, ReportedCount, IsSize, AlwaysAcks, FolderSize, SizeOrZero;
    var sa, ta, f := srcOracle(src.tick), tgtOracle(tgt.tick), names[i];
    assert f in names && CanSelect(src.account, f) && CanSelect(tgt.account, f);
    CountMapOfListing(src.account, sa);
    CountMapOfListing(tgt.account, ta);
    var src', tgt' := src.(tick := src.tick + 1), tgt.(tick := tgt.tick + 1);
    VerdictAtTurn(srcOracle, src', tgtOracle, tgt', CountMap(ListReply(src.account, sa).value),
                  CountMap(ListReply(tgt.account, ta).value), names, i);
    SizeIsRight(srcOracle, TurnOf(srcOracle, src', names, i), f);
    SizeIsRight(tgtOracle, TurnOf(tgtOracle, tgt', names, i), f);
  }

  lemma VerifyNames(srcOracle: Oracle, src: Remote, tgtOracle: Oracle, tgt: Remote)
    requires ListReply(src.account, srcOracle(src.tick)).Some? && ListReply(tgt.account, tgtOracle(tgt.tick)).Some?
    ensures
      var r := Verify(srcOracle, src, tgtOracle, tgt);
      && SortedNames(r.missing) && SortedNames(r.extra)
      && (forall f :: f in r.missing <==> CanSelect(src.account, f) && !CanSelect(tgt.account, f))
      && (forall f :: f in r.extra <==> CanSelect(tgt.account, f) && !CanSelect(src.account, f))
  {
    CountMapOfListing(src.account, srcOracle(src.tick));
    CountMapOfListing(tgt.account, tgtOracle(tgt.tick));
    hide CanSelect, CountMap, ListReply, CompareFolders;
  }

  /** What `Verify` says in the end, told of the two accounts alone. */
  lemma VerifyReports(srcOracle: Oracle, src: Remote, tgtOracle: Oracle, tgt: Remote)
    ensures
      var r := Verify(srcOracle, src, tgtOracle, tgt);
      var sa, ta := srcOracle(src.tick), tgtOracle(tgt.tick);
      && r.error == (if !sa.outcome.Acked? then Some(ListSourceFailed)
                     else if !ta.outcome.Acked? then Some(ListTargetFailed) else None)
      && (r.error.Some? ==> r.missing == [] && r.extra == [] && r.folders == [])
      && (r.error.None? ==>
            && NamesAreRight(r, src.account, tgt.account)
            && CountsAreRight(r.folders, src.account, sa.counts, tgt.account, ta.counts)
            && SizesAreRight(r.folders, src.account, AlwaysAcks(srcOracle), tgt.account, AlwaysAcks(tgtOracle)))
  {
    VerifyErrors(srcOracle, src, tgtOracle, tgt);
    var sa, ta := srcOracle(src.tick), tgtOracle(tgt.tick);
    ListingAnswered(src.account, sa);
    ListingAnswered(tgt.account, ta);
    hide ListReply, CommonNames, Results, CanSelect, IsSize, AlwaysAcks, Verify;
    if sa.outcome.Acked? && ta.outcome.Acked? {
      VerifyInSteps(srcOracle, src, tgtOracle, tgt);
      VerifyNames(srcOracle, src, tgtOracle, tgt);
      var names := CommonNames(src.account, sa, tgt.account, ta);
      CommonAscend(src.account, sa, tgt.account, ta);
      ResultsAreRight(srcOracle, src, tgtOracle, tgt, names);
      hide CountsAreRight, SizesAreRight, SortedNames;
      assert Compared(Verify(srcOracle, src, tgtOracle, tgt).folders) == names;
    }
  }

  lemma ListingAnswered(a: Account, ans: Answer)
    ensures ListReply(a, ans).Some? <==> ans.outcome.Acked?
  {
  }

  lemma VerifyErrors(srcOracle: Oracle, src: Remote, tgtOracle: Oracle, tgt: Remote)
    ensures
      var r := Verify(srcOracle, src, tgtOracle, tgt);
      var sa, ta := srcOracle(src.tick), tgtOracle(tgt.tick);
      && r.error == (if !sa.outcome.Acked? then Some(ListSourceFailed)
                     else if !ta.outcome.Acked? then Some(ListTargetFailed) else None)
      && (r.error.Some? ==> r.missing == [] && r.extra == [] && r.folders == [])
  {
    ListingAnswered(src.account, srcOracle(src.tick));
    ListingAnswered(tgt.account, tgtOracle(tgt.tick));
    hide ListReply, CountMap, CompareFolders;
  }

  lemma CommonAscend(src: Account, sa: Answer, tgt: Account, ta: Answer)
    requires ListReply(src, sa).Some? && ListReply(tgt, ta).Some?
    ensures SortedNames(CommonNames(src, sa, tgt, ta))
  {
  }

  lemma ResultsAreRight(srcOracle: Oracle, src: Remote, tgtOracle: Oracle, tgt: Remote, names: seq<string>)
    requires ListReply(src.account, srcOracle(src.tick)).Some? && ListReply(tgt.account, tgtOracle(tgt.tick)).Some?
    requires forall f :: f in names ==> CanSelect(src.account, f) && CanSelect(tgt.account, f)
    ensures
      var results := Results(srcOracle, src, tgtOracle, tgt, names);
      && |results| == |names| && (forall i :: 0 <= i < |names| ==> results[i].name == names[i])
      && CountsAreRight(results, src.account, srcOracle(src.tick).counts, tgt.account, tgtOracle(tgt.tick).counts)
      && SizesAreRight(results, src.account, AlwaysAcks(srcOracle), tgt.account, AlwaysAcks(tgtOracle))
  {
    hide ListReply, CommonNames, Results, IsSize, AlwaysAcks;
    var results := Results(srcOracle, src, tgtOracle, tgt, names);
    if names == [] {
      NoNamesNoResults(srcOracle, src, tgtOracle, tgt);
    } else {
      ResultIsRight(srcOracle, src, tgtOracle, tgt, names, 0);
      forall i | 0 <= i < |names|
        ensures
          && names[i] in names && results[i].name == names[i]
          && results[i].srcCount == ReportedCount(src.account, names[i], srcOracle(src.tick).counts)
          && results[i].tgtCount == ReportedCount(tgt.account, names[i], tgtOracle(tgt.tick).counts)
          && IsSize(results[i].srcSize, src.account.folders[names[i]], AlwaysAcks(srcOracle))
          && IsSize(results[i].tgtSize, tgt.account.folders[names[i]], AlwaysAcks(tgtOracle))
      {
        ResultIsRight(srcOracle, src, tgtOracle, tgt, names, i);
      }
    }
  }

  lemma NoNamesNoResults(srcOracle: Oracle, src: Remote, tgtOracle: Oracle, tgt: Remote)
    requires ListReply(src.account, srcOracle(src.tick)).Some? && ListReply(tgt.account, tgtOracle(tgt.tick)).Some?
    ensures Results(srcOracle, src, tgtOracle, tgt, []) == []
  {
    hide ListReply, CountMap;
  }

  // ---------------------------------------------------------------- the methods

  /** `folderTotalSize`. Nothing on the server changes. */
  method FolderTotalSize(c: Client, name: string) returns (size: Option<nat>)
    modifies c`selected, c.server
    ensures (c.server.Value(), size) == FolderSize(c.server.oracle, old(c.server.Value()), name)
    ensures c.server.account == old(c.server.account)
  {
    var info := c.Select(name);
    if info.None? {
      return None;
    }
    if info.value.messages == 0 {
      return Some(0);
    }
    size := c.FetchAllSizes();
  }

  method BuildCountMap(es: seq<Entry>) returns (m: map<string, nat>)
    ensures m == CountMap(es)
  {
    m := map[];
    for i := 0 to |es|
      invariant m == CountMap(es[..i])
    {
      assert es[..i + 1][..i] == es[..i];
      if !es[i].IsNoSelect() {
        var count := 0;
        if es[i].messages.Some? {
          count := es[i].messages.value;
        }
        m := m[es[i].name := count];
      }
    }
    assert es[..|es|] == es;
  }

  lemma CompareNext(srcOracle: Oracle, src: Remote, tgtOracle: Oracle, tgt: Remote,
                    srcMap: map<string, nat>, tgtMap: map<string, nat>, names: seq<string>, i: nat)
    requires (forall n :: n in names ==> n in srcMap && n in tgtMap) && i < |names|
    ensures names[i] in names && forall n :: n in names[i..] ==> n in names
    ensures
      var (src', s) := FolderSize(srcOracle, src, names[i]);
      var (tgt', t) := FolderSize(tgtOracle, tgt, names[i]);
      CompareFolders(srcOracle, src, tgtOracle, tgt, srcMap, tgtMap, names[i..]) ==
      [FolderResult(names[i], srcMap[names[i]], tgtMap[names[i]], SizeOrZero(s), SizeOrZero(t))]
      + CompareFolders(srcOracle, src', tgtOracle, tgt', srcMap, tgtMap, names[i + 1..])
  {
    hide FolderSize;
    assert names[i..][0] == names[i] && names[i..][1..] == names[i + 1..];
  }

  /** The comparison of one folder. */
  method CompareOne(src: Client, tgt: Client, name: string, srcCount: nat, tgtCount: nat) returns (result: FolderResult)
    requires src != tgt && src.server != tgt.server
    modifies src`selected, tgt`selected, src.server, tgt.server
    ensures
      var (src', s) := FolderSize(src.server.oracle, old(src.server.Value()), name);
      var (tgt', t) := FolderSize(tgt.server.oracle, old(tgt.server.Value()), name);
      && src.server.Value() == src' && tgt.server.Value() == tgt'
      && result == FolderResult(name, srcCount, tgtCount, SizeOrZero(s), SizeOrZero(t))
    ensures src.server.account == old(src.server.account) && tgt.server.account == old(tgt.server.account)
  {
    hide FolderSize, SizeOrZero;
    var s := FolderTotalSize(src, name);
    var t := FolderTotalSize(tgt, name);
    return FolderResult(name, srcCount, tgtCount, SizeOrZero(s), SizeOrZero(t));
  }

  lemma AppendFirst(a: seq<FolderResult>, r: FolderResult, b: seq<FolderResult>)
    ensures (a + [r]) + b == a + ([r] + b)
  {
  }

  /** The loop over the folders of both sides. */
  method CompareAll(src: Client, tgt: Client, srcMap: map<string, nat>, tgtMap: map<string, nat>, names: seq<string>)
    returns (results: seq<FolderResult>)
    requires src != tgt && src.server != tgt.server
    requires forall n :: n in names ==> n in srcMap && n in tgtMap
    modifies src`selected, tgt`selected, src.server, tgt.server
    ensures results == CompareFolders(src.server.oracle, old(src.server.Value()), tgt.server.oracle,
                                      old(tgt.server.Value()), srcMap, tgtMap, names)
    ensures src.server.account == old(src.server.account) && tgt.server.account == old(tgt.server.account)
  {
    results := [];
    ghost var all := CompareFolders(src.server.oracle, src.server.Value(), tgt.server.oracle, tgt.server.Value(),
                                    srcMap, tgtMap, names);
    assert names[0..] == names;
    for i := 0 to |names|
      invariant results + CompareFolders(src.server.oracle, src.server.Value(), tgt.server.oracle, tgt.server.Value(),
                                         srcMap, tgtMap, names[i..]) == all
      invariant src.server.account == old(src.server.account) && tgt.server.account == old(tgt.server.account)
    {
      hide FolderSize, CompareFolders, SizeOrZero;
      ghost var source, target := src.server.Value(), tgt.server.Value();
      CompareNext(src.server.oracle, source, tgt.server.oracle, target, srcMap, tgtMap, names, i);
      var result := CompareOne(src, tgt, names[i], srcMap[names[i]], tgtMap[names[i]]);
      ghost var rest := CompareFolders(src.server.oracle, src.server.Value(), tgt.server.oracle, tgt.server.Value(),
                                       srcMap, tgtMap, names[i + 1..]);
      AppendFirst(results, result, rest);
      results := results + [result];
    }
    assert names[|names|..] == [];
  }

  /** The body of `verifyMailbox` between connecting and closing. */
  method Compare(src: Client, tgt: Client) returns (result: MailboxResult)
    requires src != tgt && src.server != tgt.server
    modifies src`selected, tgt`selected, src.server, tgt.server
    ensures result == Verify(src.server.oracle, old(src.server.Value()), tgt.server.oracle, old(tgt.server.Value()))
    ensures src.server.account == old(src.server.account) && tgt.server.account == old(tgt.server.account)
  {
    hide ListReply, CompareFolders, CountMap;
    var srcList := src.ListFolders();
    if srcList.None? {
      return MailboxResult(Some(ListSourceFailed), [], [], []);
    }
    var tgtList := tgt.ListFolders();
    if tgtList.None? {
      return MailboxResult(Some(ListTargetFailed), [], [], []);
    }
    var srcMap := BuildCountMap(srcList.value);
    var tgtMap := BuildCountMap(tgtList.value);
    var missing := AscendingNames(srcMap.Keys - tgtMap.Keys);
    var extra := AscendingNames(tgtMap.Keys - srcMap.Keys);
    var common := AscendingNames(srcMap.Keys * tgtMap.Keys);
    var folders := CompareAll(src, tgt, srcMap, tgtMap, common);
    return MailboxResult(None, missing, extra, folders);
  }

  /** `verifyMailbox` on connected clients: the verdict of `Verify`, or an error of the deferred
      closing. Both accounts stay as they are. */
  method CompareAndClose(src: Client, tgt: Client) returns (result: MailboxResult)
    requires src != tgt && src.server != tgt.server && !src.gone && !tgt.gone
    modifies src, tgt, src.server, tgt.server
    ensures var r := Verify(src.server.oracle, old(src.server.Value()), tgt.server.oracle, old(tgt.server.Value()));
            result == r || (r.error.None? && result == r.(error := Some(CloseFailed)))
    ensures AlwaysAcks(src.server.oracle) && AlwaysAcks(tgt.server.oracle) ==> result.error.None?
    ensures result.error.None? ==> src.gone && tgt.gone
    ensures result.error == Some(CloseFailed) ==> !src.gone || !tgt.gone
    ensures src.server.account == old(src.server.account) && tgt.server.account == old(tgt.server.account)
    ensures src.closes == old(src.closes) + 1 && tgt.closes == old(tgt.closes) + 1
  {
    result := Compare(src, tgt);
    assert result.error != Some(CloseFailed);
    assert AlwaysAcks(src.server.oracle) && AlwaysAcks(tgt.server.oracle) ==> result.error.None?;
    hide Verify, CompareFolders, CountMap;
    var tgtClosed := tgt.Close();
    if !tgtClosed && result.error.None? {
      result := result.(error := Some(CloseFailed));
    }
    var srcClosed := src.Close();
    if !srcClosed && result.error.None? {
      result := result.(error := Some(CloseFailed));
    }
  }

  /** `verifyMailbox`: if a server cannot be reached, an error, and nothing is asked of the other one;
      else the verdict of `Verify` or an error of closing. Every client made is closed once. If there
      is no error, the lists have exactly the selectable folders that one side lacks, and the folders
      of both sides are compared by their true counts and sizes as far as the servers told them. */
  method VerifyMailbox(source: Server, target: Server, sourceUp: bool, targetUp: bool)
    returns (result: MailboxResult, ghost clients: set<Client>)
    requires source != target
    modifies source, target
    ensures !sourceUp ==>
      result == MailboxResult(Some(SourceConnectFailed), [], [], []) && source.tick == old(source.tick)
    ensures sourceUp && !targetUp ==>
      result == MailboxResult(Some(TargetConnectFailed), [], [], []) && source.tick == old(source.tick) + 1
    ensures !sourceUp || !targetUp ==> target.tick == old(target.tick)
    ensures sourceUp && targetUp ==>
      var r := Verify(source.oracle, old(source.Value()), target.oracle, old(target.Value()));
      result == r || (r.error.None? && result == r.(error := Some(CloseFailed)))
    ensures result.error in {None, Some(CloseFailed)} <==>
      sourceUp && targetUp && old(source.Next()).outcome.Acked? && old(target.Next()).outcome.Acked?
    ensures result.error == Some(ListSourceFailed) <==>
      sourceUp && targetUp && !old(source.Next()).outcome.Acked?
    ensures result.error == Some(ListTargetFailed) <==>
      sourceUp && targetUp && old(source.Next()).outcome.Acked? && !old(target.Next()).outcome.Acked?
    ensures result.error in {None, Some(CloseFailed)} ==>
      && (forall f :: f in result.missing <==> CanSelect(source.account, f) && !CanSelect(target.account, f))
      && (forall f :: f in result.extra <==> CanSelect(target.account, f) && !CanSelect(source.account, f))
      && NamesAreRight(result, source.account, target.account)
      && CountsAreRight(result.folders, source.account, old(source.Next()).counts, target.account,
                        old(target.Next()).counts)
      && SizesAreRight(result.folders, source.account, AlwaysAcks(source.oracle), target.account,
                       AlwaysAcks(target.oracle))
    ensures result.error.None? ==> forall c :: c in clients ==> c.gone
    ensures result.error == Some(CloseFailed) ==> exists c :: c in clients && !c.gone
    ensures sourceUp && targetUp && AlwaysAcks(source.oracle) && AlwaysAcks(target.oracle) ==> result.error.None?
    ensures source.account == old(source.account) && target.account == old(target.account)
    ensures |clients| == (if !sourceUp then 0 else if !targetUp then 1 else 2)
    ensures forall c :: c in clients ==> fresh(c) && c.closes == 1
  {
    hide Verify;
    clients := {};
    if !sourceUp {
      return MailboxResult(Some(SourceConnectFailed), [], [], []), clients;
    }
    var src := new Client(source);
    if !targetUp {
      var closed := src.Close();
      return MailboxResult(Some(TargetConnectFailed), [], [], []), {src};
    }
    var tgt := new Client(target);
    VerifyReports(source.oracle, source.Value(), target.oracle, target.Value());
    hide AlwaysAcks, CanSelect, IsSize;
    result := CompareAndClose(src, tgt);
    clients := {src, tgt};
    assert src in clients && tgt in clients;
  }

  // ---------------------------------------------------------------- losses that pass

  /** With INBOX alone on both sides a mailbox passes exactly if this one folder does. */
  lemma PassesLikeInbox(srcOracle: Oracle, src: Remote, tgtOracle: Oracle, tgt: Remote)
    requires srcOracle(src.tick).outcome.Acked? && tgtOracle(tgt.tick).outcome.Acked?
    requires CanSelect(src.account, INBOX) && src.account.folders.Keys == {INBOX}
    requires CanSelect(tgt.account, INBOX) && tgt.account.folders.Keys == {INBOX}
    ensures
      Passes(Verify(srcOracle, src, tgtOracle, tgt)) <==>
      FolderPasses(srcOracle, src.(tick := src.tick + 1), tgtOracle, tgt.(tick := tgt.tick + 1),
                   srcOracle(src.tick).counts, tgtOracle(tgt.tick).counts, INBOX)
  {
    var sa, ta := srcOracle(src.tick), tgtOracle(tgt.tick);
    assert ListReply(src.account, sa).Some? && ListReply(tgt.account, ta).Some?;
    OnlySelectable(src.account, sa);
    OnlySelectable(tgt.account, ta);
    hide ListReply, CountMap, FolderPasses, Verify, Results, TurnOf;
    JustOneName(INBOX);
    assert {INBOX} * {INBOX} == {INBOX};
    assert CommonNames(src.account, sa, tgt.account, ta) == [INBOX];
    VerifyInSteps(srcOracle, src, tgtOracle, tgt);
    ResultIsVerdict(srcOracle, src, tgtOracle, tgt, [INBOX], 0);
    FirstTurn(srcOracle, src.(tick := src.tick + 1), [INBOX]);
    FirstTurn(tgtOracle, tgt.(tick := tgt.tick + 1), [INBOX]);
  }

  lemma FirstTurn(oracle: Oracle, r: Remote, names: seq<string>)
    ensures TurnOf(oracle, r, names, 0) == r
  {
  }

  lemma OnlySelectable(a: Account, ans: Answer)
    requires ListReply(a, ans).Some? && CanSelect(a, INBOX) && a.folders.Keys == {INBOX}
    ensures CountMap(ListReply(a, ans).value).Keys == {INBOX}
  {
    CountMapOfListing(a, ans);
    hide ListReply, CountMap;
    assert forall f :: f in CountMap(ListReply(a, ans).value).Keys <==> f == INBOX;
  }

  lemma JustOneName(n: string)
    ensures AscendingNames({n}) == [n]
  {
    var names := AscendingNames({n});
    assert Elements(names) == {n};
    ElementsOfNoDup(names);
    assert names[0] in names;
  }

  /** A failed size fetch is only logged: if the source refuses it, a truncated message passes. */
  lemma TruncationPassesWithoutSizes(listing: Answer, failing: Answer) returns (oracle: Oracle)
    requires listing.outcome.Acked? && listing.counts && failing.outcome.Refused?
    ensures Passes(Verify(oracle, Remote(OneMessage([1]), 0), oracle, Remote(OneMessage([]), 0)))
  {
    oracle := k => if k == 0 then listing else failing;
    InboxesCanBeSelected();
    CutPassesWithoutSize(oracle, 1, oracle, 1);
    OnlyInbox();
    hide Passes, Verify, FolderPasses, OneMessage;
    PassesLikeInbox(oracle, Remote(OneMessage([1]), 0), oracle, Remote(OneMessage([]), 0));
  }

  /** A missing count is taken for 0: if the source reports none, a dropped message without a body
      passes, though every command is acknowledged and both sizes are fetched. */
  lemma DropPassesWithoutCounts(answer: Answer) returns (oracle: Oracle)
    requires answer.outcome.Acked? && !answer.counts
    ensures forall k :: oracle(k) == answer
    ensures Passes(Verify(oracle, Remote(OneMessage([]), 0), oracle, Remote(NO_MESSAGE, 0)))
    ensures FolderSize(oracle, Remote(OneMessage([]), 1), INBOX).1.Some?
      && FolderSize(oracle, Remote(NO_MESSAGE, 1), INBOX).1.Some?
    ensures !Intact(NO_MESSAGE.folders[INBOX], OneMessage([]).folders[INBOX], map[])
  {
    oracle := k => answer;
    InboxesCanBeSelected();
    DroppedPassesWithoutCounts(oracle, 1, oracle, 1, false);
    OnlyInbox();
    hide Passes, Verify, FolderPasses, OneMessage, Intact, TotalSize;
    PassesLikeInbox(oracle, Remote(OneMessage([]), 0), oracle, Remote(NO_MESSAGE, 0));
  }

  lemma OnlyInbox()
    ensures OneMessage([]).folders.Keys == OneMessage([1]).folders.Keys == NO_MESSAGE.folders.Keys == {INBOX}
  {
  }
}
