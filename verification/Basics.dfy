/** Vocabulary shared by the whole model: 32-bit numbers, options, Go's string order, and
    the ascending listing of a finite set of UIDs. */
module Basics {
  const TWO_TO_32: int := 0x1_0000_0000

  /** Go's `uint32`, the type of UIDs, UIDVALIDITY values and message counts. */
  type uint32 = n: int | 0 <= n < 0x1_0000_0000

  /** An opaque instant; 0 is Go's zero `time.Time`. */
  type Timestamp = nat

  datatype Option<+T> = None | Some(value: T)

  // ---------------------------------------------------------------- sets and sequences

  predicate NoDup<T(==)>(s: seq<T>) {
    forall i, j :: 0 <= i < j < |s| ==> s[i] != s[j]
  }

  function Elements<T>(s: seq<T>): set<T> {
    set x | x in s
  }

  /** Without repeats a listing is as long as its set of elements is large. */
  lemma {:induction false} ElementsOfNoDup<T>(s: seq<T>)
    requires NoDup(s)
    ensures |Elements(s)| == |s|
  {
    if s == [] {
    } else {
      var rest := s[1..];
      ElementsOfNoDup(rest);
      assert s[0] !in rest;
      assert Elements(s) == {s[0]} + Elements(rest) by { assert s == [s[0]] + rest; }
    }
  }

  /** The values of a map along a list of its keys. */
  function Along(m: map<uint32, uint32>, keys: seq<uint32>): (r: seq<uint32>)
    requires forall k :: k in keys ==> k in m
    ensures |r| == |keys| && forall i :: 0 <= i < |r| ==> r[i] == m[keys[i]]
  {
    seq(|keys|, i requires 0 <= i < |keys| => assert keys[i] in keys; m[keys[i]])
  }

  ghost predicate StrictlyAscending(s: seq<int>) {
    forall i, j :: 0 <= i < j < |s| ==> s[i] < s[j]
  }

  /** An element of a non-empty set. */
  lemma Inhabitant<T>(s: set<T>) returns (x: T)
    requires s != {}
    ensures x in s
  {
    assert (forall y | y in s :: false) ==> s == {};
    x :| x in s;
  }

  lemma {:induction false} MinExists(s: set<int>)
    requires s != {}
    ensures exists m :: m in s && forall x :: x in s ==> m <= x
  {
    var x := Inhabitant(s);
    var rest := s - {x};
    assert forall y :: y in s && y != x ==> y in rest;
    if rest == {} {
      assert forall y :: y in s ==> x <= y;
    } else {
      MinExists(rest);
      var m :| m in rest && forall y :: y in rest ==> m <= y;
      var least := if m < x then m else x;
      assert least in s && forall y :: y in s ==> least <= y;
    }
  }

  /** At most `n` numbers are below `n`. */
  lemma {:induction false} CardinalityBound(s: set<int>, n: nat)
    requires forall x :: x in s ==> 0 <= x < n
    ensures |s| <= n
    decreases n
  {
    if n == 0 {
      if s != {} {
        var x := Inhabitant(s);
        assert false;
      }
    } else {
      CardinalityBound(s - {n - 1}, n - 1);
      if n - 1 in s { assert |s - {n - 1}| == |s| - 1; } else { assert s - {n - 1} == s; }
    }
  }

  function Min(s: set<int>): (m: int)
    requires s != {}
    ensures m in s && forall x :: x in s ==> m <= x
  {
    MinExists(s);
    var m :| m in s && forall x :: x in s ==> m <= x;
    m
  }

  lemma FirstAscends(m: uint32, rest: seq<uint32>, s: set<uint32>)
    requires m in s && (forall x :: x in s ==> m <= x)
    requires StrictlyAscending(rest) && |rest| == |s - {m}| && forall x :: x in rest <==> x in s - {m}
    ensures StrictlyAscending([m] + rest) && |[m] + rest| == |s| && forall x :: x in [m] + rest <==> x in s
  {
    forall i | 0 <= i < |rest| ensures m < rest[i] {
      assert rest[i] in rest;
      assert rest[i] in s - {m};
    }
  }

  /** The elements of a set in ascending order. */
  function Ascending(s: set<uint32>): (r: seq<uint32>)
    ensures |r| == |s|
    ensures forall x :: x in r <==> x in s
    ensures StrictlyAscending(r)
  {
    if s == {} then []
    else
      var m: uint32 := Min(s);
      var rest := Ascending(s - {m});
      FirstAscends(m, rest, s);
      [m] + rest
  }

  /** A set has one strictly ascending listing only. */
  lemma {:induction false} AscendingUnique(a: seq<uint32>, b: seq<uint32>)
    requires StrictlyAscending(a) && StrictlyAscending(b)
    requires forall x :: x in a <==> x in b
    ensures a == b
  {
    if a == [] {
      assert forall i :: 0 <= i < |b| ==> b[i] in a;
    } else {
      assert a[0] in a && a[0] in b;
      assert b[0] in b && b[0] in a;
      forall x ensures x in a[1..] <==> x in b[1..] {
        assert x in a[1..] <==> x in a && x != a[0];
        assert x in b[1..] <==> x in b && x != b[0];
      }
      AscendingUnique(a[1..], b[1..]);
    }
  }

  // ---------------------------------------------------------------- Go's string order

  /** `a < b` on Go strings: bytewise lexicographic order. */
  predicate Less(a: string, b: string) {
    b != [] && (a == [] || a[0] < b[0] || (a[0] == b[0] && Less(a[1..], b[1..])))
  }

  lemma {:induction false} LessIrreflexive(a: string)
    ensures !Less(a, a)
  {
    if a == [] {
    } else {
      LessIrreflexive(a[1..]);
    }
  }

  lemma {:induction false} LessTransitive(a: string, b: string, c: string)
    requires Less(a, b) && Less(b, c)
    ensures Less(a, c)
  {
    if a != [] && a[0] == b[0] && b[0] == c[0] { LessTransitive(a[1..], b[1..], c[1..]); }
  }

  lemma {:induction false} LessTotal(a: string, b: string)
    ensures a == b || Less(a, b) || Less(b, a)
  {
    if a != [] && b != [] && a[0] == b[0] { LessTotal(a[1..], b[1..]); }
  }

  /** A proper prefix comes first: this is what makes a name sort respect a hierarchy. */
  lemma {:induction false} PrefixLess(a: string, b: string)
    requires a < b
    ensures Less(a, b)
  {
    if a == [] {
    } else {
      PrefixLess(a[1..], b[1..]);
    }
  }

  /** The first different character decides. */
  lemma {:induction false} LessAtDifference(common: string, x: char, a: string, y: char, b: string)
    requires x != y
    ensures Less(common + [x] + a, common + [y] + b) <==> x < y
  {
    if common == [] {
      assert [x] + a == common + [x] + a && [y] + b == common + [y] + b;
    } else {
      assert (common + [x] + a)[1..] == common[1..] + [x] + a;
      assert (common + [y] + b)[1..] == common[1..] + [y] + b;
      LessAtDifference(common[1..], x, a, y, b);
    }
  }

  ghost predicate SortedNames(s: seq<string>) {
    forall i, j :: 0 <= i < j < |s| ==> Less(s[i], s[j])
  }

  predicate IsLeast(x: string, s: set<string>) {
    x in s && forall y :: y in s && y != x ==> Less(x, y)
  }

  lemma {:induction false} LeastExists(s: set<string>)
    requires s != {}
    ensures exists x :: IsLeast(x, s)
  {
    var x := Inhabitant(s);
    var rest := s - {x};
    if rest == {} {
      assert s == {x};
      assert IsLeast(x, s);
    } else {
      LeastExists(rest);
      var m :| IsLeast(m, rest);
      LessTotal(x, m);
      var least := if Less(x, m) then x else m;
      forall y | y in s && y != least ensures Less(least, y) {
        if least == x && y != m { LessTransitive(x, m, y); }
      }
      assert IsLeast(least, s);
    }
  }

  lemma LeastUnique(s: set<string>, x: string, y: string)
    requires IsLeast(x, s) && IsLeast(y, s)
    ensures x == y
  {
    if x != y {
      LessTransitive(x, y, x);
      LessIrreflexive(x);
    }
  }

  function Least(s: set<string>): (x: string)
    requires s != {}
    ensures IsLeast(x, s)
  {
    LeastExists(s);
    assert forall x, y :: IsLeast(x, s) && IsLeast(y, s) ==> x == y by {
      forall x, y | IsLeast(x, s) && IsLeast(y, s) ensures x == y { LeastUnique(s, x, y); }
    }
    var x :| IsLeast(x, s);
    x
  }

  /** The names of a set in ascending order. */
  function AscendingNames(s: set<string>): (r: seq<string>)
    ensures SortedNames(r) && NoDup(r)
    ensures forall x :: x in r <==> x in s
  {
    if s == {} then []
    else
      var m := Least(s);
      var rest := AscendingNames(s - {m});
      assert forall i :: 0 <= i < |rest| ==> rest[i] in rest;
      [m] + rest
  }
}
