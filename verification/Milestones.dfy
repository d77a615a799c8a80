/** Progress milestones of a folder copy (internal/mailbox/copy.go:184-235): how many are logged,
    and at which messages. */
module Milestones {
  /** The next threshold in percent, and the message numbers at which a milestone was logged. */
  datatype Ladder = Ladder(next: int, logged: seq<nat>)

  /** The milestone check after message number `done`. Go truncates, as `/` does here: neither
      operand is negative. */
  function Climb(l: Ladder, progress: int, total: nat, done: nat): Ladder {
    if progress > 0 && total > 0 && 0 < l.next <= 100 && done * 100 / total >= l.next
    then Ladder(l.next + progress, l.logged + [done])
    else l
  }

  /** The ladder after `done` messages. */
  function LadderAt(progress: int, total: nat, done: nat): Ladder {
    if done == 0 then Ladder(progress, [])
    else Climb(LadderAt(progress, total, done - 1), progress, total, done)
  }

  function Least(a: int, b: int): int { if a <= b then a else b }

  function Percent(done: nat, total: nat): nat
    requires total > 0
  {
    done * 100 / total
  }

  lemma MulMonotone(a: int, b: int, d: nat)
    requires a <= b
    ensures a * d <= b * d
  {
  }

  /** `q` is the quotient of `x` by `d` as soon as it has the quotient's bounds. */
  lemma QuotientUnique(x: int, d: nat, q: int)
    requires d > 0 && q * d <= x < (q + 1) * d
    ensures x / d == q
  {
    var p := x / d;
    assert p * d <= x < (p + 1) * d;
    if p < q {
      MulMonotone(p + 1, q, d);
    } else if q < p {
      MulMonotone(q + 1, p, d);
    }
  }

  lemma QuotientBounds(x: int, d: nat)
    requires d > 0
    ensures x / d * d <= x < (x / d + 1) * d
  {
  }

  lemma NestedQuotient(x: nat, a: nat, b: nat)
    requires a > 0 && b > 0
    ensures a * b > 0 && x / a / b == x / (a * b)
  {
    var y := x / a;
    var q := y / b;
    QuotientBounds(x, a);
    QuotientBounds(y, b);
    MulMonotone(q * b, y, a);
    MulMonotone(y + 1, (q + 1) * b, a);
    assert q * b * a == q * (a * b);
    assert (q + 1) * b * a == (q + 1) * (a * b);
    assert a * b > 0;
    QuotientUnique(x, a * b, q);
  }

  /** The thresholds passed after `i` messages. */
  function Passed(i: nat, d: nat): nat
    requires d > 0
  {
    i * 100 / d
  }

  lemma PassedGrows(i: nat, d: nat)
    requires d > 0 && i > 0
    ensures Passed(i - 1, d) <= Passed(i, d)
  {
    var p, q := Passed(i - 1, d), Passed(i, d);
    QuotientBounds((i - 1) * 100, d);
    QuotientBounds(i * 100, d);
    if q < p { MulMonotone(q + 1, p, d); }
  }

  lemma PassedOneByOne(i: nat, d: nat)
    requires d >= 100 && i > 0
    ensures Passed(i, d) <= Passed(i - 1, d) + 1
  {
    var p, q := Passed(i - 1, d), Passed(i, d);
    QuotientBounds((i - 1) * 100, d);
    QuotientBounds(i * 100, d);
    assert (p + 2) * d == (p + 1) * d + d;
    if q > p + 1 { MulMonotone(p + 2, q, d); }
  }

  lemma PassedAtMostDone(i: nat, d: nat)
    requires d >= 100
    ensures Passed(i, d) <= i
  {
    var q := Passed(i, d);
    QuotientBounds(i * 100, d);
    MulMonotone(100, d, i);
    assert (i + 1) * d == d * i + d;
    if q > i { MulMonotone(i + 1, q, d); }
  }

  lemma PassedAtLeastDone(i: nat, d: nat)
    requires 0 < d <= 100
    ensures Passed(i, d) >= i
  {
    var q := Passed(i, d);
    QuotientBounds(i * 100, d);
    MulMonotone(d, 100, i);
    if q < i { MulMonotone(q + 1, i, d); }
  }

  lemma PassedSteps(i: nat, d: nat)
    requires d > 0 && i > 0
    ensures Passed(i - 1, d) <= Passed(i, d)
    ensures d >= 100 ==> Passed(i, d) <= Passed(i - 1, d) + 1
    ensures d >= 100 ==> Passed(i, d) <= i
    ensures d <= 100 ==> Passed(i, d) >= i && Passed(i - 1, d) >= i - 1
  {
    hide Passed;
    PassedGrows(i, d);
    if d >= 100 { PassedOneByOne(i, d); PassedAtMostDone(i, d); }
    if d <= 100 { PassedAtLeastDone(i, d); PassedAtLeastDone(i - 1, d); }
  }

  /** Whether the next milestone fires, in terms of thresholds passed. */
  lemma FiresWhenPassed(progress: int, total: nat, i: nat, m: nat)
    requires progress > 0 && 0 < i <= total
    ensures var d := total * progress;
            d > 0 && (0 < progress * (m + 1) <= 100 && Percent(i, total) >= progress * (m + 1) <==>
                      Passed(i, d) >= m + 1)
  {
    var pct := Percent(i, total);
    NestedQuotient(i * 100, total, progress);
    QuotientBounds(pct, progress);
    QuotientBounds(i * 100, total);
    MulMonotone(i, total, 100);
    if pct > 100 { MulMonotone(101, pct, total); }
    if pct >= progress * (m + 1) && pct / progress < m + 1 { MulMonotone(pct / progress + 1, m + 1, progress); }
    if pct / progress >= m + 1 { MulMonotone(m + 1, pct / progress, progress); }
    assert progress * (m + 1) > 0;
  }

  /** One message passes at most one threshold, or there are more thresholds passed than messages. */
  lemma LeastStep(i: nat, before: nat, after: nat, d: nat)
    requires i > 0 && before <= after
    requires d >= 100 ==> after <= before + 1 && after <= i
    requires d <= 100 ==> after >= i && before >= i - 1
    ensures var m := Least(i - 1, before); Least(i, after) == if after >= m + 1 then m + 1 else m
  {
  }

  /** After `i` of `total` messages exactly min(i, percent / progress) milestones are logged. */
  lemma {:induction false} MilestoneCount(progress: int, total: nat, i: nat)
    requires progress > 0 && 0 < total && i <= total
    ensures var l := LadderAt(progress, total, i);
            && |l.logged| == Least(i, Percent(i, total) / progress)
            && l.next == progress * (|l.logged| + 1)
  {
    var d := total * progress;
    NestedQuotient(i * 100, total, progress);
    assert Percent(i, total) / progress == Passed(i, d);
    if i > 0 {
      NestedQuotient((i - 1) * 100, total, progress);
      assert Percent(i - 1, total) / progress == Passed(i - 1, d);
      MilestoneCount(progress, total, i - 1);
      var m := |LadderAt(progress, total, i - 1).logged|;
      FiresWhenPassed(progress, total, i, m);
      PassedSteps(i, d);
      LeastStep(i, Passed(i - 1, d), Passed(i, d), d);
      assert progress * (m + 1) + progress == progress * (m + 2);
      hide Passed;
      assert Percent(i, total) == i * 100 / total;
      hide Percent, Least;
    }
  }

  /** A complete folder logs min(total, 100 / progress) milestones. */
  lemma CompleteCount(progress: int, total: nat)
    requires progress > 0 && total > 0
    ensures |LadderAt(progress, total, total).logged| == Least(total, 100 / progress)
  {
    MilestoneCount(progress, total, total);
    QuotientUnique(total * 100, total, 100);
  }

  /** With at least one message per milestone, milestone k is logged exactly at the first
      message that completes k * progress percent. */
  lemma {:induction false} MilestonePosition(progress: int, total: nat, i: nat, k: nat)
    requires progress > 0 && 0 < total && i <= total && progress * total >= 100
    requires 1 <= k <= |LadderAt(progress, total, i).logged|
    ensures LadderAt(progress, total, i).logged[k - 1] == (k * (progress * total) + 99) / 100
  {
    if k <= |LadderAt(progress, total, i - 1).logged| {
      MilestonePosition(progress, total, i - 1, k);
    } else {
      var d := progress * total;
      assert d == total * progress;
      MilestoneCount(progress, total, i - 1);
      MilestoneCount(progress, total, i);
      NestedQuotient(i * 100, total, progress);
      NestedQuotient((i - 1) * 100, total, progress);
      PassedSteps(i, d);
      if i > 1 { PassedSteps(i - 1, d); }
      QuotientBounds((i - 1) * 100, d);
      QuotientBounds(i * 100, d);
      assert Passed(i - 1, d) == k - 1 && Passed(i, d) == k;
      QuotientUnique(k * d + 99, 100, i);
    }
  }

  /** Milestones are off when the progress setting is not positive, or beyond 100 percent. */
  lemma {:induction false} MilestonesOff(progress: int, total: nat, i: nat)
    requires progress <= 0 || progress > 100
    ensures LadderAt(progress, total, i) == Ladder(progress, [])
  {
    if i > 0 { MilestonesOff(progress, total, i - 1); }
  }
}
