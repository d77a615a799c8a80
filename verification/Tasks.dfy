/** Tasks that run in parallel over one shared sync state (internal/runner/runner.go:212-267).
    A task is a program that issues locked calls on its own mailbox, one at a time, and decides on
    each reply how to go on; a schedule interleaves the calls of all tasks in any order. */
module Tasks {
  import opened Basics
  import opened SyncState
  import M = MessageCopy

  /** A program over the shared state, ending in a value. Everything else that it works on is its
      own: its target and counters as they stand at a call (`own`, the sync state left blank), and
      its connections and the source in how it goes on. */
  datatype Prog<!E> = Done(end: E) | Ask(own: M.World, op: Op, next: Reply -> Prog<E>)

  /** One locked call; a finished program stays as it is. */
  function Tick<E>(mb: string, p: Prog<E>, c: Contents): (Prog<E>, Contents) {
    match p
    case Done(_) => (p, c)
    case Ask(_, op, next) => (next(Answer(c, mb, op)), Apply(c, mb, op))
  }

  /** The program alone for `n` calls. */
  function Advance<E>(mb: string, p: Prog<E>, c: Contents, n: nat): (Prog<E>, Contents)
    decreases n
  {
    if n == 0 then (p, c) else var (p1, c1) := Tick(mb, p, c); Advance(mb, p1, c1, n - 1)
  }

  lemma {:induction false} AdvanceInParts<E>(mb: string, p: Prog<E>, c: Contents, n: nat, m: nat)
    ensures var (q, d) := Advance(mb, p, c, n); Advance(mb, p, c, n + m) == Advance(mb, q, d, m)
    decreases n
  {
    if n > 0 {
      var (p1, c1) := Tick(mb, p, c);
      AdvanceInParts(mb, p1, c1, n - 1, m);
    }
  }

  lemma {:induction false} DoneStays<E>(mb: string, p: Prog<E>, c: Contents, n: nat)
    requires p.Done?
    ensures Advance(mb, p, c, n) == (p, c)
    decreases n
  {
    if n > 0 { DoneStays(mb, p, c, n - 1); }
  }

  /** The program alone gets from here to there. */
  ghost predicate Reaches<E>(mb: string, p: Prog<E>, c: Contents, q: Prog<E>, d: Contents) {
    exists n: nat :: Advance(mb, p, c, n) == (q, d)
  }

  lemma ReachesItself<E>(mb: string, p: Prog<E>, c: Contents)
    ensures Reaches(mb, p, c, p, c)
  {
    assert Advance(mb, p, c, 0) == (p, c);
  }

  lemma ReachesTransitive<E>(mb: string, p: Prog<E>, c: Contents, q: Prog<E>, d: Contents, r: Prog<E>, e: Contents)
    requires Reaches(mb, p, c, q, d) && Reaches(mb, q, d, r, e)
    ensures Reaches(mb, p, c, r, e)
  {
    var n: nat :| Advance(mb, p, c, n) == (q, d);
    var m: nat :| Advance(mb, q, d, m) == (r, e);
    AdvanceInParts(mb, p, c, n, m);
    assert Advance(mb, p, c, n + m) == (r, e);
  }

  lemma ReachesByCall<E>(mb: string, own: M.World, op: Op, next: Reply -> Prog<E>, c: Contents, r: Prog<E>, e: Contents)
    requires Reaches(mb, next(Answer(c, mb, op)), Apply(c, mb, op), r, e)
    ensures Reaches(mb, Ask(own, op, next), c, r, e)
  {
    var n: nat :| Advance(mb, next(Answer(c, mb, op)), Apply(c, mb, op), n) == (r, e);
    assert Advance(mb, Ask(own, op, next), c, n + 1) == (r, e);
  }

  /** A program ends in one way only. */
  lemma EndIsUnique<E>(mb: string, p: Prog<E>, c: Contents, n: nat, q: Prog<E>, d: Contents)
    requires Reaches(mb, p, c, q, d) && q.Done? && Advance(mb, p, c, n).0.Done?
    ensures Advance(mb, p, c, n) == (q, d)
  {
    var m: nat :| Advance(mb, p, c, m) == (q, d);
    if n <= m {
      AdvanceInParts(mb, p, c, n, m - n);
      DoneStays(mb, Advance(mb, p, c, n).0, Advance(mb, p, c, n).1, m - n);
    } else {
      AdvanceInParts(mb, p, c, m, n - m);
      DoneStays(mb, q, d, n - m);
    }
  }

  // ---------------------------------------------------------------- parallel tasks

  /** Two contents agree on one mailbox. */
  ghost predicate SameAt(c: Contents, d: Contents, mb: string) {
    (mb in c <==> mb in d) && (mb in c ==> c[mb] == d[mb])
  }

  datatype Task<!E> = Task(mailbox: string, prog: Prog<E>)

  ghost predicate DistinctMailboxes<E>(tasks: seq<Task<E>>) {
    forall i, j :: 0 <= i < j < |tasks| ==> tasks[i].mailbox != tasks[j].mailbox
  }

  /** Task number `i` makes its next call. */
  function StepTask<E>(tasks: seq<Task<E>>, c: Contents, i: nat): (seq<Task<E>>, Contents)
    requires i < |tasks|
  {
    var (p, d) := Tick(tasks[i].mailbox, tasks[i].prog, c);
    (tasks[i := tasks[i].(prog := p)], d)
  }

  ghost predicate IsSchedule(schedule: seq<nat>, n: nat) {
    forall k :: 0 <= k < |schedule| ==> schedule[k] < n
  }

  ghost function Interleave<E>(tasks: seq<Task<E>>, c: Contents, schedule: seq<nat>): (r: (seq<Task<E>>, Contents))
    requires IsSchedule(schedule, |tasks|)
    ensures |r.0| == |tasks|
    decreases schedule
  {
    if schedule == [] then (tasks, c)
    else
      var (ts, d) := StepTask(tasks, c, schedule[0]);
      Interleave(ts, d, schedule[1..])
  }

  function Turns(schedule: seq<nat>, i: nat): nat {
    if schedule == [] then 0 else (if schedule[0] == i then 1 else 0) + Turns(schedule[1..], i)
  }

  /** What happens to a mailbox depends on nothing but its own record. */
  lemma {:induction false} AdvanceIsLocal<E>(mb: string, p: Prog<E>, c: Contents, d: Contents, n: nat)
    requires SameAt(c, d, mb)
    ensures Advance(mb, p, c, n).0 == Advance(mb, p, d, n).0
    ensures SameAt(Advance(mb, p, c, n).1, Advance(mb, p, d, n).1, mb)
    decreases n
  {
    if n > 0 && p.Ask? {
      ApplyIsLocal(c, d, mb, p.op);
      hide Apply, Answer;
      AdvanceIsLocal(mb, p.next(Answer(c, mb, p.op)), Apply(c, mb, p.op), Apply(d, mb, p.op), n - 1);
    } else if n > 0 {
      AdvanceIsLocal(mb, p, c, d, n - 1);
    }
  }

  lemma TickElsewhere<E>(mb: string, p: Prog<E>, c: Contents, other: string)
    requires other != mb
    ensures SameAt(Tick(mb, p, c).1, c, other)
  {
    if p.Ask? {
      ApplyIsLocal(c, c, mb, p.op);
      hide Apply;
      assert other in Apply(c, mb, p.op) <==> other in Apply(c, mb, p.op) - {mb};
      assert other in c <==> other in c - {mb};
      if other in c { assert (Apply(c, mb, p.op) - {mb})[other] == (c - {mb})[other]; }
    }
  }

  /** Parallel mailboxes do not interfere: after any interleaving each task stands where it would
      stand after the same number of its own calls alone, and so does the record of its mailbox. */
  lemma {:induction false} NoInterference<E>(tasks: seq<Task<E>>, c: Contents, schedule: seq<nat>, i: nat)
    requires DistinctMailboxes(tasks) && IsSchedule(schedule, |tasks|) && i < |tasks|
    ensures
      var (ts, d) := Interleave(tasks, c, schedule);
      var (p, e) := Advance(tasks[i].mailbox, tasks[i].prog, c, Turns(schedule, i));
      ts[i] == Task(tasks[i].mailbox, p) && SameAt(d, e, tasks[i].mailbox)
    decreases schedule
  {
    if schedule == [] {
    } else {
      var j := schedule[0];
      var (ts, d) := StepTask(tasks, c, j);
      NoInterference(ts, d, schedule[1..], i);
      if i != j {
        var mb := tasks[i].mailbox;
        assert tasks[j].mailbox != mb;
        TickElsewhere(tasks[j].mailbox, tasks[j].prog, c, mb);
        AdvanceIsLocal(mb, tasks[i].prog, d, c, Turns(schedule[1..], i));
      }
    }
  }

  /** Mailboxes without a task keep their records. */
  lemma {:induction false} OthersUntouched<E>(tasks: seq<Task<E>>, c: Contents, schedule: seq<nat>, mb: string)
    requires IsSchedule(schedule, |tasks|) && forall i :: 0 <= i < |tasks| ==> tasks[i].mailbox != mb
    ensures SameAt(Interleave(tasks, c, schedule).1, c, mb)
    decreases schedule
  {
    if schedule == [] {
    } else {
      var i := schedule[0];
      var (ts, d) := StepTask(tasks, c, i);
      TickElsewhere(tasks[i].mailbox, tasks[i].prog, c, mb);
      OthersUntouched(ts, d, schedule[1..], mb);
    }
  }

  /** When all tasks are through, each has ended as it would have ended alone. */
  lemma EndsAsAlone<E>(tasks: seq<Task<E>>, c: Contents, schedule: seq<nat>, i: nat, q: Prog<E>, e: Contents)
    requires DistinctMailboxes(tasks) && IsSchedule(schedule, |tasks|) && i < |tasks|
    requires Reaches(tasks[i].mailbox, tasks[i].prog, c, q, e) && q.Done?
    requires Interleave(tasks, c, schedule).0[i].prog.Done?
    ensures Interleave(tasks, c, schedule).0[i].prog == q
    ensures SameAt(Interleave(tasks, c, schedule).1, e, tasks[i].mailbox)
  {
    NoInterference(tasks, c, schedule, i);
    EndIsUnique(tasks[i].mailbox, tasks[i].prog, c, Turns(schedule, i), q, e);
  }
}
