/** The fetcher goroutine and the copier loop of `copyFolder` as two processes joined by a
    channel of capacity 2 (internal/mailbox/copy.go:147-237): every interleaving refines the
    plain sequential loop, none deadlocks, and each one ends with the channel closed. */
module Pipeline {
  import opened Basics
  import opened Imap
  import opened MessageCopy
  import Milestones

  const BATCH_SIZE := 50
  const CAPACITY := 2

  /** One batch as sent over the channel. */
  datatype Batch = Fetched(msgs: seq<Message>) | FetchFailed

  /** `fetch` answers the n-th batch request; nothing is assumed about its answers here. */
  datatype Env = Env(ctx: Context, uids: seq<uint32>, fetch: (nat, seq<uint32>) -> Batch, progress: int)

  datatype Failure = FetchError | ContextCancelled | MessagesFailed(count: nat)

  /** The copier's variables: the world, `currentIdx`, `msgFailCount`, the milestone ladder and
      `copyErr`. */
  datatype Tally = Tally(world: World, done: nat, fails: nat, ladder: Milestones.Ladder, failure: Option<Failure>)

  function Start(env: Env, w: World): Tally {
    Tally(w, 0, 0, Milestones.Ladder(env.progress, []), None)
  }

  // ---------------------------------------------------------------- the sequential loop

  /** One round of the inner loop. */
  function ProcessMessage(env: Env, t: Tally, msg: Message): Tally {
    var (w, ok) := CopyMessage(env.ctx, t.world, msg);
    Tally(w, t.done + 1, t.fails + (if ok then 0 else 1),
          Milestones.Climb(t.ladder, env.progress, |env.uids|, t.done + 1), t.failure)
  }

  function ProcessMessages(env: Env, t: Tally, msgs: seq<Message>): Tally
    decreases msgs
  {
    if msgs == [] then t else ProcessMessages(env, ProcessMessage(env, t, msgs[0]), msgs[1..])
  }

  function NoteFailure(t: Tally, f: Failure): Tally {
    if t.failure == None then t.(failure := Some(f)) else t
  }

  function Request(env: Env, start: nat): seq<uint32>
    requires start < |env.uids|
  {
    env.uids[start..if start + BATCH_SIZE > |env.uids| then |env.uids| else start + BATCH_SIZE]
  }

  function FetchAt(env: Env, start: nat): Batch
    requires start < |env.uids|
  {
    env.fetch(start / BATCH_SIZE, Request(env, start))
  }

  /** The plain loop from position `start`: fetch a batch, stop if that fails, else copy it. */
  function Sequential(env: Env, t: Tally, start: nat): Tally
    decreases |env.uids| - start
  {
    if start >= |env.uids| then t
    else match FetchAt(env, start)
      case FetchFailed => NoteFailure(t, FetchError)
      case Fetched(msgs) => Sequential(env, ProcessMessages(env, t, msgs), start + BATCH_SIZE)
  }

  /** The error `copyFolder` returns after its loop, given `copyErr` and `msgFailCount`. */
  function Verdict(noted: Option<Failure>, fails: nat): Option<Failure> {
    if noted.Some? then noted else if fails > 0 then Some(MessagesFailed(fails)) else None
  }

  function Result(t: Tally): Option<Failure> { Verdict(t.failure, t.fails) }

  // ---------------------------------------------------------------- the two processes

  /** `start` is the fetcher's loop variable. It is about to test its loop condition and the
      context, holds a batch to send, has left its loop, or has closed the channel. */
  datatype Fetcher = Checking(start: nat) | Sending(start: nat, batch: Batch) | Leaving(start: nat) | Closed(start: nat)

  /** The copier waits for a batch, is inside one, or has seen the channel closed and drained. */
  datatype Copier = Receiving | Copying(rest: seq<Message>) | Finished

  datatype State = State(fetcher: Fetcher, channel: seq<Batch>, copier: Copier, cancelled: bool, tally: Tally)

  function Initial(env: Env, w: World): State {
    State(Checking(0), [], Receiving, false, Start(env, w))
  }

  predicate FetcherCanStep(s: State) {
    !s.fetcher.Closed? && (s.fetcher.Sending? ==> |s.channel| < CAPACITY)
  }

  function FetcherStep(env: Env, s: State): State
    requires FetcherCanStep(s)
  {
    match s.fetcher
    case Checking(start) =>
      if start >= |env.uids| || s.cancelled then s.(fetcher := Leaving(start))
      else s.(fetcher := Sending(start, FetchAt(env, start)))
    case Sending(start, batch) =>
      s.(channel := s.channel + [batch],
         fetcher := if batch.FetchFailed? then Leaving(start) else Checking(start + BATCH_SIZE))
    case Leaving(start) => s.(fetcher := Closed(start))
  }

  predicate CopierCanStep(s: State) {
    s.copier.Copying? || (s.copier.Receiving? && (s.channel != [] || s.fetcher.Closed?))
  }

  function CopierStep(env: Env, s: State): State
    requires CopierCanStep(s)
  {
    match s.copier
    case Receiving =>
      if s.channel == [] then s.(copier := Finished)
      else (
        match s.channel[0]
        case FetchFailed => s.(channel := s.channel[1..], tally := NoteFailure(s.tally, FetchError))
        case Fetched(msgs) => s.(channel := s.channel[1..], copier := Copying(msgs)))
    case Copying(rest) =>
      if rest == [] then s.(copier := Receiving)
      else if s.cancelled then s.(copier := Receiving, tally := NoteFailure(s.tally, ContextCancelled))
      else s.(copier := Copying(rest[1..]), tally := ProcessMessage(env, s.tally, rest[0]))
  }

  datatype Actor = FetcherActs | CopierActs | ContextEnds

  ghost predicate Step(env: Env, s: State, s': State, actor: Actor) {
    match actor
    case FetcherActs => FetcherCanStep(s) && s' == FetcherStep(env, s)
    case CopierActs => CopierCanStep(s) && s' == CopierStep(env, s)
    case ContextEnds => !s.cancelled && s' == s.(cancelled := true)
  }

  /** A run: states joined by steps of the named actors. */
  ghost predicate IsRun(env: Env, w: World, states: seq<State>, actors: seq<Actor>) {
    && |states| == |actors| + 1
    && states[0] == Initial(env, w)
    && forall i :: 0 <= i < |actors| ==> Step(env, states[i], states[i + 1], actors[i])
  }

  // ---------------------------------------------------------------- what is delivered

  function MessagesOf(b: Batch): seq<Message> { if b.Fetched? then b.msgs else [] }

  function MessagesIn(bs: seq<Batch>): seq<Message> {
    if bs == [] then [] else MessagesOf(bs[0]) + MessagesIn(bs[1..])
  }

  /** The batches an undisturbed fetcher still sends from position `start` on. */
  function Upcoming(env: Env, start: nat): seq<Batch>
    decreases |env.uids| - start
  {
    if start >= |env.uids| then []
    else
      var b := FetchAt(env, start);
      [b] + (if b.FetchFailed? then [] else Upcoming(env, start + BATCH_SIZE))
  }

  /** All messages of an undisturbed run, up to the first failing batch. */
  function Delivered(env: Env): seq<Message> { MessagesIn(Upcoming(env, 0)) }

  predicate FetchBreaks(env: Env) { FetchFailed in Upcoming(env, 0) }

  lemma {:induction false} ProcessInParts(env: Env, t: Tally, a: seq<Message>, b: seq<Message>)
    ensures ProcessMessages(env, t, a + b) == ProcessMessages(env, ProcessMessages(env, t, a), b)
    decreases a
  {
    if a == [] {
      assert a + b == b;
    } else {
      assert (a + b)[0] == a[0] && (a + b)[1..] == a[1..] + b;
      ProcessInParts(env, ProcessMessage(env, t, a[0]), a[1..], b);
    }
  }

  lemma {:induction false} MessagesInParts(a: seq<Batch>, b: seq<Batch>)
    ensures MessagesIn(a + b) == MessagesIn(a) + MessagesIn(b)
  {
    if a == [] {
      assert a + b == b;
    } else {
      assert (a + b)[0] == a[0] && (a + b)[1..] == a[1..] + b;
      MessagesInParts(a[1..], b);
    }
  }

  /** The tally counts exactly what `CopyAll` does, in step with the milestone ladder. */
  lemma {:induction false} ProcessIsCopyAll(env: Env, t: Tally, msgs: seq<Message>)
    ensures
      var t' := ProcessMessages(env, t, msgs);
      var (w, fails) := CopyAll(env.ctx, t.world, msgs);
      && t'.world == w && t'.done == t.done + |msgs| && t'.fails == t.fails + fails && t'.failure == t.failure
      && (t.ladder == Milestones.LadderAt(env.progress, |env.uids|, t.done) ==>
            t'.ladder == Milestones.LadderAt(env.progress, |env.uids|, t'.done))
    decreases msgs
  {
    if msgs == [] {
    } else {
      hide CopyMessage;
      ProcessIsCopyAll(env, ProcessMessage(env, t, msgs[0]), msgs[1..]);
    }
  }

  /** The sequential loop copies the delivered messages in order, then fails if a fetch did. */
  lemma {:induction false} SequentialIsDelivered(env: Env, t: Tally, start: nat)
    ensures
      var t' := ProcessMessages(env, t, MessagesIn(Upcoming(env, start)));
      Sequential(env, t, start) == if FetchFailed in Upcoming(env, start) then NoteFailure(t', FetchError) else t'
    decreases |env.uids| - start
  {
    if start < |env.uids| {
      hide ProcessMessage;
      var b := FetchAt(env, start);
      if b.Fetched? {
        var t1 := ProcessMessages(env, t, b.msgs);
        var rest := Upcoming(env, start + BATCH_SIZE);
        SequentialIsDelivered(env, t1, start + BATCH_SIZE);
        assert ([b] + rest)[1..] == rest;
        ProcessInParts(env, t, b.msgs, MessagesIn(rest));
      } else {
        assert Upcoming(env, start) == [b];
        assert MessagesIn([b]) == [] by { assert [b][1..] == []; }
      }
    }
  }

  // ---------------------------------------------------------------- the invariant of every run

  function RestOf(c: Copier): seq<Message> { if c.Copying? then c.rest else [] }

  predicate Broken(s: State) { s.tally.failure == Some(ContextCancelled) }

  /** A failed batch is on its way to the copier, or has reached it. */
  predicate FailurePending(s: State) {
    s.tally.failure == Some(FetchError) || FetchFailed in s.channel
        || (s.fetcher.Sending? && s.fetcher.batch.FetchFailed?)
  }

  /** The tally is that of the first `done` delivered messages. */
  ghost predicate TallyInv(env: Env, w: World, s: State) {
    && s.tally.done <= |Delivered(env)|
    && s.tally.(failure := None) == ProcessMessages(env, Start(env, w), Delivered(env)[..s.tally.done])
  }

  /** Unless the copier gave up, nothing delivered is lost: it is in the copier's hands, in the
      channel, or still to be fetched. */
  ghost predicate FlowInv(env: Env, s: State) {
    !Broken(s) && s.tally.done <= |Delivered(env)| ==>
      Delivered(env)[s.tally.done..] ==
      RestOf(s.copier) + (MessagesIn(s.channel) + MessagesIn(Upcoming(env, s.fetcher.start)))
  }

  ghost predicate ControlInv(env: Env, s: State) {
    && |s.channel| <= CAPACITY
    && (s.fetcher.Sending? ==> s.fetcher.start < |env.uids| && s.fetcher.batch == FetchAt(env, s.fetcher.start))
    && (s.copier.Finished? ==> s.fetcher.Closed? && s.channel == [])
    && (Broken(s) ==> s.cancelled)
    && (s.tally.failure.Some? ==> s.tally.failure.value in {FetchError, ContextCancelled})
    && (s.tally.failure == Some(FetchError) ==> s.channel == [] && !s.copier.Copying?)
    && (FetchFailed in s.channel || s.tally.failure == Some(FetchError) ==> s.fetcher.Leaving? || s.fetcher.Closed?)
    && (FailurePending(s) ==> s.fetcher.start < |env.uids| && FetchAt(env, s.fetcher.start).FetchFailed?)
    && (forall i :: 0 <= i < |s.channel| - 1 ==> s.channel[i].Fetched?)
    && ((s.fetcher.Leaving? || s.fetcher.Closed?) && !Broken(s) ==>
          s.fetcher.start >= |env.uids| || FailurePending(s) || s.cancelled)
  }

  /** Whether some fetch fails is known from what is pending and what is to come. */
  ghost predicate BreakInv(env: Env, s: State) {
    && (FailurePending(s) ==> FetchBreaks(env))
    && (!FailurePending(s) && !Broken(s) ==> (FetchBreaks(env) <==> FetchFailed in Upcoming(env, s.fetcher.start)))
  }

  /** The fetcher's position says how many batches it has asked for. */
  ghost predicate PositionInv(env: Env, s: State) {
    && s.fetcher.start % BATCH_SIZE == 0
    && |Upcoming(env, 0)| == s.fetcher.start / BATCH_SIZE + |Upcoming(env, s.fetcher.start)|
  }

  ghost predicate Inv(env: Env, w: World, s: State) {
    TallyInv(env, w, s) && FlowInv(env, s) && ControlInv(env, s) && BreakInv(env, s) && PositionInv(env, s)
  }

  lemma InitialInv(env: Env, w: World)
    ensures Inv(env, w, Initial(env, w))
  {
    var d := Delivered(env);
    assert d[..0] == [] && d[0..] == d;
    assert [] + d == d;
  }

  /** The batches from position `start` on, given the one that is fetched there. */
  lemma UpcomingFrom(env: Env, start: nat)
    requires start < |env.uids|
    ensures
      var b := FetchAt(env, start);
      var later := if b.FetchFailed? then [] else Upcoming(env, start + BATCH_SIZE);
      && Upcoming(env, start) == [b] + later
      && MessagesIn(Upcoming(env, start)) == MessagesOf(b) + MessagesIn(later)
  {
    hide FetchAt;
    var b := FetchAt(env, start);
    var later := if b.FetchFailed? then [] else Upcoming(env, start + BATCH_SIZE);
    assert ([b] + later)[0] == b && ([b] + later)[1..] == later;
  }

  lemma Reassociate<T>(a: seq<T>, b: seq<T>, c: seq<T>)
    ensures a + (b + c) == (a + b) + c
  {
  }

  lemma MessagesInOne(b: Batch)
    ensures MessagesIn([b]) == MessagesOf(b)
  {
    assert [b][1..] == [];
    assert MessagesOf(b) + [] == MessagesOf(b);
  }

  /** Sending a batch moves it from what is to come into the channel. */
  lemma SendingKeepsFlow(channel: seq<Batch>, b: Batch, later: seq<Message>)
    ensures MessagesIn(channel) + (MessagesOf(b) + later) == MessagesIn(channel + [b]) + later
  {
    hide MessagesIn, MessagesOf;
    calc {
      MessagesIn(channel) + (MessagesOf(b) + later);
    ==  { Reassociate(MessagesIn(channel), MessagesOf(b), later); }
      (MessagesIn(channel) + MessagesOf(b)) + later;
    ==  { MessagesInOne(b); MessagesInParts(channel, [b]); }
      MessagesIn(channel + [b]) + later;
    }
  }

  lemma FetcherKeepsFlow(env: Env, s: State)
    requires FlowInv(env, s) && ControlInv(env, s) && FetcherCanStep(s)
    ensures FlowInv(env, FetcherStep(env, s))
  {
    hide Delivered, FetchAt, Upcoming, MessagesIn, MessagesOf, CopyMessage;
    match s.fetcher
    case Checking(start) =>
    case Leaving(start) =>
    case Sending(start, b) =>
      var s' := FetcherStep(env, s);
      var later := if b.FetchFailed? then [] else Upcoming(env, start + BATCH_SIZE);
      UpcomingFrom(env, start);
      SendingKeepsFlow(s.channel, b, MessagesIn(later));
      if b.FetchFailed? { NothingAfterFailure(env, start); }
      hide ControlInv;
      assert MessagesIn(s'.channel) + MessagesIn(Upcoming(env, s'.fetcher.start)) ==
             MessagesIn(s.channel) + MessagesIn(Upcoming(env, start));
  }

  lemma NothingAfterFailure(env: Env, start: nat)
    requires start < |env.uids| && FetchAt(env, start).FetchFailed?
    ensures MessagesIn(Upcoming(env, start)) == MessagesIn([]) == []
  {
    UpcomingFrom(env, start);
  }

  lemma FetcherKeepsControl(env: Env, s: State)
    requires ControlInv(env, s) && FetcherCanStep(s)
    ensures ControlInv(env, FetcherStep(env, s))
  {
    hide FetchAt;
    match s.fetcher
    case Checking(start) =>
    case Sending(start, b) =>
      assert FetchFailed !in s.channel;
      assert forall x :: x in s.channel + [b] <==> x in s.channel || x == b;
    case Leaving(start) =>
  }

  lemma FetcherKeepsBreak(env: Env, s: State)
    requires ControlInv(env, s) && BreakInv(env, s) && FetcherCanStep(s)
    ensures BreakInv(env, FetcherStep(env, s))
  {
    hide FetchBreaks;
    match s.fetcher
    case Checking(start) =>
    case Sending(start, b) =>
      var later := if b.FetchFailed? then [] else Upcoming(env, start + BATCH_SIZE);
      assert Upcoming(env, start) == [b] + later;
      assert forall x :: x in s.channel + [b] <==> x in s.channel || x == b;
    case Leaving(start) =>
  }

  lemma FetcherKeepsPosition(env: Env, s: State)
    requires ControlInv(env, s) && PositionInv(env, s) && FetcherCanStep(s)
    ensures PositionInv(env, FetcherStep(env, s))
  {
    hide FetchAt;
    if s.fetcher.Sending? && s.fetcher.batch.Fetched? {
      var start := s.fetcher.start;
      assert Upcoming(env, start) == [s.fetcher.batch] + Upcoming(env, start + BATCH_SIZE);
    }
  }

  lemma CopierKeepsTally(env: Env, w: World, s: State)
    requires TallyInv(env, w, s) && FlowInv(env, s) && ControlInv(env, s) && CopierCanStep(s)
    ensures TallyInv(env, w, CopierStep(env, s))
  {
    if s.copier.Copying? && s.copier.rest != [] && !s.cancelled {
      var d, n := Delivered(env), s.tally.done;
      var rest := s.copier.rest;
      assert d[n..] == rest + (MessagesIn(s.channel) + MessagesIn(Upcoming(env, s.fetcher.start)));
      assert d[n..][0] == rest[0] && d[n] == rest[0];
      assert d[..n + 1] == d[..n] + [rest[0]];
      hide Delivered, ControlInv, CopyMessage, Upcoming, MessagesIn;
      var t := s.tally.(failure := None);
      ProcessInParts(env, Start(env, w), d[..n], [rest[0]]);
      assert ProcessMessages(env, t, [rest[0]]) == ProcessMessage(env, t, rest[0]) by {
        assert [rest[0]][1..] == [];
      }
    }
  }

  lemma CopierKeepsFlow(env: Env, s: State)
    requires FlowInv(env, s) && ControlInv(env, s) && CopierCanStep(s)
    ensures FlowInv(env, CopierStep(env, s))
  {
    hide Delivered, Upcoming, CopyMessage, Milestones.Climb;
    if s.copier.Receiving? && s.channel != [] {
      assert s.channel == [s.channel[0]] + s.channel[1..];
      assert MessagesIn(s.channel) == MessagesOf(s.channel[0]) + MessagesIn(s.channel[1..]);
      assert [] + (MessagesIn(s.channel) + MessagesIn(Upcoming(env, s.fetcher.start)))
          == MessagesOf(s.channel[0]) + (MessagesIn(s.channel[1..]) + MessagesIn(Upcoming(env, s.fetcher.start)));
    } else if s.copier.Copying? && s.copier.rest != [] && !s.cancelled {
      var d, n := Delivered(env), s.tally.done;
      if n + 1 <= |d| { assert d[n + 1..] == d[n..][1..]; }
    }
  }

  lemma CopierKeepsControl(env: Env, s: State)
    requires ControlInv(env, s) && CopierCanStep(s)
    ensures ControlInv(env, CopierStep(env, s))
  {
    hide FetchAt, CopyMessage;
    if s.copier.Receiving? && s.channel != [] {
      assert s.channel == [s.channel[0]] + s.channel[1..];
      assert s.channel[0].FetchFailed? ==> |s.channel| == 1;
      assert forall x :: x in s.channel <==> x == s.channel[0] || x in s.channel[1..];
    }
  }

  lemma CopierKeepsBreak(env: Env, s: State)
    requires ControlInv(env, s) && BreakInv(env, s) && CopierCanStep(s)
    ensures BreakInv(env, CopierStep(env, s))
  {
    hide FetchBreaks, FetchAt, Upcoming, CopyMessage;
    if s.copier.Receiving? && s.channel != [] {
      assert s.channel == [s.channel[0]] + s.channel[1..];
      assert forall x :: x in s.channel <==> x == s.channel[0] || x in s.channel[1..];
    }
  }

  lemma FetcherKeepsInv(env: Env, w: World, s: State)
    requires Inv(env, w, s) && FetcherCanStep(s)
    ensures Inv(env, w, FetcherStep(env, s))
  {
    hide FlowInv, ControlInv, BreakInv, PositionInv, FetchAt;
    FetcherKeepsFlow(env, s);
    FetcherKeepsControl(env, s);
    FetcherKeepsBreak(env, s);
    FetcherKeepsPosition(env, s);
  }

  lemma CopierKeepsInv(env: Env, w: World, s: State)
    requires Inv(env, w, s) && CopierCanStep(s)
    ensures Inv(env, w, CopierStep(env, s))
  {
    hide TallyInv, FlowInv, ControlInv, BreakInv, ProcessMessage;
    CopierKeepsTally(env, w, s);
    CopierKeepsFlow(env, s);
    CopierKeepsControl(env, s);
    CopierKeepsBreak(env, s);
  }

  lemma CancelKeepsInv(env: Env, w: World, s: State)
    requires Inv(env, w, s)
    ensures Inv(env, w, s.(cancelled := true))
  {
    hide Delivered, Upcoming, FetchAt, MessagesIn, ProcessMessages, FetchBreaks;
  }

  lemma StepKeepsInv(env: Env, w: World, s: State, s': State, actor: Actor)
    requires Inv(env, w, s) && Step(env, s, s', actor)
    ensures Inv(env, w, s')
  {
    hide Inv, FetcherStep, CopierStep;
    match actor
    case FetcherActs => FetcherKeepsInv(env, w, s);
    case CopierActs => CopierKeepsInv(env, w, s);
    case ContextEnds => CancelKeepsInv(env, w, s);
  }

  lemma {:induction false} RunKeepsInv(env: Env, w: World, states: seq<State>, actors: seq<Actor>, i: nat)
    requires IsRun(env, w, states, actors) && i < |states|
    ensures Inv(env, w, states[i])
  {
    if i == 0 {
      InitialInv(env, w);
    } else {
      RunKeepsInv(env, w, states, actors, i - 1);
      StepKeepsInv(env, w, states[i - 1], states[i], actors[i - 1]);
    }
  }

  // ---------------------------------------------------------------- results about all runs

  /** Refinement: without cancellation, every interleaving ends with the tally of the plain
      sequential loop: same worlds, counters, milestones and error. */
  lemma RefinesSequential(env: Env, w: World, states: seq<State>, actors: seq<Actor>)
    requires IsRun(env, w, states, actors)
    requires var last := states[|states| - 1]; last.copier.Finished? && !last.cancelled
    ensures states[|states| - 1].tally == Sequential(env, Start(env, w), 0)
    ensures FetchBreaks(env) || |Upcoming(env, 0)| == (|env.uids| + 49) / 50
  {
    var last := states[|states| - 1];
    RunKeepsInv(env, w, states, actors, |states| - 1);
    FinishedUncancelled(env, w, last);
    if !FetchBreaks(env) { UpcomingCount(env, 0); }
  }

  lemma FinishedUncancelled(env: Env, w: World, s: State)
    requires Inv(env, w, s) && s.copier.Finished? && !s.cancelled
    ensures s.tally == Sequential(env, Start(env, w), 0)
    ensures s.tally.done == |Delivered(env)|
  {
    var d := Delivered(env);
    var start := s.fetcher.start;
    assert MessagesIn(Upcoming(env, start)) == [] by { NothingUpcoming(env, start); }
    assert d[s.tally.done..] == [];
    assert d[..s.tally.done] == d;
    SequentialIsDelivered(env, Start(env, w), 0);
    ProcessIsCopyAll(env, Start(env, w), d);
  }

  lemma NothingUpcoming(env: Env, start: nat)
    requires start >= |env.uids| || FetchAt(env, start).FetchFailed?
    ensures MessagesIn(Upcoming(env, start)) == []
  {
    if start < |env.uids| {
      assert Upcoming(env, start) == [FetchFailed];
      assert [FetchFailed][1..] == [];
    }
  }

  /** Request number `k` asks for the UIDs from number 50 * k on, fifty of them or what is left. */
  lemma RequestsAreFifties(env: Env, k: nat)
    requires 50 * k < |env.uids|
    ensures Request(env, 50 * k) ==
      if 50 * k + 50 > |env.uids| then env.uids[50 * k..] else env.uids[50 * k..50 * k + 50]
    ensures FetchAt(env, 50 * k) == env.fetch(k, Request(env, 50 * k))
  {
  }

  /** If none fails, so many requests are left from position `start` on. */
  lemma {:induction false} UpcomingCount(env: Env, start: nat)
    requires start <= |env.uids| && FetchFailed !in Upcoming(env, start)
    ensures |Upcoming(env, start)| == (|env.uids| - start + 49) / 50
    decreases |env.uids| - start
  {
    if start < |env.uids| {
      var b := FetchAt(env, start);
      assert b == Upcoming(env, start)[0];
      if start + BATCH_SIZE <= |env.uids| {
        UpcomingCount(env, start + BATCH_SIZE);
      } else {
        assert Upcoming(env, start + BATCH_SIZE) == [];
      }
    }
  }

  /** The number of batches that were requested in a finished, uncancelled run: with no failed fetch
      one for each fifty UIDs begun. */
  lemma RequestsMade(env: Env, w: World, s: State)
    requires Inv(env, w, s) && s.copier.Finished? && !s.cancelled
    ensures |Upcoming(env, 0)| == s.fetcher.start / 50 + (if s.tally.failure.Some? then 1 else 0)
    ensures s.tally.failure == None ==> |Upcoming(env, 0)| == (|env.uids| + 49) / 50
  {
    if s.tally.failure == None { NoFailureNoBreak(env, w, s); UpcomingCount(env, 0); }
    var start := s.fetcher.start;
    if s.tally.failure.Some? {
      assert Upcoming(env, start) == [FetchAt(env, start)];
    }
  }

  lemma NoFailureNoBreak(env: Env, w: World, s: State)
    requires Inv(env, w, s) && s.copier.Finished? && !s.cancelled && s.tally.failure == None
    ensures FetchFailed !in Upcoming(env, 0)
  {
    assert s.fetcher.start >= |env.uids|;
    assert Upcoming(env, s.fetcher.start) == [];
  }

  /** With cancellation, and in every state on the way, the copied messages are a prefix of the
      delivered ones, copied exactly as the sequential loop copies them. */
  lemma CopiesAPrefix(env: Env, w: World, states: seq<State>, actors: seq<Actor>, i: nat)
    requires IsRun(env, w, states, actors) && i < |states|
    ensures
      var t := states[i].tally;
      && t.done <= |Delivered(env)|
      && (t.world, t.fails) == CopyAll(env.ctx, w, Delivered(env)[..t.done])
      && t.ladder == Milestones.LadderAt(env.progress, |env.uids|, t.done)
  {
    RunKeepsInv(env, w, states, actors, i);
    ProcessIsCopyAll(env, Start(env, w), Delivered(env)[..states[i].tally.done]);
  }

  lemma SomeoneMoves(env: Env, w: World, s: State)
    requires Inv(env, w, s)
    ensures s.copier.Finished? || FetcherCanStep(s) || CopierCanStep(s)
    ensures s.copier.Finished? ==> s.fetcher.Closed?
  {
    hide TallyInv, FlowInv, BreakInv, PositionInv;
  }

  /** No deadlock: in every state of every run, nobody can step exactly when the copier is done. The
      channel holds two batches at most, and only a full one keeps the fetcher from sending. */
  lemma StuckMeansFinished(env: Env, w: World, states: seq<State>, actors: seq<Actor>, i: nat)
    requires IsRun(env, w, states, actors) && i < |states|
    ensures !FetcherCanStep(states[i]) && !CopierCanStep(states[i]) <==> states[i].copier.Finished?
    ensures |states[i].channel| <= 2
    ensures states[i].fetcher.Sending? ==> (FetcherCanStep(states[i]) <==> |states[i].channel| < 2)
  {
    RunKeepsInv(env, w, states, actors, i);
    SomeoneMoves(env, w, states[i]);
  }

  /** When the copier is done, the fetcher has closed the channel and makes no more requests. */
  lemma ClosedBeforeReturn(env: Env, w: World, states: seq<State>, actors: seq<Actor>, i: nat)
    requires IsRun(env, w, states, actors) && i < |states| && states[i].copier.Finished?
    ensures states[i].fetcher.Closed? && states[i].channel == []
  {
    RunKeepsInv(env, w, states, actors, i);
  }

  /** Lexicographic measure of a state. */
  datatype Measure = Measure(context: nat, fetcher: nat, channel: nat, copier: nat)

  function MeasureOf(env: Env, s: State): Measure {
    var left := if s.fetcher.start < |env.uids| then |env.uids| - s.fetcher.start else 0;
    Measure(
      if s.cancelled then 0 else 1,
      match s.fetcher
      case Checking(_) => 3 + 2 * left
      case Sending(_, _) => 2 + 2 * left
      case Leaving(_) => 1
      case Closed(_) => 0,
      |s.channel|,
      match s.copier case Copying(rest) => 2 + |rest| case Receiving => 1 case Finished => 0)
  }

  predicate Below(a: Measure, b: Measure) {
    || a.context < b.context
    || (a.context == b.context && a.fetcher < b.fetcher)
    || (a.context == b.context && a.fetcher == b.fetcher && a.channel < b.channel)
    || (a.context == b.context && a.fetcher == b.fetcher && a.channel == b.channel && a.copier < b.copier)
  }

  lemma StepDescends(env: Env, s: State, s': State, actor: Actor)
    requires ControlInv(env, s) && Step(env, s, s', actor)
    ensures Below(MeasureOf(env, s'), MeasureOf(env, s))
  {
    hide CopyMessage;
    if s.fetcher.Sending? { assert s.fetcher.start < |env.uids|; }
  }

  /** Every step of every schedule, cancellation included, makes the measure smaller. */
  lemma EveryStepDescends(env: Env, w: World, states: seq<State>, actors: seq<Actor>, i: nat)
    requires IsRun(env, w, states, actors) && i < |actors|
    ensures Below(MeasureOf(env, states[i + 1]), MeasureOf(env, states[i]))
  {
    RunKeepsInv(env, w, states, actors, i);
    hide MeasureOf, ControlInv, Step;
    assert Step(env, states[i], states[i + 1], actors[i]);
    StepDescends(env, states[i], states[i + 1], actors[i]);
  }

  /** Once the context has ended nothing more is copied, whatever has been fetched, and no batch is asked for
      but the one in the fetcher's hands. */
  lemma {:induction false} NothingAfterTheEnd(env: Env, w: World, states: seq<State>, actors: seq<Actor>, i: nat,
                                              j: nat)
    requires IsRun(env, w, states, actors) && i <= j < |states| && states[i].cancelled
    ensures states[j].cancelled && states[j].tally.(failure := None) == states[i].tally.(failure := None)
    ensures states[j].fetcher.start <= states[i].fetcher.start + 50
    ensures !states[i].fetcher.Sending? ==>
      !states[j].fetcher.Sending? && states[j].fetcher.start == states[i].fetcher.start
    ensures states[i].fetcher.Sending? && states[j].fetcher.Sending? ==> states[j].fetcher == states[i].fetcher
    decreases j
  {
    if i < j {
      hide FetchAt, ProcessMessage;
      NothingAfterTheEnd(env, w, states, actors, i, j - 1);
      assert Step(env, states[j - 1], states[j], actors[j - 1]);
    }
  }

  // ---------------------------------------------------------------- what a nil result means

  /** Without cancellation `copyFolder` returns nil exactly if no fetch and no message failed. */
  lemma NilWithoutCancellation(env: Env, w: World, states: seq<State>, actors: seq<Actor>)
    requires IsRun(env, w, states, actors)
    requires var last := states[|states| - 1]; last.copier.Finished? && !last.cancelled
    ensures
      Result(states[|states| - 1].tally) == None <==>
      !FetchBreaks(env) && CopyAll(env.ctx, w, Delivered(env)).1 == 0
  {
    var last := states[|states| - 1];
    RefinesSequential(env, w, states, actors);
    SequentialIsDelivered(env, Start(env, w), 0);
    ProcessIsCopyAll(env, Start(env, w), Delivered(env));
  }

  /** Every requested UID is answered by one message. */
  ghost predicate AnswersAll(env: Env) {
    forall start :: 0 <= start < |env.uids| && FetchAt(env, start).Fetched? ==>
      |FetchAt(env, start).msgs| == |Request(env, start)|
  }

  /** With cancellation nil does not mean complete. It means that everything fetched was copied
      without failure; the folder is complete exactly if the fetcher got past its check of the
      context for every batch. */
  lemma NilWithCancellation(env: Env, w: World, states: seq<State>, actors: seq<Actor>)
    requires IsRun(env, w, states, actors) && AnswersAll(env)
    requires var last := states[|states| - 1]; last.copier.Finished? && Result(last.tally) == None
    ensures
      var last := states[|states| - 1];
      && last.tally.fails == 0
      && (last.fetcher.start >= |env.uids| <==> !FetchBreaks(env) && last.tally.done == |Delivered(env)|)
      && (last.fetcher.start < |env.uids| ==> last.cancelled)
  {
    var last := states[|states| - 1];
    RunKeepsInv(env, w, states, actors, |states| - 1);
    var start := last.fetcher.start;
    if start < |env.uids| && !FetchBreaks(env) {
      assert FetchAt(env, start) == Upcoming(env, start)[0];
      assert FetchFailed !in Upcoming(env, start);
    }
  }

  /** Every folder copy with a context that can end has a run that returns nil and has copied
      nothing: the context ends before the first batch. */
  lemma NilDespiteMissing(env: Env, w: World) returns (states: seq<State>, actors: seq<Actor>)
    ensures IsRun(env, w, states, actors)
    ensures
      var last := states[|states| - 1];
      && last.copier.Finished? && last.cancelled && Result(last.tally) == None
      && last.tally.done == 0 && last.tally.world == w
  {
    var s0 := Initial(env, w);
    var s1 := s0.(cancelled := true);
    var s2 := s1.(fetcher := Leaving(0));
    var s3 := s2.(fetcher := Closed(0));
    states := [s0, s1, s2, s3, s3.(copier := Finished)];
    actors := [ContextEnds, FetcherActs, FetcherActs, CopierActs];
  }
}
