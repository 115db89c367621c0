/** Waking, termination of close, and what remains possible after an error or a close. */
module MultipartLiveness {
  import opened Prelude
  import opened Arithmetic
  import opened S3Service
  import opened AsyncWriting
  import opened Multipart
  import opened MultipartInvariant
  import opened MultipartObject
  import opened MultipartTheorems
  import opened MultipartBounds
  import opened MultipartOutcomes

  // ---- no lost wake-up ----

  predicate RegisteredSince(waker: Option<nat>, since: nat) {
    waker.Some? && since <= waker.value
  }

  /** Some future the writer holds has registered to wake its task at this poll or later. */
  predicate WillBeWoken(w: Writer, since: nat) {
    match w.state
    case Writing(uploads, _, _, _) => exists i :: 0 <= i < |uploads| && RegisteredSince(uploads[i].waker, since)
    case CompletingParts(uploads, _) => exists i :: 0 <= i < |uploads| && RegisteredSince(uploads[i].waker, since)
    case Completing(_, waker) => RegisteredSince(waker, since)
    case _ => false
  }

  lemma {:induction false} PendingUploadsAreRegistered(env: Env, world: World, uploads: seq<Upload>)
    ensures forall f <- PollAll(env, world, uploads).pending :: RegisteredSince(f.waker, world.polls)
    decreases |uploads|
  {
    if uploads != [] {
      var rest, last := uploads[..|uploads|-1], uploads[|uploads|-1];
      var answer := env(world.polls);
      var world1 := World(world.polls + 1, Deliver(world.server, last.part, answer));
      PendingUploadsAreRegistered(env, world1, rest);
      var r1 := PollAll(env, world1, rest);
      forall f | f in PollAll(env, world, uploads).pending ensures RegisteredSince(f.waker, world.polls) {
        if f !in r1.pending {
          assert f == last.(waker := Some(world.polls));
        }
      }
    }
  }

  /** The uploads in flight. */
  function InFlight(w: Writer): (uploads: seq<Upload>) {
    match w.state
    case Writing(uploads, _, _, _) => uploads
    case CompletingParts(uploads, _) => uploads
    case _ => []
  }

  lemma {:induction false} CheckPollsAll(env: Env, world: World, uploads: seq<Upload>, completed: seq<CompletedPart>,
                                         since: nat)
    requires since <= world.polls
    ensures forall f <- CheckUploads(env, world, uploads, completed).uploads :: RegisteredSince(f.waker, since)
  {
    PendingUploadsAreRegistered(env, world, uploads);
  }

  /**
   A call that does not fail has polled every upload it leaves in flight, those it has just started
   included; and it wakes its own task exactly when it is pending and nothing else will.
   */
  lemma {:induction false} EveryUploadIsPolled(env: Env, w: Writer, call: Call)
    requires Sound(w)
    ensures var (w', outcome) := Step(env, w, call);
            && (InUse(w) && !outcome.IsError() ==> forall f <- InFlight(w') :: RegisteredSince(f.waker, w.world.polls))
            && w'.woken == w.woken + (if outcome.IsPending() && !WillBeWoken(w', w.world.polls) then 1 else 0)
  {
    match call
    case WriteCall(buf) => WritePollsAll(env, w, buf);
    case FlushCall =>
      if w.state.Writing? {
        CheckPollsAll(env, w.world, w.state.uploads, w.state.completed, w.world.polls);
        SomePolled(Flush(env, w).0.state.uploads, w.world.polls);
      }
    case CloseCall => ClosePollsAll(env, w);
  }

  lemma {:induction false} SomePolled(uploads: seq<Upload>, since: nat)
    requires forall f <- uploads :: RegisteredSince(f.waker, since)
    ensures uploads != [] <==> exists i :: 0 <= i < |uploads| && RegisteredSince(uploads[i].waker, since)
  {
    if uploads != [] {
      assert uploads[0] in uploads;
    }
  }

  lemma {:induction false} TakeBytesPollsAll(env: Env, w: Writer, c: Checked, buffer: seq<byte>, partNumber: int,
                                             taken: seq<byte>)
    requires 0 < w.partSize && 0 < w.maxUploads
    requires |c.uploads| * w.partSize + |buffer| + |taken| <= w.maxUploads * w.partSize
    ensures var (w', r) := TakeBytes(env, w, c, buffer, partNumber, taken);
            && r.Ready? && w'.woken == w.woken
            && forall f <- InFlight(w') :: RegisteredSince(f.waker, c.world.polls)
  {
    var parts := Cut(buffer + taken, w.partSize, partNumber).0;
    CheckPollsAll(env, c.world, c.uploads + Start(parts), c.completed, c.world.polls);
  }

  lemma {:induction false} WritePollsAll(env: Env, w: Writer, buf: seq<byte>)
    requires Sound(w)
    ensures var (w', r) := Write(env, w, buf);
            && (forall f <- InFlight(w') :: RegisteredSince(f.waker, w.world.polls))
            && w'.woken == w.woken + (if r.Pending? && !WillBeWoken(w', w.world.polls) then 1 else 0)
  {
    if w.state.Writing? {
      var Writing(uploads, buffer, partNumber, completed) := w.state;
      var c := CheckUploads(env, w.world, uploads, completed);
      WriteByCases(env, w, buf);
      CheckPollsAll(env, w.world, uploads, completed, w.world.polls);
      SomePolled(c.uploads, w.world.polls);
      var count := Takes(w, |c.uploads|, |buffer|, |buf|);
      if c.outcome.Ok? && count != 0 {
        TakeBytesPollsAll(env, w.(world := c.world, state := NoState), c, buffer, partNumber, buf[..count]);
      }
    }
  }

  lemma {:induction false} StopWritingPollsAll(env: Env, w: Writer, c: Checked, buffer: seq<byte>, partNumber: int,
                                               since: nat)
    requires 0 < w.partSize && |c.uploads| < w.maxUploads && since <= c.world.polls
    ensures var (w', r) := StopWriting(env, w, c, buffer, partNumber);
            && (forall f <- InFlight(w') :: RegisteredSince(f.waker, since))
            && w'.woken == w.woken + (if r.Pending? && !WillBeWoken(w', since) then 1 else 0)
  {
    var last := if buffer == [] then [] else [Part(partNumber, buffer)];
    CheckPollsAll(env, c.world, c.uploads + Start(last), c.completed, since);
    SomePolled(CheckUploads(env, c.world, c.uploads + Start(last), c.completed).uploads, since);
  }

  lemma {:induction false} ClosePollsAll(env: Env, w: Writer)
    requires Sound(w)
    ensures var (w', r) := Close(env, w);
            && (InUse(w) ==> forall f <- InFlight(w') :: RegisteredSince(f.waker, w.world.polls))
            && w'.woken == w.woken + (if r.Pending? && !WillBeWoken(w', w.world.polls) then 1 else 0)
  {
    match w.state
    case Writing(uploads, buffer, partNumber, completed) =>
      var c := CheckUploads(env, w.world, uploads, completed);
      CloseByCases(env, w);
      CheckPollsAll(env, w.world, uploads, completed, w.world.polls);
      SomePolled(c.uploads, w.world.polls);
      if c.outcome.Ok? && |c.uploads| < w.maxUploads {
        StopWritingPollsAll(env, w.(world := c.world, state := NoState), c, buffer, partNumber, w.world.polls);
      }
    case CompletingParts(uploads, completed) =>
      CheckPollsAll(env, w.world, uploads, completed, w.world.polls);
      SomePolled(CheckUploads(env, w.world, uploads, completed).uploads, w.world.polls);
    case _ =>
  }

  /**
   No call is left waiting for nothing: whenever it is pending, the writer has woken its own task
   during the call, or holds a future that was polled during the call and found pending.
   */
  lemma {:induction false} NoLostWakeUp(env: Env, w: Writer, call: Call)
    requires Sound(w)
    ensures var (w', outcome) := Step(env, w, call);
            outcome.IsPending() ==> w'.woken > w.woken || WillBeWoken(w', w.world.polls)
  {
    EveryUploadIsPolled(env, w, call);
  }

  // ---- close terminates ----

  /** Every check of a non-empty list of uploads in this close, and the completion, make progress. */
  predicate Productive(env: Env, w: Writer)
    requires Sound(w)
  {
    match w.state
    case Writing(uploads, buffer, partNumber, completed) =>
      var c := CheckUploads(env, w.world, uploads, completed);
      var last := if buffer == [] then [] else [Part(partNumber, buffer)];
      var all := c.uploads + Start(last);
      && (uploads != [] ==> |c.uploads| < |uploads|)
      && (all != [] ==> |CheckUploads(env, c.world, all, c.completed).uploads| < |all|)
    case CompletingParts(uploads, completed) =>
      uploads != [] ==> |CheckUploads(env, w.world, uploads, completed).uploads| < |uploads|
    case Completing(_, _) => !env(w.world.polls).NotReady?
    case _ => true
  }

  /** How many more productive polls of close can be needed. */
  function Remaining(w: Writer): (polls: nat) {
    match w.state
    case Writing(uploads, _, _, _) => (if uploads == [] then 1 else |uploads|) + 2
    case CompletingParts(uploads, _) => |uploads| + 2
    case _ => 1
  }

  /** A productive poll of close is ready, or moves on for good. */
  lemma {:induction false} CloseMovesOn(env: Env, w: Writer)
    requires Sound(w) && Productive(env, w)
    ensures var (w', r) := Close(env, w); r.Ready? || Remaining(w') < Remaining(w)
  {
    if w.state.Writing? {
      var c := CheckUploads(env, w.world, w.state.uploads, w.state.completed);
      MulMonotone(|c.uploads|, |w.state.uploads|, w.partSize);
      UploadsWithinLimit(|w.state.uploads|, w.maxUploads, w.partSize, |w.state.buffer|);
    }
  }

  function AfterCloses(env: Env, w: Writer, n: nat): (w': Writer)
    requires Sound(w)
    ensures Sound(w')
    decreases n
  {
    if n == 0 then w else AfterCloses(env, Close(env, w).0, n - 1)
  }

  /**
   If every poll is productive, close is ready after at most u + 2 polls with u > 0 uploads in
   flight, and after at most 3 polls with none; and it succeeds exactly when no request polled on the
   way has failed.
   */
  lemma {:induction false} CloseTerminates(env: Env, w: Writer)
    requires Sound(w)
    requires forall i :: 0 <= i < Remaining(w) ==> Productive(env, AfterCloses(env, w, i))
    ensures exists n :: 0 <= n < Remaining(w) && EndsAt(env, w, n)
    decreases Remaining(w)
  {
    assert AfterCloses(env, w, 0) == w;
    CloseMovesOn(env, w);
    var (w', r) := Close(env, w);
    if r.Ready? {
      EndsNow(env, w);
    } else {
      forall i | 0 <= i < Remaining(w') ensures Productive(env, AfterCloses(env, w', i)) {
        assert AfterCloses(env, w, i + 1) == AfterCloses(env, w', i);
      }
      CloseTerminates(env, w');
      var n :| 0 <= n < Remaining(w') && EndsAt(env, w', n);
      EndsLater(env, w, n);
    }
  }

  /** The n + 1st close is ready, and successful if and only if no request polled on the way has failed. */
  ghost predicate EndsAt(env: Env, w: Writer, n: nat)
    requires Sound(w)
  {
    var last := AfterCloses(env, w, n);
    var (w', r) := Close(env, last);
    && r.Ready?
    && (InUse(w) ==> w.world.polls <= w'.world.polls && InUse(last))
    && (InUse(w) ==> (r == Ready(Ok(())) <==> NoFailureIn(env, w.world.polls, w'.world.polls)))
  }

  lemma {:induction false} EndsNow(env: Env, w: Writer)
    requires Sound(w) && Close(env, w).1.Ready?
    ensures EndsAt(env, w, 0)
  {
    assert AfterCloses(env, w, 0) == w;
    CloseOutcome(env, w);
  }

  lemma {:induction false} EndsLater(env: Env, w: Writer, n: nat)
    requires Sound(w) && Close(env, w).1.Pending? && EndsAt(env, Close(env, w).0, n)
    ensures EndsAt(env, w, n + 1)
  {
    var w1 := Close(env, w).0;
    assert AfterCloses(env, w, n + 1) == AfterCloses(env, w1, n);
    CloseOutcome(env, w);
    assert InUse(w);
    NoFailureInTwo(env, w.world.polls, w1.world.polls, Close(env, AfterCloses(env, w1, n)).0.world.polls);
  }

  // ---- and delivers ----

  function Closes(n: nat): (calls: seq<Call>)
    ensures |calls| == n && forall i :: 0 <= i < n ==> calls[i] == CloseCall
  {
    seq(n, i => CloseCall)
  }

  lemma {:induction false} ClosesAsRun(env: Env, w: Writer, n: nat)
    requires Sound(w)
    ensures var (w', outcomes) := Run(env, w, Closes(n));
            w' == AfterCloses(env, w, n) && !FlushFailed(outcomes)
  {
    if n > 0 {
      ClosesAsRun(env, w, n - 1);
      AfterOneMore(env, w, n - 1);
      assert Closes(n) == Closes(n - 1) + [CloseCall];
      RunSnoc(env, w, Closes(n - 1), CloseCall);
      var (w1, outcomes) := Run(env, w, Closes(n - 1));
      FlushFailedSnoc(outcomes, Step(env, w1, CloseCall).1);
    }
  }

  lemma {:induction false} AfterOneMore(env: Env, w: Writer, n: nat)
    requires Sound(w)
    ensures AfterCloses(env, w, n + 1) == Close(env, AfterCloses(env, w, n)).0
    decreases n
  {
    if n > 0 {
      AfterOneMore(env, Close(env, w).0, n - 1);
    }
  }

  lemma {:induction false} FlushFailedInTwo(a: seq<Outcome>, b: seq<Outcome>)
    ensures FlushFailed(a + b) <==> FlushFailed(a) || FlushFailed(b)
  {
    var all := a + b;
    assert forall i :: 0 <= i < |a| ==> all[i] == a[i];
    assert forall i :: 0 <= i < |b| ==> all[|a| + i] == b[i];
  }

  lemma {:induction false} ClosesAcceptNothing(calls: seq<Call>, outcomes: seq<Outcome>, n: nat, more: seq<Outcome>)
    requires |calls| == |outcomes| && |more| == n
    ensures Accepted(calls + Closes(n), outcomes + more) == Accepted(calls, outcomes)
  {
    if n == 0 {
      assert calls + Closes(0) == calls && outcomes + more == outcomes;
    } else {
      var front := calls + Closes(n - 1);
      assert calls + Closes(n) == front + [CloseCall];
      assert outcomes + more == outcomes + more[..n - 1] + [more[n - 1]];
      ClosesAcceptNothing(calls, outcomes, n - 1, more[..n - 1]);
      AcceptedSnoc(front, outcomes + more[..n - 1], CloseCall, more[n - 1]);
    }
  }

  /**
   Delivery. A writer that is in use after any run without a failed flush is closed; every poll is
   productive, and from then on no request fails. Then within the polls of `CloseTerminates` a close
   succeeds, and the object is what was there at first followed by all accepted bytes.
   */
  lemma {:induction false} CloseDelivers(env: Env, o: Origin, partSize: nat, maxUploads: nat, calls: seq<Call>)
    requires 0 < partSize && 0 < maxUploads && ValidOrigin(o) && Sound(OpenAt(partSize, maxUploads, o))
    requires var (w, outcomes) := Run(env, OpenAt(partSize, maxUploads, o), calls);
             && InUse(w) && !FlushFailed(outcomes)
             && (forall i :: 0 <= i < Remaining(w) ==> Productive(env, AfterCloses(env, w, i)))
             && (forall k :: w.world.polls <= k ==> !env(k).Failed?)
    ensures var w0 := OpenAt(partSize, maxUploads, o);
            var (w, outcomes) := Run(env, w0, calls);
            exists n :: 0 < n <= Remaining(w) &&
                        Delivers(env, w0, calls, n, ImportedBytes(o) + Accepted(calls, outcomes))
  {
    var w0 := OpenAt(partSize, maxUploads, o);
    var w := Run(env, w0, calls).0;
    CloseTerminates(env, w);
    var n :| 0 <= n < Remaining(w) && EndsAt(env, w, n);
    DeliversAt(env, o, partSize, maxUploads, calls, n);
    assert 0 < n + 1 <= Remaining(w);
  }

  /** After these calls, n closes end in success with this object. */
  ghost predicate Delivers(env: Env, w0: Writer, calls: seq<Call>, n: nat, bytes: seq<byte>)
    requires Sound(w0)
  {
    var (w, outcomes) := Run(env, w0, calls + Closes(n));
    ClosesOk(outcomes) && w.uploaded == Some(bytes)
  }

  lemma {:induction false} DeliversAt(env: Env, o: Origin, partSize: nat, maxUploads: nat, calls: seq<Call>, n: nat)
    requires 0 < partSize && 0 < maxUploads && ValidOrigin(o) && Sound(OpenAt(partSize, maxUploads, o))
    requires var (w, outcomes) := Run(env, OpenAt(partSize, maxUploads, o), calls);
             && InUse(w) && !FlushFailed(outcomes) && EndsAt(env, w, n)
             && (forall k :: w.world.polls <= k ==> !env(k).Failed?)
    ensures var w0 := OpenAt(partSize, maxUploads, o);
            Delivers(env, w0, calls, n + 1, ImportedBytes(o) + Accepted(calls, Run(env, w0, calls).1))
  {
    var w0 := OpenAt(partSize, maxUploads, o);
    var (w, outcomes) := Run(env, w0, calls);
    var (w', more) := Run(env, w, Closes(n + 1));
    ClosesAsRun(env, w, n + 1);
    LastClose(env, w, n);
    RunInTwo(env, w0, calls, Closes(n + 1));
    FlushFailedInTwo(outcomes, more);
    ClosesAcceptNothing(calls, outcomes, n + 1, more);
    EndToEnd(env, o, partSize, maxUploads, calls + Closes(n + 1));
  }

  lemma {:induction false} LastClose(env: Env, w: Writer, n: nat)
    requires Sound(w) && InUse(w) && EndsAt(env, w, n)
    requires forall k :: w.world.polls <= k ==> !env(k).Failed?
    ensures ClosesOk(Run(env, w, Closes(n + 1)).1)
  {
    ClosesAsRun(env, w, n);
    assert Closes(n + 1) == Closes(n) + [CloseCall];
    RunSnoc(env, w, Closes(n), CloseCall);
    var last := AfterCloses(env, w, n);
    assert NoFailureIn(env, w.world.polls, Close(env, last).0.world.polls);
    assert Close(env, last).1 == Ready(Ok(()));
  }

  /** A service that answers every poll with success makes every poll productive. */
  lemma {:induction false} PromptIsProductive(env: Env, w: Writer)
    requires Sound(w) && forall k :: w.world.polls <= k ==> env(k).Succeeded?
    ensures Productive(env, w)
  {
    match w.state
    case Writing(uploads, buffer, partNumber, completed) =>
      var c := CheckUploads(env, w.world, uploads, completed);
      var last := if buffer == [] then [] else [Part(partNumber, buffer)];
      PromptCheck(env, w.world, uploads, completed);
      PromptCheck(env, c.world, c.uploads + Start(last), c.completed);
    case CompletingParts(uploads, completed) => PromptCheck(env, w.world, uploads, completed);
    case _ =>
  }

  lemma {:induction false} PromptCheck(env: Env, world: World, uploads: seq<Upload>, completed: seq<CompletedPart>)
    requires forall k :: world.polls <= k ==> env(k).Succeeded?
    ensures var c := CheckUploads(env, world, uploads, completed);
            c.uploads == [] && world.polls <= c.world.polls
  {
    PromptLeavesNothing(env, world, uploads);
  }

  lemma {:induction false} PromptLeavesNothing(env: Env, world: World, uploads: seq<Upload>)
    requires forall k :: world.polls <= k ==> env(k).Succeeded?
    ensures PollAll(env, world, uploads).pending == []
    decreases |uploads|
  {
    if uploads != [] {
      var rest, f := uploads[..|uploads|-1], uploads[|uploads|-1];
      var world1 := World(world.polls + 1, Deliver(world.server, f.part, env(world.polls)));
      PromptLeavesNothing(env, world1, rest);
    }
  }

  lemma {:induction false} ClosesOnlyPoll(env: Env, w: Writer, n: nat)
    requires Sound(w)
    ensures w.world.polls <= AfterCloses(env, w, n).world.polls
    decreases n
  {
    if n > 0 {
      CloseOutcome(env, w);
      ClosesOnlyPoll(env, Close(env, w).0, n - 1);
    }
  }

  /** With a service that answers every poll with success, whatever was accepted is delivered. */
  lemma {:induction false} PromptServiceDelivers(env: Env, o: Origin, partSize: nat, maxUploads: nat, calls: seq<Call>)
    requires 0 < partSize && 0 < maxUploads && ValidOrigin(o) && Sound(OpenAt(partSize, maxUploads, o))
    requires var (w, outcomes) := Run(env, OpenAt(partSize, maxUploads, o), calls);
             InUse(w) && !FlushFailed(outcomes) && (forall k :: w.world.polls <= k ==> env(k).Succeeded?)
    ensures var w0 := OpenAt(partSize, maxUploads, o);
            var (w, outcomes) := Run(env, w0, calls);
            exists n :: 0 < n <= Remaining(w) &&
                        Delivers(env, w0, calls, n, ImportedBytes(o) + Accepted(calls, outcomes))
  {
    var w := Run(env, OpenAt(partSize, maxUploads, o), calls).0;
    forall i | 0 <= i < Remaining(w) ensures Productive(env, AfterCloses(env, w, i)) {
      ClosesOnlyPoll(env, w, i);
      PromptIsProductive(env, AfterCloses(env, w, i));
    }
    CloseDelivers(env, o, partSize, maxUploads, calls);
  }

  // ---- flush terminates ----

  /** The check of a non-empty list of uploads in this flush completes one of them. */
  predicate FlushProductive(env: Env, w: Writer) {
    w.state.Writing? && w.state.uploads != [] ==>
      |CheckUploads(env, w.world, w.state.uploads, w.state.completed).uploads| < |w.state.uploads|
  }

  /** How many productive polls of flush can be needed. */
  function FlushPolls(w: Writer): (polls: nat) {
    if w.state.Writing? && w.state.uploads != [] then |w.state.uploads| else 1
  }

  function AfterFlushes(env: Env, w: Writer, n: nat): (w': Writer)
    requires Sound(w)
    ensures Sound(w')
    decreases n
  {
    if n == 0 then w else AfterFlushes(env, Flush(env, w).0, n - 1)
  }

  /** A productive poll of flush is ready, or leaves fewer uploads in flight, but some. */
  lemma {:induction false} FlushMovesOn(env: Env, w: Writer)
    requires Sound(w) && FlushProductive(env, w)
    ensures var (w', r) := Flush(env, w);
            r.Ready? || (w'.state.Writing? && w'.state.uploads != [] && FlushPolls(w') < FlushPolls(w))
  {
    if w.state.Writing? && w.state.uploads == [] {
      var c := CheckUploads(env, w.world, w.state.uploads, w.state.completed);
      assert c.uploads == [];
    }
  }

  /** If every poll is productive, flush is ready after at most u polls with u > 0 uploads in flight, or at once. */
  lemma {:induction false} FlushTerminates(env: Env, w: Writer)
    requires Sound(w)
    requires forall i :: 0 <= i < FlushPolls(w) ==> FlushProductive(env, AfterFlushes(env, w, i))
    ensures exists n :: 0 <= n < FlushPolls(w) && Flush(env, AfterFlushes(env, w, n)).1.Ready?
    decreases FlushPolls(w)
  {
    assert AfterFlushes(env, w, 0) == w;
    FlushMovesOn(env, w);
    var (w', r) := Flush(env, w);
    if r.Pending? {
      forall i | 0 <= i < FlushPolls(w') ensures FlushProductive(env, AfterFlushes(env, w', i)) {
        assert AfterFlushes(env, w, i + 1) == AfterFlushes(env, w', i);
      }
      FlushTerminates(env, w');
      var n :| 0 <= n < FlushPolls(w') && Flush(env, AfterFlushes(env, w', n)).1.Ready?;
      assert AfterFlushes(env, w, n + 1) == AfterFlushes(env, w', n);
    }
  }

  // ---- fail-stop and single completion ----

  predicate Dead(w: Writer) {
    w.state.NoState? || w.state.Closed?
  }

  /** Nothing more has been asked of the service, and nothing it holds or made has changed. */
  predicate SameHistory(w: Writer, w': Writer) {
    && w'.world == w.world
    && w'.issued == w.issued
    && w'.requests == w.requests
    && w'.accepted == w.accepted
    && w'.uploaded == w.uploaded
  }

  lemma {:induction false} DeadStaysDead(env: Env, w: Writer, calls: seq<Call>)
    requires Sound(w) && Dead(w)
    ensures var (w', outcomes) := Run(env, w, calls);
            && Dead(w') && SameHistory(w, w')
            && forall i :: 0 <= i < |outcomes| ==> outcomes[i].IsError()
    decreases |calls|
  {
    if calls != [] {
      DeadStaysDead(env, w, calls[..|calls|-1]);
    }
  }

  /** The outcomes after which a writer is finished, for good or ill. */
  predicate Final(outcome: Outcome) {
    match outcome
    case Wrote(p) => p.Ready? && p.value.Err?
    case Flushed(_) => false
    case ClosedWith(p) => p.Ready?
  }

  lemma {:induction false} FinalKills(env: Env, w: Writer, call: Call)
    requires Sound(w) && Final(Step(env, w, call).1)
    ensures Dead(Step(env, w, call).0)
  {}

  lemma {:induction false} RunInTwo(env: Env, w: Writer, a: seq<Call>, b: seq<Call>)
    requires Sound(w)
    ensures var (w1, outcomes1) := Run(env, w, a);
            var (w2, outcomes2) := Run(env, w1, b);
            Run(env, w, a + b) == (w2, outcomes1 + outcomes2)
    decreases |b|
  {
    var (w1, outcomes1) := Run(env, w, a);
    if b == [] {
      assert a + b == a;
      assert outcomes1 + [] == outcomes1;
    } else {
      var front, last := b[..|b|-1], b[|b|-1];
      RunInTwo(env, w, a, front);
      RunSnoc(env, w, a + front, last);
      RunSnoc(env, w1, front, last);
      assert b == front + [last];
      Associative(a, front, [last]);
      var (w2, outcomes2) := Run(env, w1, front);
      Associative(outcomes1, outcomes2, [Step(env, w2, last).1]);
    }
  }

  /**
   After a failed write, or a close that is ready, every later call fails, and nothing further is
   asked of the service.
   */
  lemma {:induction false} FailStop(env: Env, w: Writer, calls: seq<Call>, i: nat)
    requires Sound(w) && i < |calls|
    requires Final(Run(env, w, calls).1[i])
    ensures forall j :: i < j < |calls| ==> Run(env, w, calls).1[j].IsError()
    ensures SameHistory(Run(env, w, calls[..i+1]).0, Run(env, w, calls).0)
  {
    var a, b := calls[..i+1], calls[i+1..];
    assert calls == a + b;
    RunInTwo(env, w, a, b);
    var (w1, outcomes1) := Run(env, w, a);
    assert a[..i] == calls[..i];
    assert outcomes1[i] == Run(env, w, calls).1[i];
    FinalKills(env, Run(env, w, a[..i]).0, a[i]);
    DeadStaysDead(env, w1, b);
  }

  /** In a whole run close succeeds at most once, and at most one part list is submitted. */
  lemma {:induction false} SingleCompletion(env: Env, o: Origin, partSize: nat, maxUploads: nat, calls: seq<Call>,
                                            i: nat, j: nat)
    requires 0 < partSize && 0 < maxUploads && ValidOrigin(o) && Sound(OpenAt(partSize, maxUploads, o))
    ensures var (w, outcomes) := Run(env, OpenAt(partSize, maxUploads, o), calls);
            && |w.requests| <= 1
            && (i < |calls| && j < |calls| && outcomes[i] == outcomes[j] == ClosedWith(Ready(Ok(()))) ==> i == j)
  {
    var w0 := OpenAt(partSize, maxUploads, o);
    OpenInv(partSize, maxUploads, o);
    RunKeepsInv(env, o, w0, calls);
    var outcomes := Run(env, w0, calls).1;
    if i < |calls| && outcomes[i] == ClosedWith(Ready(Ok(()))) {
      FailStop(env, w0, calls, i);
    }
    if j < |calls| && outcomes[j] == ClosedWith(Ready(Ok(()))) {
      FailStop(env, w0, calls, j);
    }
  }
}
