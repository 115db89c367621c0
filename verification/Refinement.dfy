/** The multipart writer refines the simple one: what it shows its caller, the simple writer can show. */
module Refinement {
  import opened Prelude
  import opened S3Service
  import opened AsyncWriting
  import opened Multipart
  import opened MultipartInvariant
  import opened MultipartObject
  import opened MultipartTheorems
  import opened PutObject

  /** The simple writer that a multipart writer stands for. */
  function Abstract(w: Writer): (p: Put)
    requires !w.state.NoState?
  {
    match w.state
    case Writing(_, _, _, _) => Put(w.accepted, PutWriting, 0, [], None, 0)
    case CompletingParts(_, _) => Put([], PutClosing(w.accepted), 0, [w.accepted], None, 1)
    case Completing(_, _) => Put([], PutClosing(w.accepted), 0, [w.accepted], None, 1)
    case Closed => Put([], PutClosed, 1, [w.accepted], w.uploaded, 1)
  }

  /** The calls on the simple writer that one call on the multipart writer stands for. */
  function Mirror(w: Writer, call: Call, w': Writer, outcome: Outcome): (calls: seq<Call>) {
    match (call, outcome)
    case (WriteCall(buf), Wrote(Ready(Ok(n)))) => if n <= |buf| then [WriteCall(buf[..n])] else []
    case (FlushCall, Flushed(Ready(_))) => [FlushCall]
    case (CloseCall, ClosedWith(Ready(_))) => [CloseCall]
    case (CloseCall, ClosedWith(Pending)) => if w.state.Writing? && w'.state.CompletingParts? then [CloseCall] else []
    case _ => []
  }

  function MirrorRun(env: Env, w: Writer, calls: seq<Call>): (mirrored: seq<Call>)
    requires Sound(w)
    decreases |calls|
  {
    if calls == [] then
      []
    else
      var n := |calls| - 1;
      var w1 := Run(env, w, calls[..n]).0;
      var (w2, outcome) := Step(env, w1, calls[n]);
      MirrorRun(env, w, calls[..n]) + Mirror(w1, calls[n], w2, outcome)
  }

  /** What a caller sees: the outcomes that are not pending. */
  function Visible(outcomes: seq<Outcome>): (visible: seq<Outcome>) {
    if outcomes == [] then []
    else Visible(outcomes[..|outcomes|-1])
         + if outcomes[|outcomes|-1].IsPending() then [] else [outcomes[|outcomes|-1]]
  }

  lemma {:induction false} VisibleSnoc(outcomes: seq<Outcome>, last: Outcome)
    ensures Visible(outcomes + [last]) == Visible(outcomes) + if last.IsPending() then [] else [last]
  {
    assert (outcomes + [last])[..|outcomes|] == outcomes;
  }

  /** The simple writer's request gets the answer that the multipart completion got. */
  ghost predicate SameAnswer(env: Env, simple: Env, w: Writer) {
    w.state.Closed? ==> w.world.polls > 0 && simple(0) == env(w.world.polls - 1)
  }

  lemma {:induction false} CompletionStoresAccepted(o: Origin, w: Writer)
    requires o.imported == [] && Inv(o, w) && w.state.Closed? && Lost(o, w) == 0
    requires w.uploaded == Assemble(w.world.server, w.requests[0])
    ensures w.uploaded == Some(w.accepted)
  {
    NothingImported(o);
    ClosedExactlyWhenLossless(o, w);
    assert [] + w.accepted == w.accepted;
  }

  /** The step of the simple writer shows what the step of the multipart writer shows. */
  ghost predicate Matches(simple: Env, p: Put, mirrored: seq<Call>, p': Put, outcome: Outcome) {
    && (mirrored == [] ==> p' == p && outcome.IsPending())
    && (mirrored != [] ==>
          && |mirrored| == 1
          && var (q, out) := PutStep(simple, p, mirrored[0]);
             && q == p'
             && (out == outcome || (out.IsPending() && outcome.IsPending())))
  }

  lemma {:induction false} WriteRefines(env: Env, simple: Env, w: Writer, buf: seq<byte>)
    requires Sound(w) && !w.state.NoState?
    requires !Write(env, w, buf).0.state.NoState?
    ensures var (w', r) := Write(env, w, buf);
            Matches(simple, Abstract(w), Mirror(w, WriteCall(buf), w', Wrote(r)), Abstract(w'), Wrote(r))
  {
    if w.state.Writing? {
      WriteByCases(env, w, buf);
    }
  }

  lemma {:induction false} FlushRefines(env: Env, simple: Env, w: Writer)
    requires Sound(w) && !w.state.NoState?
    requires w.state.Writing? ==> !(Flush(env, w).1.Ready? && Flush(env, w).1.value.Err?)
    ensures var (w', r) := Flush(env, w);
            && !w'.state.NoState?
            && Matches(simple, Abstract(w), Mirror(w, FlushCall, w', Flushed(r)), Abstract(w'), Flushed(r))
  {}

  lemma {:induction false} StopWritingShows(env: Env, w: Writer, c: Checked, buffer: seq<byte>, partNumber: int)
    requires 0 < w.partSize && |c.uploads| < w.maxUploads
    ensures var (w', r) := StopWriting(env, w, c, buffer, partNumber);
            && w'.accepted == w.accepted && w'.uploaded == w.uploaded
            && (w'.state.NoState? || (w'.state.CompletingParts? && r.Pending?))
  {}

  /** What a close can do to the state, and what it shows. */
  lemma {:induction false} CloseShows(env: Env, w: Writer)
    requires Sound(w) && !w.state.NoState? && !Close(env, w).0.state.NoState?
    ensures var (w', r) := Close(env, w);
            && w'.accepted == w.accepted
            && (w'.uploaded == w.uploaded || w'.state.Closed?)
            && match w.state
               case Writing(_, _, _, _) => r.Pending? && (w'.state.Writing? || w'.state.CompletingParts?)
               case CompletingParts(_, _) => r.Pending? && (w'.state.CompletingParts? || w'.state.Completing?)
               case Completing(_, _) =>
                 var answer := env(w.world.polls);
                 && (answer.NotReady? ==> w'.state.Completing? && r.Pending?)
                 && (answer.Succeeded? ==> w'.state.Closed? && r == Ready(Ok(())) && w'.world.polls == w.world.polls + 1
                                           && w'.uploaded == Assemble(w.world.server, w.state.request))
                 && (answer.Failed? ==> w'.state.Closed? && r == Ready(Err(RequestFailed))
                                        && w'.world.polls == w.world.polls + 1 && w'.uploaded == w.uploaded)
               case _ => false
  {
    if w.state.Writing? {
      var c := CheckUploads(env, w.world, w.state.uploads, w.state.completed);
      CloseByCases(env, w);
      if c.outcome.Ok? && |c.uploads| < w.maxUploads {
        StopWritingShows(env, w.(world := c.world, state := NoState), c, w.state.buffer, w.state.partNumber);
      }
    }
  }

  lemma {:induction false} CloseRefines(env: Env, simple: Env, w: Writer)
    requires Sound(w) && !w.state.NoState?
    requires var w' := Close(env, w).0;
             && !w'.state.NoState?
             && SameAnswer(env, simple, w')
             && (w.state.Completing? ==> w.uploaded == None)
             && (w'.state.Closed? && w.state.Completing? && env(w.world.polls).Succeeded? ==>
                   w'.uploaded == Some(w'.accepted))
    ensures var (w', r) := Close(env, w);
            Matches(simple, Abstract(w), Mirror(w, CloseCall, w', ClosedWith(r)), Abstract(w'), ClosedWith(r))
  {
    CloseShows(env, w);
  }

  /** One call on the multipart writer is at most one call on the simple writer, with the same outcome. */
  lemma {:induction false} StepRefines(env: Env, simple: Env, o: Origin, w: Writer, call: Call)
    requires o.imported == [] && Inv(o, w) && !w.state.NoState? && Lost(o, w) == 0
    requires var (w', outcome) := Step(env, w, call);
             !w'.state.NoState? && !FlushError(outcome) && SameAnswer(env, simple, w')
    ensures var (w', outcome) := Step(env, w, call);
            && SameAnswer(env, simple, w)
            && Matches(simple, Abstract(w), Mirror(w, call, w', outcome), Abstract(w'), outcome)
  {
    var (w', outcome) := Step(env, w, call);
    match call
    case WriteCall(buf) =>
      WriteRefines(env, simple, w, buf);
    case FlushCall =>
      if w.state.Writing? {
        CheckErrorIsRequestFailed(env, w.world, w.state.uploads, w.state.completed);
      }
      FlushRefines(env, simple, w);
    case CloseCall =>
      StepKeepsInv(env, o, w, call);
      CloseShows(env, w);
      if w.state.Completing? && env(w.world.polls).Succeeded? {
        CompletionStoresAccepted(o, w');
      }
      CloseRefines(env, simple, w);
  }

  /**
   Every run of the multipart writer that stays usable, and in which no flush reports a failed
   request, is a run of the simple writer: same visible outcomes, and the abstract final state.
   */
  lemma {:induction false} RunRefines(env: Env, simple: Env, partSize: nat, maxUploads: nat, server: Parts,
                                      calls: seq<Call>)
    requires 0 < partSize && 0 < maxUploads && Sound(OpenAt(partSize, maxUploads, Origin(1, [], server)))
    requires var (w, outcomes) := Run(env, OpenAt(partSize, maxUploads, Origin(1, [], server)), calls);
             !w.state.NoState? && !FlushFailed(outcomes) && SameAnswer(env, simple, w)
    ensures var w0 := OpenAt(partSize, maxUploads, Origin(1, [], server));
            var (w, outcomes) := Run(env, w0, calls);
            var (p, seen) := PutRun(simple, NEW_PUT, MirrorRun(env, w0, calls));
            p == Abstract(w) && Visible(seen) == Visible(outcomes)
    decreases |calls|
  {
    var o := Origin(1, [], server);
    var w0 := OpenAt(partSize, maxUploads, o);
    if calls != [] {
      var n := |calls| - 1;
      var (w1, outcomes1) := Run(env, w0, calls[..n]);
      var (w2, outcome) := Step(env, w1, calls[n]);
      NothingImported(o);
      OpenInv(partSize, maxUploads, o);
      RunKeepsInv(env, o, w0, calls[..n]);
      StepKeepsInv(env, o, w1, calls[n]);
      FlushFailedSnoc(outcomes1, outcome);
      StepRefines(env, simple, o, w1, calls[n]);
      RunRefines(env, simple, partSize, maxUploads, server, calls[..n]);
      MirrorSnoc(simple, MirrorRun(env, w0, calls[..n]), Mirror(w1, calls[n], w2, outcome), outcomes1, outcome);
    }
  }

  lemma {:induction false} MirrorSnoc(simple: Env, mirrored: seq<Call>, last: seq<Call>, outcomes: seq<Outcome>,
                                      outcome: Outcome)
    requires |last| <= 1
    requires Visible(PutRun(simple, NEW_PUT, mirrored).1) == Visible(outcomes)
    requires last == [] ==> outcome.IsPending()
    requires last != [] ==>
               var out := PutStep(simple, PutRun(simple, NEW_PUT, mirrored).0, last[0]).1;
               out == outcome || (out.IsPending() && outcome.IsPending())
    ensures Visible(PutRun(simple, NEW_PUT, mirrored + last).1) == Visible(outcomes + [outcome])
    ensures last == [] ==> PutRun(simple, NEW_PUT, mirrored + last) == PutRun(simple, NEW_PUT, mirrored)
    ensures last != [] ==>
              PutRun(simple, NEW_PUT, mirrored + last).0
                == PutStep(simple, PutRun(simple, NEW_PUT, mirrored).0, last[0]).0
  {
    VisibleSnoc(outcomes, outcome);
    if last == [] {
      assert mirrored + last == mirrored;
    } else {
      assert (mirrored + last)[..|mirrored|] == mirrored;
      var (p, seen) := PutRun(simple, NEW_PUT, mirrored);
      VisibleSnoc(seen, PutStep(simple, p, last[0]).1);
    }
  }

  /**
   Whatever the slicing, the back-pressure and the schedules: a multipart writer and a simple writer
   that accepted the same bytes and closed successfully produced the same object if and only if no
   flush of the multipart writer reported a failed request.
   */
  lemma {:induction false} SameObject(env: Env, partSize: nat, maxUploadingParts: Option<nat>, server: Parts,
                                      created: Result<Option<string>, Error>, calls: seq<Call>,
                                      simple: Env, putCalls: seq<Call>)
    requires New(partSize, maxUploadingParts, server, created).Ok?
    requires ClosesOk(Run(env, New(partSize, maxUploadingParts, server, created).value, calls).1)
    requires ClosesOk(PutRun(simple, NEW_PUT, putCalls).1)
    requires Accepted(calls, Run(env, New(partSize, maxUploadingParts, server, created).value, calls).1)
          == Accepted(putCalls, PutRun(simple, NEW_PUT, putCalls).1)
    ensures var (w, outcomes) := Run(env, New(partSize, maxUploadingParts, server, created).value, calls);
            w.uploaded == PutRun(simple, NEW_PUT, putCalls).0.stored <==> !FlushFailed(outcomes)
  {
    NewWriterEndToEnd(env, partSize, maxUploadingParts, server, created, calls);
    PutEndToEnd(simple, putCalls);
  }
}
