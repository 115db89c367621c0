/** How sending ends: what the answers to the requests, and the messages, have to do with the outcome. */
module SqsOutcomes {
  import opened Prelude
  import opened Cutting
  import opened Sqs

  // ---- what happened in a run of events ----

  /** Some request has been answered with an error while sending was still going on. */
  predicate BadAnswer(chunks: seq<Result<Batch, SendError>>, concurrency: nat, s: Sender, events: seq<Event>)
    requires s.pulled <= |chunks|
    decreases |events|
  {
    events != [] &&
    var front, last := events[..|events|-1], events[|events|-1];
    var s1 := SendEvents(chunks, concurrency, s, front);
    || BadAnswer(chunks, concurrency, s, front)
    || (&& s1.outcome.None? && last.Answer? && !last.ok
        && last.slot < |s1.window| && s1.window[last.slot].progress.InFlight?)
  }

  predicate HoldsBad(window: seq<Slot>) {
    exists i :: 0 <= i < |window| && window[i].progress == Returned(false)
  }

  /** A bad answer stays in the window until it becomes the outcome; and an error has a reason. */
  ghost predicate Told(chunks: seq<Result<Batch, SendError>>, s: Sender, bad: bool) {
    && s.pulled <= |chunks|
    && (bad ==> HoldsBad(s.window) || (s.outcome.Some? && s.outcome.value.Err?))
    && (HoldsBad(s.window) ==> bad)
    && (s.outcome.Some? && s.outcome.value.Err? ==>
          || (s.outcome.value.error == RequestFailed && bad)
          || (s.pulled < |chunks| && chunks[s.pulled] == Err(s.outcome.value.error)))
    && (s.outcome == Some(Ok(())) ==> s.window == [] && s.pulled == |chunks|)
  }

  lemma {:induction false} HoldsBadAfterUpdate(window: seq<Slot>, k: nat, slot: Slot)
    requires k < |window| && window[k].progress != Returned(false)
    ensures HoldsBad(window[k := slot]) <==> HoldsBad(window) || slot.progress == Returned(false)
  {
    var updated := window[k := slot];
    assert updated[k] == slot;
    assert forall i :: 0 <= i < |window| && i != k ==> updated[i] == window[i];
  }

  lemma {:induction false} HoldsBadTail(window: seq<Slot>)
    requires window != [] && window[0].progress != Returned(false)
    ensures HoldsBad(window[1..]) <==> HoldsBad(window)
  {
    assert forall i :: 1 <= i < |window| ==> window[1..][i - 1] == window[i];
  }

  lemma {:induction false} HoldsBadSnoc(window: seq<Slot>, slot: Slot)
    requires slot.progress != Returned(false)
    ensures HoldsBad(window + [slot]) <==> HoldsBad(window)
  {
    assert forall i :: 0 <= i < |window| ==> (window + [slot])[i] == window[i];
  }

  lemma {:induction false} ToldAfter(chunks: seq<Result<Batch, SendError>>, concurrency: nat, s: Sender, event: Event,
                                     bad: bool)
    requires Told(chunks, s, bad)
    ensures Told(chunks, SendStep(chunks, concurrency, s, event),
                 bad || (&& s.outcome.None? && event.Answer? && !event.ok
                         && event.slot < |s.window| && s.window[event.slot].progress.InFlight?))
  {
    match event
    case Pull =>
      if s.pulled < |chunks| && chunks[s.pulled].Ok? {
        HoldsBadSnoc(s.window, Slot(chunks[s.pulled].value, Queued));
      }
    case Begin(k) =>
      if k < |s.window| && s.window[k].progress.Queued? {
        HoldsBadAfterUpdate(s.window, k, s.window[k].(progress := InFlight));
      }
    case Answer(k, ok) =>
      if k < |s.window| && s.window[k].progress.InFlight? {
        HoldsBadAfterUpdate(s.window, k, s.window[k].(progress := Returned(ok)));
      }
    case HandOn =>
      if s.window != [] && s.window[0].progress == Returned(true) {
        HoldsBadTail(s.window);
      }
    case End =>
  }

  lemma {:induction false} ToldThroughout(chunks: seq<Result<Batch, SendError>>, concurrency: nat, s: Sender,
                                          events: seq<Event>)
    requires Told(chunks, s, false)
    ensures Told(chunks, SendEvents(chunks, concurrency, s, events), BadAnswer(chunks, concurrency, s, events))
    decreases |events|
  {
    if events != [] {
      var front, last := events[..|events|-1], events[|events|-1];
      ToldThroughout(chunks, concurrency, s, front);
      ToldAfter(chunks, concurrency, SendEvents(chunks, concurrency, s, front), last,
                BadAnswer(chunks, concurrency, s, front));
    }
  }

  // ---- what comes of it ----

  predicate AllMessagesGood(bodies: seq<Result<string, SendError>>) {
    forall i :: 0 <= i < |bodies| ==> bodies[i].Ok?
  }

  /** This message is the first bad one. */
  predicate FirstBad(bodies: seq<Result<string, SendError>>, k: nat) {
    k < |bodies| && bodies[k].Err? && forall i :: 0 <= i < k ==> bodies[i].Ok?
  }

  /**
   Sending succeeds only if every message is good and no request was answered with an error; and it
   fails only with the error of the first bad message, or because a request was answered with one.
   */
  lemma {:induction false} SendingOutcome(bodies: seq<Result<string, SendError>>, concurrency: Option<nat>, url: string,
                                          events: seq<Event>)
    requires concurrency != Some(0)
    ensures var chunks, s0 := TryChunks(Entries(bodies), []), StartSending(concurrency, Ok(Some(url)));
            var s := SendEvents(chunks, Window(concurrency), s0, events);
            var bad := BadAnswer(chunks, Window(concurrency), s0, events);
            && (s.outcome == Some(Ok(())) ==> AllMessagesGood(bodies) && !bad)
            && (s.outcome.Some? && s.outcome.value.Err? ==>
                  || (s.outcome.value.error == RequestFailed && bad)
                  || exists k: nat :: FirstBad(bodies, k) && s.outcome.value.error == bodies[k].error)
  {
    var chunks, s0 := TryChunks(Entries(bodies), []), StartSending(concurrency, Ok(Some(url)));
    var s := SendEvents(chunks, Window(concurrency), s0, events);
    StartInv(chunks, concurrency, Ok(Some(url)));
    SendEventsKeepInv(chunks, Window(concurrency), s0, events);
    ToldThroughout(chunks, Window(concurrency), s0, events);
    if AllMessagesGood(bodies) {
      GoodChunks(Entries(bodies));
    } else {
      var k := FirstBadMessage(bodies);
      FullChunksBeforeError(Entries(bodies), k);
      BadChunk(chunks, Split(Values(Entries(bodies)[..k])[..k / BATCH_SIZE * BATCH_SIZE], BATCH_SIZE), s);
    }
  }

  lemma {:induction false} FirstBadMessage(bodies: seq<Result<string, SendError>>) returns (k: nat)
    requires exists i :: 0 <= i < |bodies| && bodies[i].Err?
    ensures FirstBad(bodies, k) && AllGood(Entries(bodies)[..k])
  {
    k := 0;
    while bodies[k].Ok?
      invariant k < |bodies| && forall i :: 0 <= i < k ==> bodies[i].Ok?
      decreases |bodies| - k
    {
      var i :| 0 <= i < |bodies| && bodies[i].Err?;
      k := k + 1;
    }
  }

  /** Nothing is pulled past the first bad chunk. */
  lemma {:induction false} BadChunk(chunks: seq<Result<Batch, SendError>>, whole: seq<Batch>, s: Sender)
    requires s.pulled <= |chunks| && forall i :: 0 <= i < s.pulled ==> chunks[i].Ok?
    requires |whole| < |chunks| && chunks[|whole|].Err? && chunks[..|whole|] == Wrapped(whole)
    ensures s.pulled <= |whole|
    ensures s.pulled < |chunks| && chunks[s.pulled].Err? ==> s.pulled == |whole|
  {
    assert chunks[|whole|].Err?;
    if s.pulled < |whole| {
      assert chunks[..|whole|][s.pulled] == Ok(whole[s.pulled]);
    }
  }

  /**
   Sending starts exactly when the concurrency is not zero and the lookup of the queue answers with an
   address; otherwise it has failed with the reason at once, and nothing is ever sent.
   */
  lemma {:induction false} StartOutcome(bodies: seq<Result<string, SendError>>, concurrency: Option<nat>,
                                        queueUrl: Result<Option<string>, SendError>, events: seq<Event>)
    ensures var s0 := StartSending(concurrency, queueUrl);
            && (s0.outcome.None? <==> concurrency != Some(0) && queueUrl.Ok? && queueUrl.value.Some?)
            && s0.pulled == 0 && s0.window == [] && s0.sent == []
            && (s0.outcome.Some? ==>
                  && s0.outcome == Some(Err(if concurrency == Some(0) then ZeroConcurrency
                                            else if queueUrl.Err? then queueUrl.error
                                            else NoQueueUrl))
                  && SendEvents(TryChunks(Entries(bodies), []), Window(concurrency), s0, events) == s0)
    decreases |events|
  {
    if events != [] {
      StartOutcome(bodies, concurrency, queueUrl, events[..|events|-1]);
    }
  }
}
