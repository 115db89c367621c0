/** Sending never gets stuck: how much is left to do, and that every event of use does some of it. */
module SqsLiveness {
  import opened Prelude
  import opened Arithmetic
  import opened Cutting
  import opened Sqs
  import opened SqsOutcomes

  // ---- work left ----

  function SlotWork(progress: Progress): (work: nat) {
    match progress
    case Queued => 3
    case InFlight => 2
    case Returned(_) => 1
  }

  function WindowWork(window: seq<Slot>): (work: nat) {
    if window == [] then 0 else SlotWork(window[0].progress) + WindowWork(window[1..])
  }

  /** Every batch is still to be pulled, begun, answered and handed on; then the end is to be seen. */
  function Work(chunks: seq<Result<Batch, SendError>>, s: Sender): (work: nat)
    requires s.pulled <= |chunks|
  {
    if s.outcome.Some? then 0 else 4 * (|chunks| - s.pulled) + WindowWork(s.window) + 1
  }

  lemma {:induction false} WindowWorkAppend(a: seq<Slot>, b: seq<Slot>)
    ensures WindowWork(a + b) == WindowWork(a) + WindowWork(b)
  {
    if a == [] {
      assert a + b == b;
    } else {
      assert (a + b)[1..] == a[1..] + b;
      WindowWorkAppend(a[1..], b);
    }
  }

  lemma {:induction false} WindowWorkOne(slot: Slot)
    ensures WindowWork([slot]) == SlotWork(slot.progress)
  {
    assert [slot][1..] == [];
  }

  lemma {:induction false} WindowWorkUpdate(window: seq<Slot>, k: nat, slot: Slot)
    requires k < |window|
    ensures WindowWork(window[k := slot]) + SlotWork(window[k].progress) == WindowWork(window) + SlotWork(slot.progress)
  {
    var before, after := window[..k], window[k+1..];
    assert window == before + ([window[k]] + after);
    assert window[k := slot] == before + ([slot] + after);
    WindowWorkAppend(before, [window[k]] + after);
    WindowWorkAppend([window[k]], after);
    WindowWorkAppend(before, [slot] + after);
    WindowWorkAppend([slot], after);
    WindowWorkOne(slot);
    WindowWorkOne(window[k]);
  }

  /** An event that changes anything does one piece of the work, or ends the sending. */
  lemma {:induction false} EffectiveStepWorks(chunks: seq<Result<Batch, SendError>>, concurrency: nat, s: Sender,
                                              event: Event)
    requires s.pulled <= |chunks| && SendStep(chunks, concurrency, s, event) != s
    ensures var s' := SendStep(chunks, concurrency, s, event);
            && s.outcome.None?
            && Work(chunks, s') < Work(chunks, s)
            && (s'.outcome.None? ==> Work(chunks, s') + 1 == Work(chunks, s))
  {
    match event
    case Pull =>
      if chunks[s.pulled].Ok? {
        WindowWorkAppend(s.window, [Slot(chunks[s.pulled].value, Queued)]);
        WindowWorkOne(Slot(chunks[s.pulled].value, Queued));
      }
    case Begin(k) =>
      WindowWorkUpdate(s.window, k, s.window[k].(progress := InFlight));
    case Answer(k, ok) =>
      WindowWorkUpdate(s.window, k, s.window[k].(progress := Returned(ok)));
    case HandOn =>
    case End =>
  }

  // ---- some event always does something ----

  /** An event that moves the sender on: the first batch of the window, or else the next one, or the end. */
  function NextEvent(chunks: seq<Result<Batch, SendError>>, s: Sender): (event: Event) {
    if s.window == [] then (if s.pulled == |chunks| then End else Pull)
    else match s.window[0].progress
      case Queued => Begin(0)
      case InFlight => Answer(0, true)
      case Returned(_) => HandOn
  }

  lemma {:induction false} NextEventIsEffective(chunks: seq<Result<Batch, SendError>>, concurrency: nat, s: Sender)
    requires s.pulled <= |chunks| && s.outcome.None? && concurrency > 0
    ensures SendStep(chunks, concurrency, s, NextEvent(chunks, s)) != s
  {
    if s.window != [] {
      var s' := SendStep(chunks, concurrency, s, NextEvent(chunks, s));
      match s.window[0].progress
      case Queued => assert s'.window[0].progress == InFlight;
      case InFlight => assert s'.window[0].progress == Returned(true);
      case Returned(ok) => assert ok ==> |s'.window| < |s.window|;
    }
  }

  /** Every state that a run reaches before it has an outcome has an event that changes it. */
  lemma {:induction false} NeverStuck(bodies: seq<Result<string, SendError>>, concurrency: Option<nat>,
                                      queueUrl: Result<Option<string>, SendError>, events: seq<Event>)
    ensures var chunks := TryChunks(Entries(bodies), []);
            var s := SendEvents(chunks, Window(concurrency), StartSending(concurrency, queueUrl), events);
            s.outcome.None? ==> exists event :: SendStep(chunks, Window(concurrency), s, event) != s
  {
    var chunks := TryChunks(Entries(bodies), []);
    var s := SendEvents(chunks, Window(concurrency), StartSending(concurrency, queueUrl), events);
    if s.outcome.None? {
      NoOutcomeBefore(chunks, Window(concurrency), StartSending(concurrency, queueUrl), events);
      NextEventIsEffective(chunks, Window(concurrency), s);
    }
  }

  lemma {:induction false} NoOutcomeBefore(chunks: seq<Result<Batch, SendError>>, concurrency: nat, s: Sender,
                                           events: seq<Event>)
    requires s.pulled <= |chunks| && SendEvents(chunks, concurrency, s, events).outcome.None?
    ensures s.outcome.None?
    decreases |events|
  {
    if events != [] {
      NoOutcomeBefore(chunks, concurrency, s, events[..|events|-1]);
    }
  }

  /** The window holds these batches, and all their requests are in flight. */
  ghost predicate AllInFlight(window: seq<Slot>, batches: seq<Batch>) {
    && |window| == |batches|
    && forall i :: 0 <= i < |window| ==> window[i] == Slot(batches[i], InFlight)
  }

  /** As many requests as the concurrency allows can be in flight at once: those of the first batches. */
  lemma {:induction false} WindowCanFill(chunks: seq<Result<Batch, SendError>>, concurrency: nat, n: nat)
    returns (events: seq<Event>)
    requires n <= concurrency && n <= |chunks| && forall i :: 0 <= i < n ==> chunks[i].Ok?
    ensures var s := SendEvents(chunks, concurrency, Sender(0, [], [], None), events);
            && s.outcome.None? && s.pulled == n
            && s.sent == Batches(chunks[..n])
            && AllInFlight(s.window, Batches(chunks[..n]))
  {
    events := [];
    if n == 0 {
      assert Batches(chunks[..0]) == [];
    } else {
      var front := WindowCanFill(chunks, concurrency, n - 1);
      var s := SendEvents(chunks, concurrency, Sender(0, [], [], None), front);
      events := front + [Pull] + [Begin(n - 1)];
      assert events[..|events| - 1] == front + [Pull] && (front + [Pull])[..|front|] == front;
      BatchesSnoc(chunks, n - 1);
      var pulled := SendStep(chunks, concurrency, s, Pull);
      assert pulled.window[n - 1] == Slot(chunks[n - 1].value, Queued);
    }
  }

  // ---- so sending ends ----

  /** Until there is an outcome, every event changes something. */
  ghost predicate Effective(chunks: seq<Result<Batch, SendError>>, concurrency: nat, s: Sender, events: seq<Event>)
    requires s.pulled <= |chunks|
  {
    forall i :: 0 <= i < |events| ==>
      var si := SendEvents(chunks, concurrency, s, events[..i]);
      si.outcome.None? ==> SendStep(chunks, concurrency, si, events[i]) != si
  }

  predicate AllAnsweredOk(events: seq<Event>) {
    forall i :: 0 <= i < |events| ==> events[i].Answer? ==> events[i].ok
  }

  lemma {:induction false} EffectiveFront(chunks: seq<Result<Batch, SendError>>, concurrency: nat, s: Sender,
                                          events: seq<Event>)
    requires s.pulled <= |chunks| && events != [] && Effective(chunks, concurrency, s, events)
    ensures Effective(chunks, concurrency, s, events[..|events|-1])
  {
    var front := events[..|events|-1];
    forall i | 0 <= i < |front|
      ensures var si := SendEvents(chunks, concurrency, s, front[..i]);
              si.outcome.None? ==> SendStep(chunks, concurrency, si, front[i]) != si
    {
      assert front[..i] == events[..i] && front[i] == events[i];
    }
  }

  lemma {:induction false} EffectiveRunWorks(chunks: seq<Result<Batch, SendError>>, concurrency: nat, s: Sender,
                                             events: seq<Event>)
    requires s.pulled <= |chunks| && Effective(chunks, concurrency, s, events)
    ensures var s' := SendEvents(chunks, concurrency, s, events);
            s'.outcome.None? ==> Work(chunks, s') + |events| == Work(chunks, s)
    decreases |events|
  {
    if events != [] {
      var n := |events| - 1;
      var s1 := SendEvents(chunks, concurrency, s, events[..n]);
      EffectiveFront(chunks, concurrency, s, events);
      EffectiveRunWorks(chunks, concurrency, s, events[..n]);
      if s1.outcome.None? {
        EffectiveStepWorks(chunks, concurrency, s1, events[n]);
      }
    }
  }

  lemma {:induction false} GoodAnswers(chunks: seq<Result<Batch, SendError>>, concurrency: nat, s: Sender,
                                       events: seq<Event>)
    requires s.pulled <= |chunks| && AllAnsweredOk(events)
    ensures !BadAnswer(chunks, concurrency, s, events)
    decreases |events|
  {
    if events != [] {
      var n := |events| - 1;
      GoodAnswers(chunks, concurrency, s, events[..n]);
      assert events[n].Answer? ==> events[n].ok;
    }
  }

  /**
   No schedule gets stuck: of c batches, any 4c + 1 events that each change something, in any order,
   lead to an outcome; and that outcome is success if and only if every message is good and no request
   was answered with an error.
   */
  lemma {:induction false} SendingFinishes(bodies: seq<Result<string, SendError>>, concurrency: Option<nat>,
                                           url: string, events: seq<Event>)
    requires concurrency != Some(0)
    requires Effective(TryChunks(Entries(bodies), []), Window(concurrency),
                       StartSending(concurrency, Ok(Some(url))), events)
    requires |events| > 4 * |TryChunks(Entries(bodies), [])|
    ensures var chunks, s0 := TryChunks(Entries(bodies), []), StartSending(concurrency, Ok(Some(url)));
            var s := SendEvents(chunks, Window(concurrency), s0, events);
            && s.outcome.Some?
            && (s.outcome == Some(Ok(()))
                <==> AllMessagesGood(bodies) && !BadAnswer(chunks, Window(concurrency), s0, events))
  {
    var chunks, s0 := TryChunks(Entries(bodies), []), StartSending(concurrency, Ok(Some(url)));
    EffectiveRunWorks(chunks, Window(concurrency), s0, events);
    assert WindowWork([]) == 0;
    SendingOutcome(bodies, concurrency, url, events);
    var s := SendEvents(chunks, Window(concurrency), s0, events);
    if s.outcome.value.Ok? {
      assert s.outcome.value.value == ();
    }
  }

  /** Such schedules exist, with good answers only, of any length. */
  lemma {:induction false} SomeSchedule(chunks: seq<Result<Batch, SendError>>, concurrency: nat, s: Sender,
                                        n: nat) returns (events: seq<Event>)
    requires s.pulled <= |chunks| && concurrency > 0
    ensures |events| == n && Effective(chunks, concurrency, s, events) && AllAnsweredOk(events)
  {
    events := [];
    if n > 0 {
      var front := SomeSchedule(chunks, concurrency, s, n - 1);
      var s1 := SendEvents(chunks, concurrency, s, front);
      var next := NextEvent(chunks, s1);
      events := front + [next];
      if s1.outcome.None? {
        NextEventIsEffective(chunks, concurrency, s1);
      }
      forall i | 0 <= i < n
        ensures var si := SendEvents(chunks, concurrency, s, events[..i]);
                si.outcome.None? ==> SendStep(chunks, concurrency, si, events[i]) != si
      {
        if i < n - 1 {
          assert events[..i] == front[..i] && events[i] == front[i];
        } else {
          assert events[..i] == front;
        }
      }
    }
  }

  /** Good messages can be sent: some schedule of 4 * ceil(n / 10) + 1 events succeeds. */
  lemma {:induction false} SendingCanSucceed(bodies: seq<Result<string, SendError>>, concurrency: Option<nat>,
                                             url: string) returns (events: seq<Event>)
    requires concurrency != Some(0) && AllMessagesGood(bodies)
    ensures |events| == 4 * CeilDiv(|bodies|, BATCH_SIZE) + 1
    ensures SendEvents(TryChunks(Entries(bodies), []), Window(concurrency),
                       StartSending(concurrency, Ok(Some(url))), events).outcome
         == Some(Ok(()))
  {
    var items := Entries(bodies);
    GoodChunks(items);
    SplitShape(Values(items), BATCH_SIZE);
    events := SomeSchedule(TryChunks(items, []), Window(concurrency), StartSending(concurrency, Ok(Some(url))),
                           4 * CeilDiv(|bodies|, BATCH_SIZE) + 1);
    GoodAnswers(TryChunks(items, []), Window(concurrency), StartSending(concurrency, Ok(Some(url))), events);
    SendingFinishes(bodies, concurrency, url, events);
  }
}
