/**
 Sending a stream of messages in batches: messages get their position as id, are collected into
 batches of ten, and batches are sent through a bounded window that returns them in order.
 */
module Sqs {
  import opened Prelude
  import opened Arithmetic
  import opened Cutting

  const BATCH_SIZE: nat := 10

  datatype SendError = ZeroConcurrency | NoQueueUrl | QueueLookupFailed | BadItem(why: string) | RequestFailed

  datatype Entry = Entry(id: string, body: string)

  type Item = Result<Entry, SendError>

  // ---- ids ----

  function Digit(d: nat): (c: char)
    requires d < 10
  {
    "0123456789"[d]
  }

  function Decimal(n: nat): (text: string) {
    if n < 10 then [Digit(n)] else Decimal(n / 10) + [Digit(n % 10)]
  }

  function DigitValue(c: char): (d: nat) {
    if '0' <= c <= '9' then (c - '0') as nat else 0
  }

  function ParseDecimal(text: string): (n: nat) {
    if text == [] then 0 else 10 * ParseDecimal(text[..|text|-1]) + DigitValue(text[|text|-1])
  }

  /** A number can be read back from its decimal text, so different positions have different ids. */
  lemma {:induction false} DecimalRoundTrip(n: nat)
    ensures ParseDecimal(Decimal(n)) == n
  {
    if n >= 10 {
      DecimalRoundTrip(n / 10);
      assert Decimal(n)[..|Decimal(n)|-1] == Decimal(n / 10);
    } else {
      assert Decimal(n)[..0] == [];
    }
  }

  /** Gives every serialized message its position in the stream as id. */
  function Entries(bodies: seq<Result<string, SendError>>): (items: seq<Item>)
    ensures |items| == |bodies|
    ensures forall i :: 0 <= i < |bodies| ==>
              items[i] == if bodies[i].Ok? then Ok(Entry(Decimal(i), bodies[i].value)) else Err(bodies[i].error)
  {
    seq(|bodies|, i requires 0 <= i < |bodies| =>
      if bodies[i].Ok? then Ok(Entry(Decimal(i), bodies[i].value)) else Err(bodies[i].error))
  }

  lemma {:induction false} DistinctIds(bodies: seq<Result<string, SendError>>, i: nat, j: nat)
    requires i < j < |bodies| && bodies[i].Ok? && bodies[j].Ok?
    ensures Entries(bodies)[i].value.id != Entries(bodies)[j].value.id
  {
    DecimalRoundTrip(i);
    DecimalRoundTrip(j);
  }

  // ---- batches ----

  type Batch = seq<Entry>

  /** Collects items into batches; an error gives up the batch being collected. */
  function TryChunks(items: seq<Item>, collected: Batch): (batches: seq<Result<Batch, SendError>>)
    decreases |items|
  {
    if items == [] then
      if collected == [] then [] else [Ok(collected)]
    else
      match items[0]
      case Err(e) => [Err(e)] + TryChunks(items[1..], [])
      case Ok(entry) =>
        if |collected| + 1 >= BATCH_SIZE then [Ok(collected + [entry])] + TryChunks(items[1..], [])
        else TryChunks(items[1..], collected + [entry])
  }

  predicate AllGood(items: seq<Item>) {
    forall i :: 0 <= i < |items| ==> items[i].Ok?
  }

  function Values(items: seq<Item>): (entries: seq<Entry>)
    requires AllGood(items)
    ensures |entries| == |items|
    ensures forall i :: 0 <= i < |items| ==> entries[i] == items[i].value
  {
    seq(|items|, i requires 0 <= i < |items| => items[i].value)
  }

  function Wrapped(batches: seq<Batch>): (r: seq<Result<Batch, SendError>>)
    ensures |r| == |batches|
    ensures forall i :: 0 <= i < |batches| ==> r[i] == Ok(batches[i])
  {
    seq(|batches|, i requires 0 <= i < |batches| => Ok(batches[i]))
  }

  lemma {:induction false} WrappedCons(first: Batch, rest: seq<Batch>)
    ensures Wrapped([first] + rest) == [Ok(first)] + Wrapped(rest)
  {}

  lemma {:induction false} ValuesCons(items: seq<Item>)
    requires items != [] && AllGood(items)
    ensures Values(items) == [items[0].value] + Values(items[1..])
  {}

  /** A full batch ahead of a content is the first batch of the whole. */
  lemma {:induction false} SplitCons(first: Batch, tail: seq<Entry>)
    requires |first| == BATCH_SIZE
    ensures Split(first + tail, BATCH_SIZE) == [first] + Split(tail, BATCH_SIZE)
  {
    if tail == [] {
      assert first + tail == first;
    } else {
      assert (first + tail)[..BATCH_SIZE] == first && (first + tail)[BATCH_SIZE..] == tail;
    }
  }

  lemma {:induction false} TakeOver(first: Batch, tail: seq<Entry>, n: nat)
    requires |first| == BATCH_SIZE && BATCH_SIZE <= n <= |first + tail|
    ensures (first + tail)[..n] == first + tail[..n - BATCH_SIZE]
  {}

  /** Good items are cut into batches of ten. */
  lemma {:induction false} ChunksOfGoodItems(items: seq<Item>, collected: Batch)
    requires AllGood(items) && |collected| < BATCH_SIZE
    ensures TryChunks(items, collected) == Wrapped(Split(collected + Values(items), BATCH_SIZE))
    decreases |items|, 0
  {
    if items == [] {
      assert collected + Values(items) == collected;
    } else {
      var entry, rest := items[0].value, items[1..];
      ValuesCons(items);
      Associative(collected, [entry], Values(rest));
      if |collected| + 1 >= BATCH_SIZE {
        GoodChunks(rest);
        SplitCons(collected + [entry], Values(rest));
        WrappedCons(collected + [entry], Split(Values(rest), BATCH_SIZE));
      } else {
        ChunksOfGoodItems(rest, collected + [entry]);
      }
    }
  }

  lemma {:induction false} GoodChunks(items: seq<Item>)
    requires AllGood(items)
    ensures TryChunks(items, []) == Wrapped(Split(Values(items), BATCH_SIZE))
    decreases |items|, 1
  {
    ChunksOfGoodItems(items, []);
    assert [] + Values(items) == Values(items);
  }

  lemma {:induction false} FullBatchAhead(first: Batch, later: Batch, rest: seq<Result<Batch, SendError>>, n: nat)
    requires |first| == BATCH_SIZE && 0 < n <= |rest| && (n - 1) * BATCH_SIZE <= |later|
    requires rest[..n-1] == Wrapped(Split(later[..(n-1) * BATCH_SIZE], BATCH_SIZE))
    ensures ([Ok(first)] + rest)[..n] == Wrapped(Split((first + later)[..n * BATCH_SIZE], BATCH_SIZE))
    ensures ([Ok(first)] + rest)[n] == rest[n-1]
  {
    var whole := later[..(n-1) * BATCH_SIZE];
    TakeOver(first, later, n * BATCH_SIZE);
    SplitCons(first, whole);
    WrappedCons(first, Split(whole, BATCH_SIZE));
    FirstThenRest(Ok(first), rest, n);
  }

  /** Before the first bad item come exactly the full batches of the good items ahead of it. */
  lemma {:induction false} ChunksBeforeError(items: seq<Item>, collected: Batch, k: nat)
    requires |collected| < BATCH_SIZE
    requires k < |items| && items[k].Err? && AllGood(items[..k])
    ensures var full := (|collected| + k) / BATCH_SIZE;
            var chunks := TryChunks(items, collected);
            && full < |chunks|
            && chunks[full] == Err(items[k].error)
            && full * BATCH_SIZE <= |collected| + k
            && chunks[..full] == Wrapped(Split((collected + Values(items[..k]))[..full * BATCH_SIZE], BATCH_SIZE))
    decreases |items|
  {
    var full := (|collected| + k) / BATCH_SIZE;
    if k == 0 {
      assert full == 0;
      assert (collected + Values(items[..0]))[..0] == [];
      assert TryChunks(items, collected)[0] == Err(items[0].error);
    } else {
      var entry, rest := items[0].value, items[1..];
      assert rest[..k-1] == items[..k][1..];
      ValuesCons(items[..k]);
      var later := Values(rest[..k-1]);
      Associative(collected, [entry], later);
      if |collected| + 1 >= BATCH_SIZE {
        ChunksBeforeError(rest, [], k - 1);
        assert full == (k - 1) / BATCH_SIZE + 1;
        assert [] + later == later;
        assert TryChunks(items, collected) == [Ok(collected + [entry])] + TryChunks(rest, []);
        FullBatchAhead(collected + [entry], later, TryChunks(rest, []), full);
      } else {
        assert TryChunks(items, collected) == TryChunks(rest, collected + [entry]);
        ChunksBeforeError(rest, collected + [entry], k - 1);
      }
    }
  }

  lemma {:induction false} FullChunksBeforeError(items: seq<Item>, k: nat)
    requires k < |items| && items[k].Err? && AllGood(items[..k])
    ensures var full := k / BATCH_SIZE;
            var chunks := TryChunks(items, []);
            && full * BATCH_SIZE <= k
            && var whole := Split(Values(items[..k])[..full * BATCH_SIZE], BATCH_SIZE);
               && |whole| == full < |chunks|
               && chunks[full] == Err(items[k].error)
               && chunks[..full] == Wrapped(whole)
  {
    ChunksBeforeError(items, [], k);
    assert [] + Values(items[..k]) == Values(items[..k]);
  }

  lemma {:induction false} FirstThenRest(first: Result<Batch, SendError>, rest: seq<Result<Batch, SendError>>, n: nat)
    requires 0 < n <= |rest|
    ensures ([first] + rest)[..n] == [first] + rest[..n-1]
    ensures ([first] + rest)[n] == rest[n-1]
  {}

  // ---- the window ----

  datatype Progress = Queued | InFlight | Returned(ok: bool)

  datatype Slot = Slot(batch: Batch, progress: Progress)

  /** The batches pulled so far, those not yet returned in order, the requests sent, and the outcome. */
  datatype Sender = Sender(pulled: nat, window: seq<Slot>, sent: seq<Batch>, outcome: Option<Result<(), SendError>>)

  /**
   What can happen next: another batch is pulled into the window, a queued request is started, a
   request in flight is answered, the first request of the window is handed on, or the end is seen.
   */
  datatype Event = Pull | Begin(slot: nat) | Answer(slot: nat, ok: bool) | HandOn | End

  function SendStep(chunks: seq<Result<Batch, SendError>>, concurrency: nat, s: Sender, event: Event): (s': Sender)
    requires s.pulled <= |chunks|
    ensures s'.pulled <= |chunks|
  {
    if s.outcome.Some? then s else
    match event
    case Pull =>
      if |s.window| >= concurrency || s.pulled == |chunks| then s else
      (match chunks[s.pulled]
       case Err(e) => s.(outcome := Some(Err(e)))
       case Ok(batch) => s.(pulled := s.pulled + 1, window := s.window + [Slot(batch, Queued)]))
    case Begin(k) =>
      if k < |s.window| && s.window[k].progress.Queued?
      then s.(window := s.window[k := s.window[k].(progress := InFlight)], sent := s.sent + [s.window[k].batch])
      else s
    case Answer(k, ok) =>
      if k < |s.window| && s.window[k].progress.InFlight?
      then s.(window := s.window[k := s.window[k].(progress := Returned(ok))])
      else s
    case HandOn =>
      if s.window != [] && s.window[0].progress.Returned? then
        if s.window[0].progress.ok then s.(window := s.window[1..]) else s.(outcome := Some(Err(RequestFailed)))
      else s
    case End =>
      if s.window == [] && s.pulled == |chunks| then s.(outcome := Some(Ok(()))) else s
  }

  function SendEvents(chunks: seq<Result<Batch, SendError>>, concurrency: nat, s: Sender,
                      events: seq<Event>): (s': Sender)
    requires s.pulled <= |chunks|
    ensures s'.pulled <= |chunks|
    decreases |events|
  {
    if events == [] then s
    else SendStep(chunks, concurrency, SendEvents(chunks, concurrency, s, events[..|events|-1]), events[|events|-1])
  }

  function StartSending(concurrency: Option<nat>, queueUrl: Result<Option<string>, SendError>): (s: Sender) {
    var s := Sender(0, [], [], None);
    if concurrency == Some(0) then s.(outcome := Some(Err(ZeroConcurrency)))
    else match queueUrl
      case Err(e) => s.(outcome := Some(Err(e)))
      case Ok(None) => s.(outcome := Some(Err(NoQueueUrl)))
      case Ok(Some(_)) => s
  }

  function Window(concurrency: Option<nat>): (size: nat) {
    match concurrency
    case Some(n) => n
    case None => 1
  }

  // ---- what the window keeps ----

  function QueuedIn(window: seq<Slot>): (batches: seq<Batch>) {
    if window == [] then []
    else (if window[0].progress.Queued? then [window[0].batch] else []) + QueuedIn(window[1..])
  }

  lemma {:induction false} QueuedAppend(a: seq<Slot>, b: seq<Slot>)
    ensures QueuedIn(a + b) == QueuedIn(a) + QueuedIn(b)
  {
    if a == [] {
      assert a + b == b;
    } else {
      assert (a + b)[1..] == a[1..] + b;
      QueuedAppend(a[1..], b);
    }
  }

  lemma {:induction false} QueuedUpdate(window: seq<Slot>, k: nat, slot: Slot)
    requires k < |window|
    ensures multiset(QueuedIn(window[k := slot]))
         == multiset(QueuedIn(window[..k])) + multiset(QueuedIn([slot])) + multiset(QueuedIn(window[k+1..]))
  {
    assert window[k := slot] == window[..k] + ([slot] + window[k+1..]);
    QueuedAppend(window[..k], [slot] + window[k+1..]);
    QueuedAppend([slot], window[k+1..]);
  }

  lemma {:induction false} QueuedOne(slot: Slot)
    ensures QueuedIn([slot]) == if slot.progress.Queued? then [slot.batch] else []
  {
    assert [slot][1..] == [];
  }

  /** Replacing a slot changes what is queued by that slot alone. */
  lemma {:induction false} QueuedChange(window: seq<Slot>, k: nat, slot: Slot)
    requires k < |window|
    ensures multiset(QueuedIn(window[k := slot])) + multiset(QueuedIn([window[k]]))
         == multiset(QueuedIn(window)) + multiset(QueuedIn([slot]))
  {
    QueuedUpdate(window, k, slot);
    QueuedUpdate(window, k, window[k]);
    assert window[k := window[k]] == window;
    Exchange(multiset(QueuedIn(window[..k])), multiset(QueuedIn([window[k]])), multiset(QueuedIn([slot])),
             multiset(QueuedIn(window[k+1..])));
  }

  lemma {:induction false} Exchange<T>(before: multiset<T>, a: multiset<T>, b: multiset<T>, after: multiset<T>)
    ensures (before + b + after) + a == (before + a + after) + b
  {
    var left, right := (before + b + after) + a, (before + a + after) + b;
    assert forall x :: left[x] == right[x];
  }

  lemma {:induction false} QueuedIsKept(window: seq<Slot>, k: nat, slot: Slot)
    requires k < |window| && !window[k].progress.Queued? && !slot.progress.Queued?
    ensures multiset(QueuedIn(window[k := slot])) == multiset(QueuedIn(window))
  {
    QueuedChange(window, k, slot);
    QueuedOne(slot);
    QueuedOne(window[k]);
    WithNothing(multiset(QueuedIn(window[k := slot])));
    WithNothing(multiset(QueuedIn(window)));
  }

  lemma {:induction false} WithNothing<T>(a: multiset<T>)
    ensures a + multiset([]) == a
  {}

  lemma {:induction false} QueuedIsSent(window: seq<Slot>, k: nat, sent: seq<Batch>)
    requires k < |window| && window[k].progress.Queued?
    ensures multiset(sent + [window[k].batch]) + multiset(QueuedIn(window[k := window[k].(progress := InFlight)]))
         == multiset(sent) + multiset(QueuedIn(window))
  {
    var slot := window[k].(progress := InFlight);
    QueuedChange(window, k, slot);
    QueuedOne(slot);
    QueuedOne(window[k]);
    WithNothing(multiset(QueuedIn(window)));
    SentInstead(sent, multiset(QueuedIn(window[k := slot])), multiset(QueuedIn(window)), window[k].batch);
  }

  lemma {:induction false} SentInstead(sent: seq<Batch>, queued': multiset<Batch>, queued: multiset<Batch>,
                                       batch: Batch)
    requires queued' + multiset([batch]) == queued
    ensures multiset(sent + [batch]) + queued' == multiset(sent) + queued
  {
    assert multiset(sent + [batch]) == multiset(sent) + multiset([batch]);
  }

  lemma {:induction false} QueuedSnoc(window: seq<Slot>, batch: Batch)
    ensures multiset(QueuedIn(window + [Slot(batch, Queued)])) == multiset(QueuedIn(window)) + multiset{batch}
  {
    QueuedAppend(window, [Slot(batch, Queued)]);
    QueuedOne(Slot(batch, Queued));
  }

  /** The batches among the first chunks. */
  function Batches(chunks: seq<Result<Batch, SendError>>): (batches: seq<Batch>)
    requires forall i :: 0 <= i < |chunks| ==> chunks[i].Ok?
    ensures |batches| == |chunks|
    ensures forall i :: 0 <= i < |chunks| ==> batches[i] == chunks[i].value
  {
    seq(|chunks|, i requires 0 <= i < |chunks| => chunks[i].value)
  }

  /** Everything pulled has been sent exactly once or is still queued; the window is bounded. */
  ghost predicate SenderInv(chunks: seq<Result<Batch, SendError>>, concurrency: nat, s: Sender) {
    && s.pulled <= |chunks|
    && |s.window| <= concurrency
    && |s.window| <= s.pulled
    && (forall i :: 0 <= i < s.pulled ==> chunks[i].Ok?)
    && multiset(s.sent) + multiset(QueuedIn(s.window)) == multiset(Batches(chunks[..s.pulled]))
    && (s.outcome == Some(Ok(())) ==> s.window == [] && s.pulled == |chunks|)
  }

  lemma {:induction false} BatchesSnoc(chunks: seq<Result<Batch, SendError>>, n: nat)
    requires n < |chunks| && forall i :: 0 <= i <= n ==> chunks[i].Ok?
    ensures Batches(chunks[..n + 1]) == Batches(chunks[..n]) + [chunks[n].value]
  {}

  lemma {:induction false} OneMoreQueued(sent: seq<Batch>, queued: seq<Batch>, queued': seq<Batch>, pulled: seq<Batch>,
                                         batch: Batch)
    requires multiset(sent) + multiset(queued) == multiset(pulled)
    requires multiset(queued') == multiset(queued) + multiset{batch}
    ensures multiset(sent) + multiset(queued') == multiset(pulled + [batch])
  {}

  lemma {:induction false} PulledIsQueued(chunks: seq<Result<Batch, SendError>>, s: Sender)
    requires s.pulled < |chunks| && forall i :: 0 <= i <= s.pulled ==> chunks[i].Ok?
    requires multiset(s.sent) + multiset(QueuedIn(s.window)) == multiset(Batches(chunks[..s.pulled]))
    ensures multiset(s.sent) + multiset(QueuedIn(s.window + [Slot(chunks[s.pulled].value, Queued)]))
         == multiset(Batches(chunks[..s.pulled + 1]))
  {
    var batch := chunks[s.pulled].value;
    QueuedSnoc(s.window, batch);
    BatchesSnoc(chunks, s.pulled);
    OneMoreQueued(s.sent, QueuedIn(s.window), QueuedIn(s.window + [Slot(batch, Queued)]),
                  Batches(chunks[..s.pulled]), batch);
  }

  lemma {:induction false} PullKeepsInv(chunks: seq<Result<Batch, SendError>>, concurrency: nat, s: Sender)
    requires SenderInv(chunks, concurrency, s)
    ensures SenderInv(chunks, concurrency, SendStep(chunks, concurrency, s, Pull))
  {
    if s.outcome.None? && |s.window| < concurrency && s.pulled < |chunks| && chunks[s.pulled].Ok? {
      PulledIsQueued(chunks, s);
    }
  }

  lemma {:induction false} BeginKeepsInv(chunks: seq<Result<Batch, SendError>>, concurrency: nat, s: Sender, k: nat)
    requires SenderInv(chunks, concurrency, s)
    ensures SenderInv(chunks, concurrency, SendStep(chunks, concurrency, s, Begin(k)))
  {
    if k < |s.window| && s.window[k].progress.Queued? {
      QueuedIsSent(s.window, k, s.sent);
    }
  }

  lemma {:induction false} AnswerKeepsInv(chunks: seq<Result<Batch, SendError>>, concurrency: nat, s: Sender, k: nat,
                                          ok: bool)
    requires SenderInv(chunks, concurrency, s)
    ensures SenderInv(chunks, concurrency, SendStep(chunks, concurrency, s, Answer(k, ok)))
  {
    if k < |s.window| && s.window[k].progress.InFlight? {
      QueuedIsKept(s.window, k, s.window[k].(progress := Returned(ok)));
    }
  }

  lemma {:induction false} SendStepKeepsInv(chunks: seq<Result<Batch, SendError>>, concurrency: nat, s: Sender,
                                            event: Event)
    requires SenderInv(chunks, concurrency, s)
    ensures SenderInv(chunks, concurrency, SendStep(chunks, concurrency, s, event))
  {
    match event
    case Pull => PullKeepsInv(chunks, concurrency, s);
    case Begin(k) => BeginKeepsInv(chunks, concurrency, s, k);
    case Answer(k, ok) => AnswerKeepsInv(chunks, concurrency, s, k, ok);
    case HandOn =>
    case End =>
  }

  lemma {:induction false} SendEventsKeepInv(chunks: seq<Result<Batch, SendError>>, concurrency: nat, s: Sender,
                                             events: seq<Event>)
    requires SenderInv(chunks, concurrency, s)
    ensures SenderInv(chunks, concurrency, SendEvents(chunks, concurrency, s, events))
    decreases |events|
  {
    if events != [] {
      SendEventsKeepInv(chunks, concurrency, s, events[..|events|-1]);
      var s1 := SendEvents(chunks, concurrency, s, events[..|events|-1]);
      SendStepKeepsInv(chunks, concurrency, s1, events[|events|-1]);
    }
  }

  lemma {:induction false} StartInv(chunks: seq<Result<Batch, SendError>>, concurrency: Option<nat>,
                                    queueUrl: Result<Option<string>, SendError>)
    ensures SenderInv(chunks, Window(concurrency), StartSending(concurrency, queueUrl))
  {
    assert QueuedIn([]) == [];
    assert Batches(chunks[..0]) == [];
  }

  // ---- what is sent ----

  /** Each message's text, under its position in the stream as id. */
  predicate NumberedEntries(bodies: seq<Result<string, SendError>>, entries: seq<Entry>) {
    && |entries| == |bodies|
    && forall i :: 0 <= i < |bodies| ==> bodies[i].Ok? && entries[i] == Entry(Decimal(i), bodies[i].value)
  }

  lemma {:induction false} GoodEntries(bodies: seq<Result<string, SendError>>)
    requires AllGood(Entries(bodies))
    ensures NumberedEntries(bodies, Values(Entries(bodies)))
  {
    var items := Entries(bodies);
    forall i | 0 <= i < |bodies| ensures bodies[i].Ok? && Values(items)[i] == Entry(Decimal(i), bodies[i].value) {
      assert items[i].Ok?;
    }
  }

  /**
   If sending succeeds, every message was good, and the requests are exactly the batches of ten that
   the messages are cut into, each sent once: ceil(n / 10) batches of 1 to 10 that concatenate to the
   messages. At any time at most `concurrency` batches are unreturned.
   */
  lemma {:induction false} SuccessSendsEverythingOnce(bodies: seq<Result<string, SendError>>, concurrency: Option<nat>,
                                                      queueUrl: Result<Option<string>, SendError>, events: seq<Event>)
    ensures var items := Entries(bodies);
            var s := SendEvents(TryChunks(items, []), Window(concurrency), StartSending(concurrency, queueUrl), events);
            && |s.window| <= (if concurrency.Some? then concurrency.value else 1)
            && (s.outcome == Some(Ok(())) ==>
                  && AllGood(items)
                  && NumberedEntries(bodies, Values(items))
                  && var batches := Split(Values(items), 10);
                     && multiset(s.sent) == multiset(batches)
                     && |batches| == CeilDiv(|bodies|, 10)
                     && Concat(batches) == Values(items)
                     && (forall i :: 0 <= i < |batches| ==> 1 <= |batches[i]| <= 10))
  {
    var items := Entries(bodies);
    var chunks := TryChunks(items, []);
    var s := SendEvents(chunks, Window(concurrency), StartSending(concurrency, queueUrl), events);
    StartInv(chunks, concurrency, queueUrl);
    SendEventsKeepInv(chunks, Window(concurrency), StartSending(concurrency, queueUrl), events);
    if s.outcome == Some(Ok(())) {
      AllGoodIfNoError(items);
      GoodEntries(bodies);
      GoodChunks(items);
      SplitShape(Values(items), BATCH_SIZE);
      AllPulled(chunks, Split(Values(items), BATCH_SIZE), Window(concurrency), s);
    }
  }

  lemma {:induction false} AllPulled(chunks: seq<Result<Batch, SendError>>, batches: seq<Batch>, concurrency: nat,
                                     s: Sender)
    requires SenderInv(chunks, concurrency, s) && s.outcome == Some(Ok(()))
    requires chunks == Wrapped(batches)
    ensures multiset(s.sent) == multiset(batches)
  {
    assert chunks[..s.pulled] == chunks;
    assert Batches(chunks) == batches;
  }

  lemma {:induction false} FirstError(items: seq<Item>) returns (k: nat)
    requires !AllGood(items)
    ensures k < |items| && items[k].Err? && AllGood(items[..k])
  {
    if items[0].Err? {
      k := 0;
    } else {
      var i :| 0 <= i < |items| && items[i].Err?;
      assert items[1..][i - 1] == items[i];
      var k' := FirstError(items[1..]);
      k := k' + 1;
      assert items[..k][1..] == items[1..][..k'];
      forall j | 0 <= j < k ensures items[..k][j].Ok? {
        if j > 0 { assert items[..k][j] == items[1..][..k'][j - 1]; }
      }
    }
  }

  lemma {:induction false} AllGoodIfNoError(items: seq<Item>)
    requires forall i :: 0 <= i < |TryChunks(items, [])| ==> TryChunks(items, [])[i].Ok?
    ensures AllGood(items)
  {
    if !AllGood(items) {
      var k := FirstError(items);
      ChunksBeforeError(items, [], k);
    }
  }

  /**
   If the first bad message is the k-th, sending cannot succeed, and the requests sent are among the
   first floor(k / 10) full batches, none of them sent twice: nothing at or after the bad message, nor
   in its batch, is sent.
   */
  lemma {:induction false} ErrorStopsSending(bodies: seq<Result<string, SendError>>, concurrency: Option<nat>,
                                             queueUrl: Result<Option<string>, SendError>, events: seq<Event>, k: nat)
    requires k < |bodies| && bodies[k].Err? && forall i :: 0 <= i < k ==> bodies[i].Ok?
    ensures var items := Entries(bodies);
            var s := SendEvents(TryChunks(items, []), Window(concurrency), StartSending(concurrency, queueUrl), events);
            var full := k / 10;
            && AllGood(items[..k])
            && s.outcome != Some(Ok(()))
            && |s.sent| <= full
            && full * 10 <= k
            && multiset(s.sent) <= multiset(Split(Values(items[..k])[..full * 10], 10))
            && forall b <- s.sent :: b in Split(Values(items[..k])[..full * 10], 10)
  {
    var items := Entries(bodies);
    var chunks := TryChunks(items, []);
    var full := k / BATCH_SIZE;
    var s := SendEvents(chunks, Window(concurrency), StartSending(concurrency, queueUrl), events);
    StartInv(chunks, concurrency, queueUrl);
    SendEventsKeepInv(chunks, Window(concurrency), StartSending(concurrency, queueUrl), events);
    FullChunksBeforeError(items, k);
    SentBeforeError(chunks, Window(concurrency), s, Split(Values(items[..k])[..full * BATCH_SIZE], BATCH_SIZE));
  }

  /** Nothing is pulled past a bad chunk, so only batches ahead of it are sent, and each at most once. */
  lemma {:induction false} SentBeforeError(chunks: seq<Result<Batch, SendError>>, concurrency: nat, s: Sender,
                                           whole: seq<Batch>)
    requires SenderInv(chunks, concurrency, s)
    requires |whole| < |chunks| && chunks[|whole|].Err? && chunks[..|whole|] == Wrapped(whole)
    ensures s.outcome != Some(Ok(()))
    ensures |s.sent| <= |whole|
    ensures multiset(s.sent) <= multiset(whole)
    ensures forall b <- s.sent :: b in whole
  {
    assert s.pulled <= |whole| by { assert chunks[|whole|].Err?; }
    assert Batches(chunks[..s.pulled]) == whole[..s.pulled] by {
      assert forall i :: 0 <= i < s.pulled ==> chunks[..|whole|][i] == Ok(whole[i]);
    }
    SentAreAmong(s.sent, QueuedIn(s.window), whole, s.pulled);
    forall b | b in s.sent ensures b in whole {
      assert b in multiset(s.sent) && b in multiset(whole);
    }
  }

  lemma {:induction false} SentAreAmong(sent: seq<Batch>, queued: seq<Batch>, whole: seq<Batch>, pulled: nat)
    requires pulled <= |whole| && multiset(sent) + multiset(queued) == multiset(whole[..pulled])
    ensures multiset(sent) <= multiset(whole)
    ensures |sent| <= |whole|
  {
    assert whole == whole[..pulled] + whole[pulled..];
    SentArePulled(sent, queued, whole[..pulled]);
  }

  lemma {:induction false} SentArePulled(sent: seq<Batch>, queued: seq<Batch>, pulled: seq<Batch>)
    requires multiset(sent) + multiset(queued) == multiset(pulled)
    ensures |sent| <= |pulled|
    ensures forall b <- sent :: b in pulled
  {
    assert |multiset(sent) + multiset(queued)| == |sent| + |queued|;
    forall b | b in sent ensures b in pulled {
      assert b in multiset(sent);
      assert b in multiset(pulled);
    }
  }
}
