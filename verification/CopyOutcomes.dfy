/** How a multipart copy ends: what the answers of the service have to do with its outcome. */
module CopyOutcomes {
  import opened Prelude
  import opened Arithmetic
  import opened S3Service
  import opened CopyPlan
  import opened CopyRun

  // ---- what happened in a run of events ----

  /** An event is of consequence only for a copy that is in flight, or a completion that was asked for. */
  predicate TakesEffect(c: Copy, event: CopyEvent) {
    match event
    case PartCopied(k, _) => c.phase.Collecting? && k < |c.inFlight|
    case PartFailed(k) => c.phase.Collecting? && k < |c.inFlight|
    case CompletionAnswered(_) => c.phase.Finishing?
  }

  /** How many part copies have succeeded. */
  function Landings(content: seq<byte>, plan: seq<PlannedRange>, max: nat, c: Copy, events: seq<CopyEvent>): (n: nat)
    requires c.next <= |plan|
    decreases |events|
  {
    if events == [] then 0
    else
      var front, last := events[..|events|-1], events[|events|-1];
      Landings(content, plan, max, c, front)
      + if last.PartCopied? && TakesEffect(CopyEvents(content, plan, max, c, front), last) then 1 else 0
  }

  /** Some part copy has failed, or the completion has. */
  predicate SomethingFailed(content: seq<byte>, plan: seq<PlannedRange>, max: nat, c: Copy, events: seq<CopyEvent>)
    requires c.next <= |plan|
    decreases |events|
  {
    events != [] &&
    var front, last := events[..|events|-1], events[|events|-1];
    || SomethingFailed(content, plan, max, c, front)
    || (&& TakesEffect(CopyEvents(content, plan, max, c, front), last)
        && (last.PartFailed? || last == CompletionAnswered(false)))
  }

  /** The completion has succeeded. */
  predicate WasCompleted(content: seq<byte>, plan: seq<PlannedRange>, max: nat, c: Copy, events: seq<CopyEvent>)
    requires c.next <= |plan|
    decreases |events|
  {
    events != [] &&
    var front, last := events[..|events|-1], events[|events|-1];
    || WasCompleted(content, plan, max, c, front)
    || (TakesEffect(CopyEvents(content, plan, max, c, front), last) && last == CompletionAnswered(true))
  }

  function Min(a: int, b: int): (m: int) {
    if a < b then a else b
  }

  // ---- what comes of it ----

  /** The outcome of a copy of n parts, told by what happened: failure, success, or which step it is at. */
  ghost predicate Told(content: seq<byte>, max: nat, n: nat, c: Copy, landings: nat, failed: bool, completed: bool) {
    && |c.completed| == landings <= n
    && !(failed && completed)
    && (c.phase.Failed? <==> failed)
    && (c.phase.Failed? ==> c.phase.error == ServiceError)
    && (c.phase.Done? <==> completed)
    && (c.phase.Done? ==> c.phase.copied == Some(content) && landings == n)
    && (c.phase.Finishing? <==> !failed && !completed && landings == n)
    && (c.phase.Collecting? ==> |c.inFlight| == Min(max, n - landings))
  }

  lemma {:induction false} ToldAtStart(content: seq<byte>, partSize: PartSize, max: nat, server: Parts,
                                       uploadId: string)
    requires partSize <= |content| <= MAX_SOURCE_SIZE && max > 0
    ensures Told(content, max, CeilDiv(|content|, partSize), StartCopy(content, partSize, max, server, uploadId),
                 0, false, false)
  {
    BeginInv(content, partSize, max, server, uploadId);
    PlanLength(content, partSize);
  }

  lemma {:induction false} ToldAfter(content: seq<byte>, partSize: PartSize, max: nat, c: Copy, event: CopyEvent,
                                     landings: nat, failed: bool, completed: bool)
    requires 0 < |content| <= MAX_SOURCE_SIZE && max > 0
    requires CopyInv(content, partSize, max, c) && c.next <= |ByteRanges(|content|, partSize)|
    requires Told(content, max, CeilDiv(|content|, partSize), c, landings, failed, completed)
    ensures var effect := TakesEffect(c, event);
            Told(content, max, CeilDiv(|content|, partSize),
                 CopyStep(content, ByteRanges(|content|, partSize), max, c, event),
                 landings + (if effect && event.PartCopied? then 1 else 0),
                 failed || (effect && (event.PartFailed? || event == CompletionAnswered(false))),
                 completed || (effect && event == CompletionAnswered(true)))
  {
    PlanLength(content, partSize);
    CountFitsI32(|content|, partSize);
    if TakesEffect(c, event) {
      match event
      case PartCopied(k, tag) => LandingKeepsInv(content, partSize, max, c, k, tag);
      case PartFailed(k) =>
      case CompletionAnswered(ok) => FinishedCopyIsExact(content, partSize, max, c);
    }
  }

  /**
   For every run of events: a copy has failed if and only if some part copy or the completion has; it is
   done if and only if its completion was asked for and succeeded, which takes n successful part
   copies, and then the copied object is the source; its completion is awaited if and only if n part
   copies have succeeded and nothing else has happened; and until then as many copies are in flight as
   the limit allows and are still to be made.
   */
  lemma {:induction false} CopyOutcome(content: seq<byte>, partSize: PartSize, max: nat, server: Parts,
                                       uploadId: string, events: seq<CopyEvent>)
    requires partSize <= |content| <= MAX_SOURCE_SIZE && max > 0
    ensures StartCopy(content, partSize, max, server, uploadId).next <= |ByteRanges(|content|, partSize)|
    ensures var plan, c0 := ByteRanges(|content|, partSize), StartCopy(content, partSize, max, server, uploadId);
            Told(content, max, CeilDiv(|content|, partSize), CopyEvents(content, plan, max, c0, events),
                 Landings(content, plan, max, c0, events),
                 SomethingFailed(content, plan, max, c0, events),
                 WasCompleted(content, plan, max, c0, events))
    decreases |events|
  {
    var plan, c0 := ByteRanges(|content|, partSize), StartCopy(content, partSize, max, server, uploadId);
    BeginInv(content, partSize, max, server, uploadId);
    if events == [] {
      ToldAtStart(content, partSize, max, server, uploadId);
    } else {
      var front, last := events[..|events|-1], events[|events|-1];
      CopyIsExact(content, partSize, max, server, uploadId, front);
      CopyOutcome(content, partSize, max, server, uploadId, front);
      ToldAfter(content, partSize, max, CopyEvents(content, plan, max, c0, front), last,
                Landings(content, plan, max, c0, front),
                SomethingFailed(content, plan, max, c0, front),
                WasCompleted(content, plan, max, c0, front));
    }
  }

  /** A copy that has ended stays as it is. */
  lemma {:induction false} EndedStays(content: seq<byte>, plan: seq<PlannedRange>, max: nat, c: Copy,
                                      events: seq<CopyEvent>)
    requires c.next <= |plan| && (c.phase.Done? || c.phase.Failed?)
    ensures CopyEvents(content, plan, max, c, events) == c
    decreases |events|
  {
    if events != [] {
      EndedStays(content, plan, max, c, events[..|events|-1]);
    }
  }

  /**
   A multipart copy starts exactly when the part is no larger than the source and the service answers
   with an upload id; otherwise it fails with the reason, and nothing has been copied.
   */
  lemma {:induction false} BeginOutcome(content: seq<byte>, partSize: PartSize, max: nat, server: Parts,
                                        created: Result<Option<string>, CopyError>)
    requires |content| <= MAX_SOURCE_SIZE
    ensures var c := Begin(|content|, partSize, max, server, created);
            && c.completed == [] && c.server == server
            && (c.phase.Collecting? <==> partSize <= |content| && created.Ok? && created.value.Some?)
            && (c.phase.Collecting? ==> |c.inFlight| == Min(max, CeilDiv(|content|, partSize)))
            && (!c.phase.Collecting? ==>
                  && c.inFlight == []
                  && c.phase == Failed(if partSize > |content| then PartSizeGreaterThanSource(partSize, |content|)
                                       else if created.Err? then created.error
                                       else MissingUploadId))
  {
    if partSize <= |content| && created.Ok? && created.value.Some? {
      PlanLength(content, partSize);
      if max > 0 {
        BeginInv(content, partSize, max, server, created.value.value);
        ToldAtStart(content, partSize, max, server, created.value.value);
        StartTouchesNothing(ByteRanges(|content|, partSize), max, Copy(0, [], [], server, Collecting));
      }
    }
  }

  lemma {:induction false} StartTouchesNothing(plan: seq<PlannedRange>, max: nat, c: Copy)
    requires c.next <= |plan|
    ensures var c' := Fill(plan, max, c); c'.server == c.server && c'.completed == c.completed
    decreases |plan| - c.next
  {
    if |c.inFlight| < max && c.next < |plan| && plan[c.next].Ok? {
      StartTouchesNothing(plan, max, StartNext(c, plan[c.next].value.0, plan[c.next].value.1));
    }
  }

  // ---- the checks on sizes and ranges ----

  /** Which way a source is copied, for every length the service may report, or the error. */
  lemma {:induction false} SendOutcome(length: int, partSize: PartSize)
    ensures Send(None, partSize) == Err(MissingContentLength)
    ensures Send(Some(length), partSize) ==
            if length < 0 then Err(SourceTooSmall(length))
            else if length > 5 * 1024 * 1024 * 1024 * 1024 then Err(SourceTooLarge(length))
            else if length <= partSize then Ok(AtomicCopy)
            else Ok(MultipartCopy(length))
  {}

  /** The part sizes that a copier accepts are 5 MiB to 5 GiB, and they are all the part sizes there are. */
  lemma {:induction false} PartSizeOutcome(value: int, partSize: PartSize)
    ensures PartSizeFrom(value) ==
            if value < 5 * 1024 * 1024 then Err(PartTooSmall(value))
            else if value > 5 * 1024 * 1024 * 1024 then Err(PartTooLarge(value))
            else Ok(value)
    ensures 5 * 1024 * 1024 <= partSize <= 5 * 1024 * 1024 * 1024
  {}

  /** An empty source has no parts to copy, and a range must start at a byte and not end before it. */
  lemma {:induction false} RefusedRanges(partSize: PartSize, start: int, end: int)
    ensures ByteRanges(0, partSize) == [Err(SourceSizeZero)] && PartCount(0, partSize) == Err(SourceSizeZero)
    ensures ByteRangeFrom(start, end) ==
            if start < 0 then Err(NegativeStart(start))
            else if end < start then Err(InvalidRange(start, end))
            else Ok(ByteRange(start, end))
  {}
}
