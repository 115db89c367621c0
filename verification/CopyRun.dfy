/**
 Running a multipart copy: parts are copied concurrently and finish in any order, each finished
 copy making room for the next planned one; when all are done the sorted list is submitted.
 */
module CopyRun {
  import opened Prelude
  import opened Arithmetic
  import opened Cutting
  import opened S3Service
  import opened Multipart
  import opened MultipartAccounting
  import opened MultipartInvariant
  import opened MultipartObject
  import opened MultipartTheorems
  import opened CopyPlan

  /** A part copy in flight. */
  datatype CopyPart = CopyPart(number: int, range: ByteRange)

  datatype Phase =
    | Collecting
    | Finishing(request: seq<CompletedPart>)
    | Done(copied: Option<seq<byte>>)
    | Failed(error: CopyError)

  datatype Copy = Copy(
    next: nat, inFlight: seq<CopyPart>, completed: seq<CompletedPart>, server: Parts, phase: Phase)

  /** What the environment can do next: a copy in flight succeeds or fails, or the completion is answered. */
  datatype CopyEvent = PartCopied(which: nat, tag: Tag) | PartFailed(which: nat) | CompletionAnswered(ok: bool)

  function StartNext(c: Copy, number: int, range: ByteRange): (c': Copy) {
    c.(next := c.next + 1, inFlight := c.inFlight + [CopyPart(number, range)])
  }

  /** Starts planned copies while there is room; a planning error ends the copy at once. */
  function Fill(plan: seq<PlannedRange>, max: nat, c: Copy): (c': Copy)
    requires c.next <= |plan|
    ensures c'.next <= |plan|
    decreases |plan| - c.next
  {
    if |c.inFlight| < max && c.next < |plan| then
      match plan[c.next]
      case Err(e) => c.(phase := Failed(e))
      case Ok((number, range)) => Fill(plan, max, StartNext(c, number, range))
    else
      c
  }

  /** When nothing is in flight and nothing is left to start, the sorted list is submitted. */
  function Settle(plan: seq<PlannedRange>, max: nat, c: Copy): (c': Copy) {
    if c.phase.Collecting? && max > 0 && c.inFlight == [] && c.next == |plan|
    then c.(phase := Finishing(SortByNumber(c.completed)))
    else c
  }

  function Begin(sourceSize: SourceSize, partSize: PartSize, max: nat, server: Parts, created: Result<Option<string>,
                 CopyError>): (c: Copy) {
    var c := Copy(0, [], [], server, Collecting);
    if partSize > sourceSize then c.(phase := Failed(PartSizeGreaterThanSource(partSize, sourceSize)))
    else match created
      case Err(e) => c.(phase := Failed(e))
      case Ok(None) => c.(phase := Failed(MissingUploadId))
      case Ok(Some(_)) =>
        var plan := ByteRanges(sourceSize, partSize);
        Settle(plan, max, Fill(plan, max, c))
  }

  predicate InContent(content: seq<byte>, range: ByteRange) {
    0 <= range.start <= range.end < |content|
  }

  function Remove<T>(s: seq<T>, k: nat): (r: seq<T>)
    requires k < |s|
  {
    s[..k] + s[k+1..]
  }

  /** The copy in flight at this place succeeds: the service holds the part, and it is completed. */
  function LandCopy(content: seq<byte>, c: Copy, k: nat, tag: Tag): (c': Copy)
    requires k < |c.inFlight| && InContent(content, c.inFlight[k].range)
  {
    var p := c.inFlight[k];
    c.(inFlight := Remove(c.inFlight, k),
       completed := c.completed + [CompletedPart(p.number, tag)],
       server := c.server[p.number := Stored(Slice(content, p.range), tag)])
  }

  function CopyStep(content: seq<byte>, plan: seq<PlannedRange>, max: nat, c: Copy, event: CopyEvent): (c': Copy)
    requires c.next <= |plan|
    ensures c'.next <= |plan|
  {
    match (c.phase, event)
    case (Collecting, PartCopied(k, tag)) =>
      if k >= |c.inFlight| then c else
      var p := c.inFlight[k];
      if p.number > CopyPlan.I32_MAX then c.(phase := Failed(PartNumberRange))
      else if !InContent(content, p.range) then c.(phase := Failed(ServiceError))
      else Settle(plan, max, Fill(plan, max, LandCopy(content, c, k, tag)))
    case (Collecting, PartFailed(k)) =>
      if k >= |c.inFlight| then c
      else if c.inFlight[k].number > CopyPlan.I32_MAX then c.(phase := Failed(PartNumberRange))
      else c.(phase := Failed(ServiceError))
    case (Finishing(request), CompletionAnswered(ok)) =>
      c.(phase := if ok then Done(Assemble(c.server, request)) else Failed(ServiceError))
    case _ => c
  }

  function CopyEvents(content: seq<byte>, plan: seq<PlannedRange>, max: nat, c: Copy,
                      events: seq<CopyEvent>): (c': Copy)
    requires c.next <= |plan|
    ensures c'.next <= |plan|
    decreases |events|
  {
    if events == [] then c
    else CopyStep(content, plan, max, CopyEvents(content, plan, max, c, events[..|events|-1]), events[|events|-1])
  }

  // ---- the invariant of a copy ----

  /** The parts that the copy has to make of its source. */
  function Planned(content: seq<byte>, partSize: PartSize): (parts: seq<Part>)
    ensures |parts| == |Split(content, partSize)|
    ensures forall i :: 0 <= i < |parts| ==> parts[i] == Part(i + 1, Split(content, partSize)[i])
  {
    var bodies := Split(content, partSize);
    seq(|bodies|, i requires 0 <= i < |bodies| => Part(i + 1, bodies[i]))
  }

  function AsUpload(content: seq<byte>, p: CopyPart): (u: Upload) {
    Upload(Part(p.number, if InContent(content, p.range) then Slice(content, p.range) else []), None)
  }

  function AsUploads(content: seq<byte>, inFlight: seq<CopyPart>): (uploads: seq<Upload>)
    ensures |uploads| == |inFlight|
    ensures forall i :: 0 <= i < |inFlight| ==> uploads[i] == AsUpload(content, inFlight[i])
  {
    seq(|inFlight|, i requires 0 <= i < |inFlight| => AsUpload(content, inFlight[i]))
  }

  predicate AllInContent(content: seq<byte>, inFlight: seq<CopyPart>, last: int) {
    forall k :: 0 <= k < |inFlight| ==> InContent(content, inFlight[k].range) && inFlight[k].number <= last
  }

  /** How far the copy has come: the planned parts up to `next` are in flight or completed. */
  predicate CopyShape(content: seq<byte>, partSize: PartSize, max: nat, c: Copy) {
    && c.next <= |Planned(content, partSize)|
    && |c.inFlight| <= max
    && |c.inFlight| + |c.completed| == c.next
    && AllInContent(content, c.inFlight, c.next)
  }

  ghost predicate CopyTracked(content: seq<byte>, partSize: PartSize, c: Copy)
    requires c.next <= |Planned(content, partSize)|
  {
    Tracked(c.server, 1, [], Planned(content, partSize)[..c.next], AsUploads(content, c.inFlight), c.completed)
  }

  ghost predicate CopyAccount(content: seq<byte>, partSize: PartSize, max: nat, c: Copy) {
    CopyShape(content, partSize, max, c) && CopyTracked(content, partSize, c)
  }

  ghost predicate CopyInv(content: seq<byte>, partSize: PartSize, max: nat, c: Copy) {
    match c.phase
    case Collecting =>
      && CopyAccount(content, partSize, max, c)
      && c.inFlight != []
      && (|c.inFlight| == max || c.next == |Planned(content, partSize)|)
    case Finishing(request) =>
      && CopyAccount(content, partSize, max, c)
      && c.inFlight == []
      && c.next == |Planned(content, partSize)|
      && request == SortByNumber(c.completed)
    case Done(copied) => copied == Some(content)
    case Failed(error) => error == ServiceError
  }

  lemma {:induction false} PlanMatches(content: seq<byte>, partSize: PartSize, i: nat)
    requires 0 < |content| <= MAX_SOURCE_SIZE
    requires i < |ByteRanges(|content|, partSize)|
    ensures |ByteRanges(|content|, partSize)| == |Planned(content, partSize)|
    ensures var planned := ByteRanges(|content|, partSize)[i];
            && planned.Ok?
            && InContent(content, planned.value.1)
            && AsUpload(content, CopyPart(planned.value.0, planned.value.1)).part == Planned(content, partSize)[i]
  {
    RangesCutCanonically(content, partSize, i);
    RangesTile(|content|, partSize);
    SplitShape(content, partSize);
  }

  lemma {:induction false} PlanLength(content: seq<byte>, partSize: PartSize)
    requires 0 < |content| <= MAX_SOURCE_SIZE
    ensures |ByteRanges(|content|, partSize)| == |Planned(content, partSize)| == CeilDiv(|content|, partSize) > 0
  {
    RangesTile(|content|, partSize);
    SplitShape(content, partSize);
  }

  lemma {:induction false} AsUploadsAppend(content: seq<byte>, a: seq<CopyPart>, b: seq<CopyPart>)
    ensures AsUploads(content, a + b) == AsUploads(content, a) + AsUploads(content, b)
  {}

  lemma {:induction false} AllInContentAppend(content: seq<byte>, inFlight: seq<CopyPart>, last: int, p: CopyPart)
    requires AllInContent(content, inFlight, last)
    requires InContent(content, p.range) && p.number == last + 1
    ensures AllInContent(content, inFlight + [p], last + 1)
  {}

  lemma {:induction false} AllInContentRemove(content: seq<byte>, inFlight: seq<CopyPart>, last: int, k: nat)
    requires AllInContent(content, inFlight, last) && k < |inFlight|
    ensures AllInContent(content, Remove(inFlight, k), last)
  {
    var rest := Remove(inFlight, k);
    forall j | 0 <= j < |rest| ensures InContent(content, rest[j].range) && rest[j].number <= last {
      assert rest[j] == if j < k then inFlight[j] else inFlight[j + 1];
    }
  }

  lemma {:induction false} StartKeepsShape(content: seq<byte>, partSize: PartSize, max: nat, c: Copy)
    requires 0 < |content| <= MAX_SOURCE_SIZE
    requires CopyShape(content, partSize, max, c)
    requires |c.inFlight| < max && c.next < |ByteRanges(|content|, partSize)|
    ensures ByteRanges(|content|, partSize)[c.next].Ok?
    ensures var (number, range) := ByteRanges(|content|, partSize)[c.next].value;
            && CopyShape(content, partSize, max, StartNext(c, number, range))
            && AsUpload(content, CopyPart(number, range)).part == Planned(content, partSize)[c.next]
  {
    PlanMatches(content, partSize, c.next);
    var (number, range) := ByteRanges(|content|, partSize)[c.next].value;
    AllInContentAppend(content, c.inFlight, c.next, CopyPart(number, range));
  }

  lemma {:induction false} StartKeepsTracked(content: seq<byte>, partSize: PartSize, c: Copy, number: int,
                                             range: ByteRange)
    requires c.next < |Planned(content, partSize)| && CopyTracked(content, partSize, c)
    requires AsUpload(content, CopyPart(number, range)).part == Planned(content, partSize)[c.next]
    ensures CopyTracked(content, partSize, StartNext(c, number, range))
  {
    var planned, p := Planned(content, partSize), CopyPart(number, range);
    var more := [planned[c.next]];
    StartKeepsAccount(c.server, 1, [], planned[..c.next], AsUploads(content, c.inFlight), c.completed, more);
    assert planned[..c.next + 1] == planned[..c.next] + more;
    AsUploadsAppend(content, c.inFlight, [p]);
    assert AsUploads(content, [p]) == Start(more);
  }

  lemma {:induction false} StartOne(content: seq<byte>, partSize: PartSize, max: nat, c: Copy)
    requires 0 < |content| <= MAX_SOURCE_SIZE
    requires CopyAccount(content, partSize, max, c)
    requires |c.inFlight| < max && c.next < |ByteRanges(|content|, partSize)|
    ensures ByteRanges(|content|, partSize)[c.next].Ok?
    ensures var (number, range) := ByteRanges(|content|, partSize)[c.next].value;
            CopyAccount(content, partSize, max, StartNext(c, number, range))
  {
    PlanLength(content, partSize);
    StartKeepsShape(content, partSize, max, c);
    var (number, range) := ByteRanges(|content|, partSize)[c.next].value;
    StartKeepsTracked(content, partSize, c, number, range);
  }

  lemma {:induction false} FillKeepsAccount(content: seq<byte>, partSize: PartSize, max: nat, c: Copy)
    requires 0 < |content| <= MAX_SOURCE_SIZE
    requires CopyAccount(content, partSize, max, c) && c.phase.Collecting?
    requires c.next <= |ByteRanges(|content|, partSize)|
    ensures var c' := Fill(ByteRanges(|content|, partSize), max, c);
            && CopyAccount(content, partSize, max, c') && c'.phase.Collecting?
            && c'.completed == c.completed
            && (|c'.inFlight| == max || c'.next == |Planned(content, partSize)|)
    decreases |ByteRanges(|content|, partSize)| - c.next
  {
    PlanLength(content, partSize);
    if |c.inFlight| < max && c.next < |ByteRanges(|content|, partSize)| {
      StartOne(content, partSize, max, c);
      var (number, range) := ByteRanges(|content|, partSize)[c.next].value;
      FillKeepsAccount(content, partSize, max, StartNext(c, number, range));
    }
  }

  /** Filling up and settling re-establishes the invariant. */
  lemma {:induction false} ResumeKeepsInv(content: seq<byte>, partSize: PartSize, max: nat, c: Copy)
    requires 0 < |content| <= MAX_SOURCE_SIZE && max > 0
    requires CopyAccount(content, partSize, max, c) && c.phase.Collecting?
    requires c.next <= |ByteRanges(|content|, partSize)|
    ensures var plan := ByteRanges(|content|, partSize);
            var c' := Settle(plan, max, Fill(plan, max, c));
            && CopyInv(content, partSize, max, c')
            && c'.completed == c.completed
            && (c'.phase.Collecting? || c'.phase.Finishing?)
            && (c'.phase.Finishing? <==> |c'.completed| == |plan|)
            && |c'.inFlight| <= max
  {
    FillKeepsAccount(content, partSize, max, c);
    PlanLength(content, partSize);
  }

  lemma {:induction false} OneLands(server: Parts, issued: seq<Part>, uploads: seq<Upload>,
                                    completed: seq<CompletedPart>, k: nat, tag: Tag)
    requires Tracked(server, 1, [], issued, uploads, completed)
    requires k < |uploads|
    ensures var part := uploads[k].part;
            Tracked(server[part.number := Stored(part.body, tag)], 1, [], issued,
                    Remove(uploads, k), completed + [CompletedPart(part.number, tag)])
  {
    var part := uploads[k].part;
    var done := CompletedPart(part.number, tag);
    var server' := server[part.number := Stored(part.body, tag)];
    LandingLeavesOthers(server, issued, uploads, completed, k, tag);
    assert LandedPart(server', done) == part;
    AppendLanded(server, server', completed, done, part);
    UploadsWithout(uploads, k);
    assert completed[0..] == completed;
    assert (completed + [done])[0..] == completed + [done];
  }

  lemma {:induction false} LandingLeavesOthers(server: Parts, issued: seq<Part>, uploads: seq<Upload>,
                                               completed: seq<CompletedPart>, k: nat, tag: Tag)
    requires Tracked(server, 1, [], issued, uploads, completed)
    requires k < |uploads|
    ensures var part := uploads[k].part;
            var server' := server[part.number := Stored(part.body, tag)];
            && AllHeld(server', completed)
            && forall i :: 0 <= i < |completed| ==>
                 LandedPart(server', completed[i]) == LandedPart(server, completed[i])
  {
    TrackedNumbers(server, 1, [], issued, uploads, completed);
    var all := UploadParts(uploads) + Landed(server, completed[0..]);
    forall i | 0 <= i < |completed| ensures completed[i].number != uploads[k].part.number {
      assert all[k] == uploads[k].part;
      assert all[|uploads| + i] == LandedPart(server, completed[i]);
    }
  }

  lemma {:induction false} AppendLanded(server: Parts, server': Parts, completed: seq<CompletedPart>,
                                        done: CompletedPart, part: Part)
    requires forall i :: 0 <= i < |completed| ==> LandedPart(server', completed[i]) == LandedPart(server, completed[i])
    requires LandedPart(server', done) == part
    ensures Landed(server', completed + [done]) == Landed(server, completed) + [part]
  {}

  lemma {:induction false} UploadsWithout(uploads: seq<Upload>, k: nat)
    requires k < |uploads|
    ensures multiset(UploadParts(Remove(uploads, k))) + multiset{uploads[k].part} == multiset(UploadParts(uploads))
  {
    UploadPartsAppend(uploads[..k], uploads[k+1..]);
    UploadPartsAppend(uploads[..k], [uploads[k]] + uploads[k+1..]);
    UploadPartsAppend([uploads[k]], uploads[k+1..]);
    assert UploadParts([uploads[k]]) == [uploads[k].part];
    assert uploads == uploads[..k] + ([uploads[k]] + uploads[k+1..]);
  }

  lemma {:induction false} AsUploadsRemove(content: seq<byte>, inFlight: seq<CopyPart>, k: nat)
    requires k < |inFlight|
    ensures AsUploads(content, Remove(inFlight, k)) == Remove(AsUploads(content, inFlight), k)
  {}

  lemma {:induction false} LandedCopyKeepsAccount(content: seq<byte>, partSize: PartSize, max: nat, c: Copy, k: nat,
                                                  tag: Tag)
    requires CopyAccount(content, partSize, max, c) && k < |c.inFlight|
    ensures CopyAccount(content, partSize, max, LandCopy(content, c, k, tag))
  {
    OneLands(c.server, Planned(content, partSize)[..c.next], AsUploads(content, c.inFlight), c.completed, k, tag);
    AsUploadsRemove(content, c.inFlight, k);
    AllInContentRemove(content, c.inFlight, c.next, k);
  }

  lemma {:induction false} PlannedWhole(content: seq<byte>, partSize: PartSize)
    ensures PartNumbers(Planned(content, partSize)) == From(1, |Planned(content, partSize)|)
    ensures Concat(PartBodies(Planned(content, partSize))) == content
  {
    SplitShape(content, partSize);
    assert PartBodies(Planned(content, partSize)) == Split(content, partSize);
  }

  lemma {:induction false} AllPlannedIsExact(content: seq<byte>, partSize: PartSize, server: Parts,
                                             completed: seq<CompletedPart>)
    requires Finished(Origin(1, [], server), server, Planned(content, partSize), completed)
    requires |completed| == |Planned(content, partSize)|
    ensures Numbers(SortByNumber(completed)) == From(1, |completed|)
    ensures Assemble(server, SortByNumber(completed)) == Some(content)
  {
    var planned := Planned(content, partSize);
    SortedContentsOfNew(server, planned, completed);
    assert Kept(planned, Numbers(SortByNumber(completed))) == planned by {
      SortSorts(completed);
      KeptWhole(planned, Numbers(SortByNumber(completed)));
    }
    PlannedWhole(content, partSize);
  }

  /** The submitted list of a copy is 1..n, and the service assembles exactly the source from it. */
  lemma {:induction false} FinishedCopyIsExact(content: seq<byte>, partSize: PartSize, max: nat, c: Copy)
    requires 0 < |content| <= MAX_SOURCE_SIZE
    requires CopyInv(content, partSize, max, c) && c.phase.Finishing?
    ensures Numbers(c.phase.request) == From(1, CeilDiv(|content|, partSize))
    ensures Assemble(c.server, c.phase.request) == Some(content)
  {
    var planned := Planned(content, partSize);
    PlanLength(content, partSize);
    assert planned[..c.next] == planned;
    assert AsUploads(content, []) == [];
    TrackedIsFinished(Origin(1, [], c.server), c.server, planned, c.completed);
    AllPlannedIsExact(content, partSize, c.server, c.completed);
  }

  lemma {:induction false} LandingKeepsInv(content: seq<byte>, partSize: PartSize, max: nat, c: Copy, k: nat, tag: Tag)
    requires 0 < |content| <= MAX_SOURCE_SIZE && max > 0
    requires CeilDiv(|content|, partSize) <= CopyPlan.I32_MAX
    requires CopyInv(content, partSize, max, c) && c.phase.Collecting? && k < |c.inFlight|
    requires c.next <= |ByteRanges(|content|, partSize)|
    ensures var c' := CopyStep(content, ByteRanges(|content|, partSize), max, c, PartCopied(k, tag));
            && CopyInv(content, partSize, max, c')
            && |c'.inFlight| <= max
            && (c'.phase.Collecting? || c'.phase.Finishing?)
            && |c'.completed| == |c.completed| + 1
            && (c'.phase.Finishing? <==> |c'.completed| == CeilDiv(|content|, partSize))
  {
    PlanLength(content, partSize);
    LandedCopyKeepsAccount(content, partSize, max, c, k, tag);
    ResumeKeepsInv(content, partSize, max, LandCopy(content, c, k, tag));
  }

  lemma {:induction false} CopyStepKeepsInv(content: seq<byte>, partSize: PartSize, max: nat, c: Copy, event: CopyEvent)
    requires 0 < |content| <= MAX_SOURCE_SIZE && max > 0
    requires CeilDiv(|content|, partSize) <= CopyPlan.I32_MAX
    requires CopyInv(content, partSize, max, c) && c.next <= |ByteRanges(|content|, partSize)|
    ensures var c' := CopyStep(content, ByteRanges(|content|, partSize), max, c, event);
            && CopyInv(content, partSize, max, c')
            && (|c.inFlight| <= max ==> |c'.inFlight| <= max)
  {
    PlanLength(content, partSize);
    match (c.phase, event)
    case (Collecting, PartCopied(k, tag)) =>
      if k < |c.inFlight| {
        LandingKeepsInv(content, partSize, max, c, k, tag);
      }
    case (Finishing(request), CompletionAnswered(ok)) =>
      FinishedCopyIsExact(content, partSize, max, c);
    case _ =>
  }

  // ---- whole copies ----

  lemma {:induction false} CountFitsI32(sourceSize: SourceSize, partSize: PartSize)
    requires sourceSize > 0
    ensures CeilDiv(sourceSize, partSize) <= 0x10_0000
  {
    CeilBounds(sourceSize, partSize);
    var m := CeilDiv(sourceSize, partSize);
    MulMonotone(CopyPlan.MIN_PART_SIZE, partSize, m - 1);
    assert (m - 1) * partSize == partSize * (m - 1);
    assert CopyPlan.MIN_PART_SIZE * (m - 1) == (m - 1) * CopyPlan.MIN_PART_SIZE;
  }

  function StartCopy(content: seq<byte>, partSize: PartSize, max: nat, server: Parts, uploadId: string): (c: Copy)
    requires |content| <= MAX_SOURCE_SIZE
  {
    Begin(|content|, partSize, max, server, Ok(Some(uploadId)))
  }

  lemma {:induction false} BeginInv(content: seq<byte>, partSize: PartSize, max: nat, server: Parts, uploadId: string)
    requires partSize <= |content| <= MAX_SOURCE_SIZE && max > 0
    ensures var c := StartCopy(content, partSize, max, server, uploadId);
            && CopyInv(content, partSize, max, c) && |c.inFlight| <= max
            && c.next <= |ByteRanges(|content|, partSize)|
            && c.completed == [] && c.phase.Collecting?
  {
    var c := Copy(0, [], [], server, Collecting);
    assert AsUploads(content, []) == [] && UploadParts([]) == [] && Landed(server, []) == [];
    assert CopyAccount(content, partSize, max, c);
    ResumeKeepsInv(content, partSize, max, c);
    PlanLength(content, partSize);
  }

  /**
   For every source of at least one part, every concurrency of at least one, and every order in which
   the environment finishes or fails part copies: at most `max` copies are in flight, the only error
   is the service's own, a submitted list is exactly 1..n, and a completed copy is the source.
   */
  lemma {:induction false} CopyIsExact(content: seq<byte>, partSize: PartSize, max: nat, server: Parts,
                                       uploadId: string, events: seq<CopyEvent>)
    requires partSize <= |content| <= MAX_SOURCE_SIZE && max > 0
    ensures StartCopy(content, partSize, max, server, uploadId).next <= |ByteRanges(|content|, partSize)|
    ensures var c := CopyEvents(content, ByteRanges(|content|, partSize), max,
                                StartCopy(content, partSize, max, server, uploadId), events);
            && CopyInv(content, partSize, max, c)
            && |c.inFlight| <= max
            && (c.phase.Failed? ==> c.phase.error == ServiceError)
            && (c.phase.Finishing? ==> Numbers(c.phase.request) == From(1, CeilDiv(|content|, partSize)))
            && (c.phase.Done? ==> c.phase.copied == Some(content))
            && (c.phase.Collecting? ==> c.inFlight != [])
    decreases |events|
  {
    BeginInv(content, partSize, max, server, uploadId);
    CountFitsI32(|content|, partSize);
    var plan, c0 := ByteRanges(|content|, partSize), StartCopy(content, partSize, max, server, uploadId);
    if events != [] {
      CopyIsExact(content, partSize, max, server, uploadId, events[..|events|-1]);
      CopyStepKeepsInv(content, partSize, max,
                       CopyEvents(content, plan, max, c0, events[..|events|-1]), events[|events|-1]);
    }
    var c := CopyEvents(content, plan, max, c0, events);
    if c.phase.Finishing? {
      FinishedCopyIsExact(content, partSize, max, c);
    }
  }

  /** One landing after another, each time of whichever copy in flight the order picks. */
  function LandInOrder(content: seq<byte>, plan: seq<PlannedRange>, max: nat, c: Copy,
                       order: seq<(nat, Tag)>): (c': Copy)
    requires c.next <= |plan|
    ensures c'.next <= |plan|
    decreases |order|
  {
    if order == [] then c
    else
      var c1 := LandInOrder(content, plan, max, c, order[..|order|-1]);
      var (pick, tag) := order[|order|-1];
      if c1.inFlight == [] then c1 else CopyStep(content, plan, max, c1, PartCopied(pick % |c1.inFlight|, tag))
  }

  lemma {:induction false} LandingsCount(content: seq<byte>, partSize: PartSize, max: nat, c: Copy,
                                         order: seq<(nat, Tag)>)
    requires 0 < |content| <= MAX_SOURCE_SIZE && max > 0
    requires CopyInv(content, partSize, max, c) && c.phase.Collecting? && c.completed == []
    requires c.next <= |ByteRanges(|content|, partSize)|
    requires |order| <= CeilDiv(|content|, partSize)
    ensures var c' := LandInOrder(content, ByteRanges(|content|, partSize), max, c, order);
            && CopyInv(content, partSize, max, c')
            && |c'.completed| == |order|
            && (c'.phase.Collecting? || c'.phase.Finishing?)
            && (c'.phase.Finishing? <==> |order| == CeilDiv(|content|, partSize))
    decreases |order|
  {
    PlanLength(content, partSize);
    CountFitsI32(|content|, partSize);
    if order != [] {
      var plan := ByteRanges(|content|, partSize);
      LandingsCount(content, partSize, max, c, order[..|order|-1]);
      var c1 := LandInOrder(content, plan, max, c, order[..|order|-1]);
      var (pick, tag) := order[|order|-1];
      LandingKeepsInv(content, partSize, max, c1, pick % |c1.inFlight|, tag);
    }
  }

  /**
   No order of successful landings gets stuck: after n of them, one for each planned part, the list
   is submitted, and a successful completion yields the source.
   */
  lemma {:induction false} CopyFinishes(content: seq<byte>, partSize: PartSize, max: nat, server: Parts,
                                        uploadId: string, order: seq<(nat, Tag)>)
    requires partSize <= |content| <= MAX_SOURCE_SIZE && max > 0
    requires |order| == CeilDiv(|content|, partSize)
    ensures StartCopy(content, partSize, max, server, uploadId).next <= |ByteRanges(|content|, partSize)|
    ensures var plan := ByteRanges(|content|, partSize);
            var c := LandInOrder(content, plan, max, StartCopy(content, partSize, max, server, uploadId), order);
            && c.phase.Finishing?
            && CopyStep(content, plan, max, c, CompletionAnswered(true)).phase == Done(Some(content))
  {
    BeginInv(content, partSize, max, server, uploadId);
    var c0 := StartCopy(content, partSize, max, server, uploadId);
    LandingsCount(content, partSize, max, c0, order);
    FinishedCopyIsExact(content, partSize, max, LandInOrder(content, ByteRanges(|content|, partSize), max, c0, order));
  }

  /** With a concurrency of zero, which the source does not refuse, a copy never does anything. */
  lemma {:induction false} ZeroConcurrencyNeverStarts(content: seq<byte>, partSize: PartSize, server: Parts,
                                                      uploadId: string, events: seq<CopyEvent>)
    requires partSize <= |content| <= MAX_SOURCE_SIZE
    ensures StartCopy(content, partSize, 0, server, uploadId).next <= |ByteRanges(|content|, partSize)|
    ensures CopyEvents(content, ByteRanges(|content|, partSize), 0,
                       StartCopy(content, partSize, 0, server, uploadId), events)
         == Copy(0, [], [], server, Collecting)
    decreases |events|
  {
    if events != [] {
      ZeroConcurrencyNeverStarts(content, partSize, server, uploadId, events[..|events|-1]);
    }
  }

  // ---- choosing how to copy ----

  datatype Route = AtomicCopy | MultipartCopy(sourceSize: SourceSize)

  function Send(contentLength: Option<int>, partSize: PartSize): (r: Result<Route, CopyError>) {
    match contentLength
    case None => Err(MissingContentLength)
    case Some(length) =>
      match SourceSizeFrom(length)
      case Err(e) => Err(e)
      case Ok(sourceSize) => if partSize >= sourceSize then Ok(AtomicCopy) else Ok(MultipartCopy(sourceSize))
  }

  /**
   For every size the service allows, sending picks a single copy of at most 5 GiB or a multipart
   copy of 2 to 2^20 parts, all of whose ranges are valid; lengths outside those sizes are refused.
   */
  lemma {:induction false} SendIsTotal(length: int, partSize: PartSize)
    ensures Send(Some(length), partSize).Ok? <==> 0 <= length <= MAX_SOURCE_SIZE
    ensures Send(Some(length), partSize) == Ok(AtomicCopy) ==> 0 <= length <= partSize <= CopyPlan.MAX_PART_SIZE
    ensures Send(Some(length), partSize).Ok? && Send(Some(length), partSize).value.MultipartCopy? ==>
              && partSize < length <= MAX_SOURCE_SIZE
              && Send(Some(length), partSize).value.sourceSize == length
              && PartCount(length, partSize) == Ok(CeilDiv(length, partSize))
              && 2 <= CeilDiv(length, partSize) <= 0x10_0000
              && |ByteRanges(length, partSize)| == CeilDiv(length, partSize)
              && (forall i :: 0 <= i < |ByteRanges(length, partSize)| ==> ByteRanges(length, partSize)[i].Ok?)
  {
    if partSize < length <= MAX_SOURCE_SIZE {
      PartCountIsExact(length, partSize);
      CountFitsI32(length, partSize);
      CeilBounds(length, partSize);
      RangesTile(length, partSize);
    }
  }
}
