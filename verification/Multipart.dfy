/**
 The multipart writer as a function of its state, the call made on it, and the answers its futures
 give when polled. The class in AsyncMultipartUpload.dfy is proved to compute exactly these
 functions; what the writer promises its callers is proved about them.
 */
module Multipart {
  import opened Prelude
  import opened Arithmetic
  import opened S3Service
  import opened AsyncWriting

  const MIB: nat := 1024 * 1024
  const GIB: nat := 1024 * MIB
  const MIN_PART_SIZE: nat := 5 * MIB
  const MAX_PART_SIZE: nat := 5 * GIB
  const DEFAULT_MAX_UPLOADING_PARTS: nat := 100

  datatype Part = Part(number: int, body: seq<byte>)

  /** A part upload in flight; `waker` is the poll at which it last registered to be woken. */
  datatype Upload = Upload(part: Part, waker: Option<nat>)

  /** What lies outside the writer: the polls made so far, and the parts the service holds. */
  datatype World = World(polls: nat, server: Parts)

  datatype State =
    | NoState
    | Writing(uploads: seq<Upload>, buffer: seq<byte>, partNumber: int, completed: seq<CompletedPart>)
    | CompletingParts(uploads: seq<Upload>, completed: seq<CompletedPart>)
    | Completing(request: seq<CompletedPart>, waker: Option<nat>)
    | Closed

  /**
   The writer and its history: every part it asked to upload, every part list it asked to complete,
   the bytes it reported as written, the object that came of it, and how often it woke its task.
   */
  datatype Writer = Writer(
    partSize: nat,
    maxUploads: nat,
    state: State,
    world: World,
    issued: seq<Part>,
    requests: seq<seq<CompletedPart>>,
    accepted: seq<byte>,
    uploaded: Option<seq<byte>>,
    woken: nat)

  /** The capacity discipline: neither capacity subtraction of the writer can go below zero. */
  predicate Sound(w: Writer) {
    && 0 < w.partSize
    && 0 < w.maxUploads
    && match w.state
       case Writing(uploads, buffer, _, _) =>
         && |buffer| < w.partSize
         && |uploads| * w.partSize + |buffer| <= w.maxUploads * w.partSize
       case CompletingParts(uploads, _) => |uploads| <= w.maxUploads
       case _ => true
  }

  // ---- polling the uploads in flight ----

  type UploadResult = Result<(Tag, int), Error>

  function Deliver(server: Parts, part: Part, answer: Answer): (server': Parts) {
    match answer
    case NotReady => server
    case Succeeded(tag) => server[part.number := Stored(part.body, tag)]
    case Failed(Some(tag)) => server[part.number := Stored(part.body, tag)]
    case Failed(None) => server
  }

  datatype Polled = Polled(pending: seq<Upload>, complete: seq<UploadResult>, world: World)

  /** Polls every upload, the last of the list first; those still pending come out in that order. */
  function PollAll(env: Env, world: World, uploads: seq<Upload>): (r: Polled)
    ensures |r.pending| + |r.complete| == |uploads|
    ensures r.world.polls == world.polls + |uploads|
    decreases |uploads|
  {
    if uploads == [] then
      Polled([], [], world)
    else
      var f := uploads[|uploads|-1];
      var answer := env(world.polls);
      var rest := PollAll(env, World(world.polls + 1, Deliver(world.server, f.part, answer)), uploads[..|uploads|-1]);
      match answer
      case NotReady => rest.(pending := [f.(waker := Some(world.polls))] + rest.pending)
      case Succeeded(tag) => rest.(complete := [Ok((tag, f.part.number))] + rest.complete)
      case Failed(_) => rest.(complete := [Err(RequestFailed)] + rest.complete)
  }

  /** The completed parts of a batch of results, or the first error among them. */
  function TryCollectCompleteParts(results: seq<UploadResult>): (r: Result<seq<CompletedPart>, Error>) {
    if results == [] then
      Ok([])
    else
      match results[0]
      case Err(e) => Err(e)
      case Ok((tag, number)) =>
        match TryCollectCompleteParts(results[1..])
        case Err(e) => Err(e)
        case Ok(rest) => Ok([CompletedPart(number, tag)] + rest)
  }

  datatype Checked = Checked(
    uploads: seq<Upload>, completed: seq<CompletedPart>, world: World, outcome: Result<(), Error>)

  function CheckUploads(env: Env, world: World, uploads: seq<Upload>, completed: seq<CompletedPart>): (r: Checked)
    ensures |r.uploads| <= |uploads|
  {
    var polled := PollAll(env, world, uploads);
    match TryCollectCompleteParts(polled.complete)
    case Err(e) => Checked(polled.pending, completed, polled.world, Err(e))
    case Ok(finished) => Checked(polled.pending, completed + finished, polled.world, Ok(()))
  }

  // ---- cutting the buffer into parts ----

  /** Cuts full parts off the front of the buffer, numbering them onwards from `number`. */
  function Cut(buffer: seq<byte>, partSize: nat, number: int): (r: (seq<Part>, seq<byte>))
    requires 0 < partSize
  {
    if |buffer| < partSize then
      ([], buffer)
    else
      var (parts, rest) := Cut(buffer[partSize..], partSize, number + 1);
      ([Part(number, buffer[..partSize])] + parts, rest)
  }

  function PartBodies(parts: seq<Part>): (bodies: seq<seq<byte>>)
    ensures |bodies| == |parts|
    ensures forall i :: 0 <= i < |parts| ==> bodies[i] == parts[i].body
  {
    seq(|parts|, i requires 0 <= i < |parts| => parts[i].body)
  }

  /** A cut yields full parts in consecutive numbers, and a rest shorter than a part. */
  lemma {:induction false} CutSizes(buffer: seq<byte>, partSize: nat, number: int)
    requires 0 < partSize
    ensures var (parts, rest) := Cut(buffer, partSize, number);
            && |rest| < partSize
            && |parts| * partSize + |rest| == |buffer|
            && forall i :: 0 <= i < |parts| ==> parts[i].number == number + i && |parts[i].body| == partSize
  {
    if |buffer| >= partSize {
      CutSizes(buffer[partSize..], partSize, number + 1);
      var (more, _) := Cut(buffer[partSize..], partSize, number + 1);
      assert (1 + |more|) * partSize == partSize + |more| * partSize;
    }
  }

  lemma {:induction false} PartBodiesAppend(a: seq<Part>, b: seq<Part>)
    ensures PartBodies(a + b) == PartBodies(a) + PartBodies(b)
  {}

  /** A cut loses and reorders nothing. */
  lemma {:induction false} CutContents(buffer: seq<byte>, partSize: nat, number: int)
    requires 0 < partSize
    ensures Concat(PartBodies(Cut(buffer, partSize, number).0)) + Cut(buffer, partSize, number).1 == buffer
  {
    if |buffer| < partSize {
      assert PartBodies([]) == [];
    } else {
      var tail := buffer[partSize..];
      var more := Cut(tail, partSize, number + 1);
      CutContents(tail, partSize, number + 1);
      var first := Part(number, buffer[..partSize]);
      assert Cut(buffer, partSize, number) == ([first] + more.0, more.1);
      CutContentsStep(first, more.0, more.1, tail);
      assert buffer == buffer[..partSize] + tail;
    }
  }

  lemma {:induction false} CutContentsStep(first: Part, more: seq<Part>, rest: seq<byte>, tail: seq<byte>)
    requires Concat(PartBodies(more)) + rest == tail
    ensures Concat(PartBodies([first] + more)) + rest == first.body + tail
  {
    assert PartBodies([first] + more) == [first.body] + PartBodies(more);
    ConcatCons(first.body, PartBodies(more));
    assert first.body + Concat(PartBodies(more)) + rest == first.body + (Concat(PartBodies(more)) + rest);
  }

  function Start(parts: seq<Part>): (uploads: seq<Upload>)
    ensures |uploads| == |parts|
    ensures forall i :: 0 <= i < |parts| ==> uploads[i] == Upload(parts[i], None)
  {
    seq(|parts|, i requires 0 <= i < |parts| => Upload(parts[i], None))
  }

  // ---- arithmetic of the capacity ----

  lemma {:induction false} UploadsWithinLimit(uploads: nat, max: nat, size: nat, extra: nat)
    requires 0 < size
    requires uploads * size + extra <= max * size
    ensures uploads <= max
  {
    assert (max + 1) * size == max * size + size;
    if uploads > max {
      MulMonotone(max + 1, uploads, size);
    }
  }

  /** How many more bytes the writer can take with this many uploads in flight. */
  function Capacity(w: Writer, uploads: nat, buffered: nat): (capacity: int)
  {
    (w.maxUploads - uploads) * w.partSize - buffered
  }

  /** How many of the offered bytes a write takes, once its first check has left these uploads in flight. */
  function Takes(w: Writer, uploads: nat, buffered: nat, offered: nat): (count: int) {
    if Capacity(w, uploads, buffered) < offered then Capacity(w, uploads, buffered) else offered
  }

  lemma {:induction false} CapacityIsRoom(w: Writer, before: nat, uploads: nat, buffered: nat)
    requires uploads <= before
    requires before * w.partSize + buffered <= w.maxUploads * w.partSize
    ensures 0 <= Capacity(w, uploads, buffered)
    ensures uploads * w.partSize + buffered + Capacity(w, uploads, buffered) == w.maxUploads * w.partSize
  {
    MulMonotone(uploads, before, w.partSize);
    assert (w.maxUploads - uploads) * w.partSize == w.maxUploads * w.partSize - uploads * w.partSize;
  }

  // ---- the three operations ----

  function WakeIfEmpty(w: Writer, uploads: seq<Upload>): (w': Writer) {
    if uploads == [] then w.(woken := w.woken + 1) else w
  }

  /** Appends the taken bytes to the buffer, starts an upload for every full part, and polls again. */
  function TakeBytes(env: Env, w: Writer, c: Checked, buffer: seq<byte>, partNumber: int, taken: seq<byte>)
    : (r: (Writer, Poll<Result<nat, Error>>))
    requires 0 < w.partSize && 0 < w.maxUploads
    requires |c.uploads| * w.partSize + |buffer| + |taken| <= w.maxUploads * w.partSize
    ensures Sound(r.0) && r.0.partSize == w.partSize && r.0.maxUploads == w.maxUploads
  {
    var (parts, rest) := Cut(buffer + taken, w.partSize, partNumber);
    CutSizes(buffer + taken, w.partSize, partNumber);
    var d := CheckUploads(env, c.world, c.uploads + Start(parts), c.completed);
    MulMonotone(|d.uploads|, |c.uploads| + |parts|, w.partSize);
    assert (|c.uploads| + |parts|) * w.partSize == |c.uploads| * w.partSize + |parts| * w.partSize;
    var w := w.(world := d.world, issued := w.issued + parts, state := NoState);
    if d.outcome.Err? then
      (w, Ready(Err(d.outcome.error)))
    else
      (w.(state := Writing(d.uploads, rest, partNumber + |parts|, d.completed), accepted := w.accepted + taken),
       Ready(Ok(|taken|)))
  }

  function Write(env: Env, w: Writer, buf: seq<byte>): (r: (Writer, Poll<Result<nat, Error>>))
    requires Sound(w)
    ensures Sound(r.0) && r.0.partSize == w.partSize && r.0.maxUploads == w.maxUploads
  {
    match w.state
    case Writing(uploads, buffer, partNumber, completed) =>
      var c := CheckUploads(env, w.world, uploads, completed);
      var w := w.(world := c.world, state := NoState);
      if c.outcome.Err? then (w, Ready(Err(c.outcome.error))) else
      CapacityIsRoom(w, |uploads|, |c.uploads|, |buffer|);
      var count := Takes(w, |c.uploads|, |buffer|, |buf|);
      if count == 0 then
        (WakeIfEmpty(w, c.uploads).(state := Writing(c.uploads, buffer, partNumber, c.completed)), Pending)
      else
        TakeBytes(env, w, c, buffer, partNumber, buf[..count])
    case NoState => (w, Ready(Err(StateIsNone)))
    case _ => (w.(state := NoState), Ready(Err(WriteAfterClose)))
  }

  /** A write in its three cases: a failed check, nothing to take, or bytes taken. */
  lemma {:induction false} WriteByCases(env: Env, w: Writer, buf: seq<byte>)
    requires Sound(w) && w.state.Writing?
    ensures var Writing(uploads, buffer, partNumber, completed) := w.state;
            var c := CheckUploads(env, w.world, uploads, completed);
            var w1 := w.(world := c.world, state := NoState);
            var count := Takes(w, |c.uploads|, |buffer|, |buf|);
            && 0 <= count <= |buf|
            && |c.uploads| * w.partSize + |buffer| + count <= w.maxUploads * w.partSize
            && |buf[..count]| == count
            && Write(env, w, buf) ==
               if c.outcome.Err? then (w1, Ready(Err(c.outcome.error)))
               else if count == 0 then
                 (WakeIfEmpty(w1, c.uploads).(state := Writing(c.uploads, buffer, partNumber, c.completed)), Pending)
               else TakeBytes(env, w1, c, buffer, partNumber, buf[..count])
  {
    var c := CheckUploads(env, w.world, w.state.uploads, w.state.completed);
    CapacityIsRoom(w, |w.state.uploads|, |c.uploads|, |w.state.buffer|);
    assert Capacity(w.(world := c.world, state := NoState), |c.uploads|, |w.state.buffer|)
        == Capacity(w, |c.uploads|, |w.state.buffer|);
  }

  function Flush(env: Env, w: Writer): (r: (Writer, Poll<Result<(), Error>>))
    requires Sound(w)
    ensures Sound(r.0) && r.0.partSize == w.partSize && r.0.maxUploads == w.maxUploads
  {
    match w.state
    case Writing(uploads, buffer, partNumber, completed) =>
      var c := CheckUploads(env, w.world, uploads, completed);
      MulMonotone(|c.uploads|, |uploads|, w.partSize);
      var w := w.(world := c.world, state := Writing(c.uploads, buffer, partNumber, c.completed));
      if c.outcome.Err? then (w, Ready(Err(c.outcome.error)))
      else if c.uploads == [] then (w, Ready(Ok(())))
      else (w, Pending)
    case NoState => (w, Ready(Err(StateIsNone)))
    case _ => (w, Ready(Err(FlushAfterClose)))
  }

  /** Starts an upload for what is left in the buffer, polls again, and stops accepting bytes. */
  function StopWriting(env: Env, w: Writer, c: Checked, buffer: seq<byte>, partNumber: int)
    : (r: (Writer, Poll<Result<(), Error>>))
    requires 0 < w.partSize && |c.uploads| < w.maxUploads
    ensures Sound(r.0) && r.0.partSize == w.partSize && r.0.maxUploads == w.maxUploads
  {
    var last := if buffer == [] then [] else [Part(partNumber, buffer)];
    var d := CheckUploads(env, c.world, c.uploads + Start(last), c.completed);
    var w := w.(world := d.world, issued := w.issued + last, state := NoState);
    if d.outcome.Err? then (w, Ready(Err(d.outcome.error)))
    else (WakeIfEmpty(w, d.uploads).(state := CompletingParts(d.uploads, d.completed)), Pending)
  }

  function Close(env: Env, w: Writer): (r: (Writer, Poll<Result<(), Error>>))
    requires Sound(w)
    ensures Sound(r.0) && r.0.partSize == w.partSize && r.0.maxUploads == w.maxUploads
  {
    match w.state
    case Writing(uploads, buffer, partNumber, completed) =>
      var c := CheckUploads(env, w.world, uploads, completed);
      var w := w.(world := c.world, state := NoState);
      MulMonotone(|c.uploads|, |uploads|, w.partSize);
      UploadsWithinLimit(|c.uploads|, w.maxUploads, w.partSize, |buffer|);
      if c.outcome.Err? then (w, Ready(Err(c.outcome.error)))
      else if w.maxUploads - |c.uploads| == 0 then
        (w.(state := Writing(c.uploads, buffer, partNumber, c.completed)), Pending)
      else
        StopWriting(env, w, c, buffer, partNumber)
    case CompletingParts(uploads, completed) =>
      if uploads == [] then
        var request := SortByNumber(completed);
        (w.(state := Completing(request, None), requests := w.requests + [request], woken := w.woken + 1), Pending)
      else
        var c := CheckUploads(env, w.world, uploads, completed);
        var w := w.(world := c.world, state := NoState);
        if c.outcome.Err? then (w, Ready(Err(c.outcome.error)))
        else (WakeIfEmpty(w, c.uploads).(state := CompletingParts(c.uploads, c.completed)), Pending)
    case Completing(request, waker) =>
      var answer := env(w.world.polls);
      var w := w.(world := w.world.(polls := w.world.polls + 1));
      (match answer
       case NotReady => (w.(state := Completing(request, Some(w.world.polls - 1))), Pending)
       case Succeeded(_) => (w.(state := Closed, uploaded := Assemble(w.world.server, request)), Ready(Ok(())))
       case Failed(_) => (w.(state := Closed), Ready(Err(RequestFailed))))
    case NoState => (w, Ready(Err(StateIsNone)))
    case Closed => (w.(state := NoState), Ready(Err(CloseAfterClose)))
  }

  /** A close of a writer still accepting bytes in its three cases: a failed check, no room, or no more writing. */
  lemma {:induction false} CloseByCases(env: Env, w: Writer)
    requires Sound(w) && w.state.Writing?
    ensures var Writing(uploads, buffer, partNumber, completed) := w.state;
            var c := CheckUploads(env, w.world, uploads, completed);
            var w1 := w.(world := c.world, state := NoState);
            && |c.uploads| <= w.maxUploads
            && Close(env, w) ==
               if c.outcome.Err? then (w1, Ready(Err(c.outcome.error)))
               else if |c.uploads| == w.maxUploads then
                 (w1.(state := Writing(c.uploads, buffer, partNumber, c.completed)), Pending)
               else StopWriting(env, w1, c, buffer, partNumber)
  {
    var c := CheckUploads(env, w.world, w.state.uploads, w.state.completed);
    MulMonotone(|c.uploads|, |w.state.uploads|, w.partSize);
    UploadsWithinLimit(|c.uploads|, w.maxUploads, w.partSize, |w.state.buffer|);
  }

  // ---- runs: any sequence of calls ----

  function Step(env: Env, w: Writer, call: Call): (r: (Writer, Outcome))
    requires Sound(w)
    ensures Sound(r.0) && r.0.partSize == w.partSize && r.0.maxUploads == w.maxUploads
  {
    match call
    case WriteCall(buf) => var (w', p) := Write(env, w, buf); (w', Wrote(p))
    case FlushCall => var (w', p) := Flush(env, w); (w', Flushed(p))
    case CloseCall => var (w', p) := Close(env, w); (w', ClosedWith(p))
  }

  function Run(env: Env, w: Writer, calls: seq<Call>): (r: (Writer, seq<Outcome>))
    requires Sound(w)
    ensures Sound(r.0) && r.0.partSize == w.partSize && r.0.maxUploads == w.maxUploads
    ensures |r.1| == |calls|
  {
    if calls == [] then
      (w, [])
    else
      var (w1, outcomes) := Run(env, w, calls[..|calls|-1]);
      var (w2, outcome) := Step(env, w1, calls[|calls|-1]);
      (w2, outcomes + [outcome])
  }

  lemma {:induction false} RunSnoc(env: Env, w: Writer, calls: seq<Call>, call: Call)
    requires Sound(w)
    ensures var (w1, outcomes) := Run(env, w, calls);
            var (w2, outcome) := Step(env, w1, call);
            Run(env, w, calls + [call]) == (w2, outcomes + [outcome])
  {
    assert (calls + [call])[..|calls|] == calls;
  }

  // ---- where a writer begins ----

  function Open(partSize: nat, maxUploads: nat, world: World, completed: seq<CompletedPart>,
                partNumber: int): (w: Writer) {
    Writer(partSize, maxUploads, Writing([], [], partNumber, completed), world, [], [], [], None, 0)
  }

  function CheckedLimit(partSize: nat, maxUploadingParts: Option<nat>): (r: Result<nat, Error>)
    ensures r.Ok? ==> 0 < r.value && MIN_PART_SIZE <= partSize <= MAX_PART_SIZE
  {
    if partSize < MIN_PART_SIZE then Err(PartSizeTooSmall)
    else if partSize > MAX_PART_SIZE then Err(PartSizeTooLarge)
    else match maxUploadingParts
      case Some(max) => if max == 0 then Err(ZeroUploadingParts) else Ok(max)
      case None => Ok(DEFAULT_MAX_UPLOADING_PARTS)
  }

  /** A new upload; `created` is the service's response, with the upload id it may carry. */
  function New(partSize: nat, maxUploadingParts: Option<nat>, server: Parts, created: Result<Option<string>, Error>)
    : (r: Result<Writer, Error>)
    ensures r.Ok? ==> Sound(r.value)
  {
    match CheckedLimit(partSize, maxUploadingParts)
    case Err(e) => Err(e)
    case Ok(max) =>
      match created
      case Err(e) => Err(e)
      case Ok(None) => Err(NoUploadId)
      case Ok(Some(_)) => Ok(Open(partSize, max, World(0, server), [], 1))
  }

  // ---- resuming an existing upload ----

  datatype ListedPart = ListedPart(number: Option<int>, tag: Tag)

  datatype Page = Page(parts: seq<ListedPart>, truncated: Option<bool>)

  /** The parts read from a listing: pages are read until one fails or says it is the last. */
  function ReadPages(listing: seq<Result<Page, Error>>): (parts: seq<ListedPart>) {
    if listing == [] || listing[0].Err? then
      []
    else
      var page := listing[0].value;
      page.parts + if page.truncated == Some(true) then ReadPages(listing[1..]) else []
  }

  function ToCompleted(parts: seq<ListedPart>): (r: Result<seq<CompletedPart>, Error>) {
    if parts == [] then
      Ok([])
    else
      match parts[0].number
      case None => Err(NoPartNumber)
      case Some(number) =>
        match ToCompleted(parts[1..])
        case Err(e) => Err(e)
        case Ok(rest) => Ok([CompletedPart(number, parts[0].tag)] + rest)
  }

  function LatestNumber(parts: seq<ListedPart>): (latest: Option<int>) {
    if parts == [] then
      None
    else
      match (parts[0].number, LatestNumber(parts[1..]))
      case (Some(n), Some(m)) => Some(if n < m then m else n)
      case (Some(n), None) => Some(n)
      case (None, m) => m
  }

  function FirstFreeNumber(parts: seq<ListedPart>): (number: int) {
    match LatestNumber(parts)
    case Some(latest) => latest + 1
    case None => 1
  }

  /** A writer that continues an upload whose parts are listed page by page. */
  function Import(partSize: nat, maxUploadingParts: Option<nat>, listing: seq<Result<Page, Error>>, server: Parts)
    : (r: Result<Writer, Error>)
    ensures r.Ok? ==> Sound(r.value)
  {
    match CheckedLimit(partSize, maxUploadingParts)
    case Err(e) => Err(e)
    case Ok(max) =>
      var parts := ReadPages(listing);
      match ToCompleted(parts)
      case Err(e) => Err(e)
      case Ok(completed) => Ok(Open(partSize, max, World(0, server), completed, FirstFreeNumber(parts)))
  }
}
