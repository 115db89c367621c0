/** What every reachable state of the multipart writer satisfies, whatever the calls and answers. */
module MultipartInvariant {
  import opened Prelude
  import opened Arithmetic
  import opened S3Service
  import opened AsyncWriting
  import opened Multipart
  import opened MultipartAccounting

  /** Where a writer picked up: its first part number, and the parts that were already there. */
  datatype Origin = Origin(first: int, imported: seq<CompletedPart>, server: Parts)

  ghost predicate ValidOrigin(o: Origin) {
    && AllHeld(o.server, o.imported)
    && (forall i :: 0 <= i < |o.imported| ==> o.imported[i].number < o.first)
    && (forall x :: multiset(Numbers(o.imported))[x] <= 1)
  }

  function OpenAt(partSize: nat, maxUploads: nat, o: Origin): (w: Writer) {
    Open(partSize, maxUploads, World(0, o.server), o.imported, o.first)
  }

  predicate FullParts(parts: seq<Part>, partSize: nat) {
    forall i :: 0 <= i < |parts| ==> |parts[i].body| == partSize
  }

  /** Every part but the last is full, and the last is not empty. */
  predicate FullButLast(parts: seq<Part>, partSize: nat) {
    forall i :: 0 <= i < |parts| ==>
      (if i + 1 < |parts| then |parts[i].body| == partSize else 0 < |parts[i].body| <= partSize)
  }

  ghost predicate Account(o: Origin, w: Writer, uploads: seq<Upload>, completed: seq<CompletedPart>) {
    Tracked(w.world.server, o.first, o.imported, w.issued, uploads, completed)
  }

  /** The list submitted for completion is the sorted list of all completed parts. */
  ghost predicate Submitted(o: Origin, w: Writer, request: seq<CompletedPart>) {
    exists completed :: Account(o, w, [], completed) && request == SortByNumber(completed)
  }

  ghost predicate Inv(o: Origin, w: Writer) {
    && Sound(w)
    && Untouched(o.server, w.world.server, o.first, |w.issued|)
    && match w.state
       case Writing(uploads, buffer, partNumber, completed) =>
         && partNumber == o.first + |w.issued|
         && FullParts(w.issued, w.partSize)
         && w.accepted == Concat(PartBodies(w.issued)) + buffer
         && Account(o, w, uploads, completed)
         && w.requests == [] && w.uploaded == None
       case CompletingParts(uploads, completed) =>
         && FullButLast(w.issued, w.partSize)
         && w.accepted == Concat(PartBodies(w.issued))
         && Account(o, w, uploads, completed)
         && w.requests == [] && w.uploaded == None
       case Completing(request, _) =>
         && FullButLast(w.issued, w.partSize)
         && w.accepted == Concat(PartBodies(w.issued))
         && Submitted(o, w, request)
         && w.requests == [request] && w.uploaded == None
       case Closed =>
         && FullButLast(w.issued, w.partSize)
         && w.accepted == Concat(PartBodies(w.issued))
         && |w.requests| == 1
         && Submitted(o, w, w.requests[0])
         && (w.uploaded == None || w.uploaded == Assemble(w.world.server, w.requests[0]))
       case NoState => |w.requests| <= 1
  }

  /** How many issued parts are neither in flight nor completed. */
  function Lost(o: Origin, w: Writer): (count: int)
    requires w.state.Closed? ==> |w.requests| == 1
  {
    match w.state
    case Writing(uploads, _, _, completed) => |o.imported| + |w.issued| - |uploads| - |completed|
    case CompletingParts(uploads, completed) => |o.imported| + |w.issued| - |uploads| - |completed|
    case Completing(request, _) => |o.imported| + |w.issued| - |request|
    case Closed => |o.imported| + |w.issued| - |w.requests[0]|
    case NoState => 0
  }

  // ---- the invariant holds at the start ----

  lemma {:induction false} OpenInv(partSize: nat, maxUploads: nat, o: Origin)
    requires 0 < partSize && 0 < maxUploads && ValidOrigin(o)
    ensures Sound(OpenAt(partSize, maxUploads, o))
    ensures Inv(o, OpenAt(partSize, maxUploads, o)) && Lost(o, OpenAt(partSize, maxUploads, o)) == 0
  {
    assert 0 <= maxUploads * partSize;
    assert PartBodies([]) == [];
    assert o.imported[|o.imported|..] == [];
  }

  // ---- and every call keeps it ----

  lemma {:induction false} UntouchedGrows(a: Parts, b: Parts, c: Parts, first: int, n: nat, m: nat)
    requires Untouched(a, b, first, n) && Untouched(b, c, first, m) && n <= m
    ensures Untouched(a, c, first, m)
  {}

  lemma {:induction false} AcceptedAfterCut(issued: seq<Part>, buffer: seq<byte>, taken: seq<byte>, partSize: nat,
                                            number: int)
    requires 0 < partSize
    ensures var (parts, rest) := Cut(buffer + taken, partSize, number);
            Concat(PartBodies(issued + parts)) + rest == Concat(PartBodies(issued)) + buffer + taken
  {
    var (parts, rest) := Cut(buffer + taken, partSize, number);
    CutContents(buffer + taken, partSize, number);
    PartBodiesAppend(issued, parts);
    ConcatAppend(PartBodies(issued), PartBodies(parts));
    Associative(Concat(PartBodies(issued)), Concat(PartBodies(parts)), rest);
    Associative(Concat(PartBodies(issued)), buffer, taken);
  }

  predicate FlushError(outcome: Outcome) {
    outcome == Flushed(Ready(Err(RequestFailed)))
  }

  lemma {:induction false} CheckErrorIsRequestFailed(env: Env, world: World, uploads: seq<Upload>,
                                                     completed: seq<CompletedPart>)
    ensures var c := CheckUploads(env, world, uploads, completed); c.outcome.Err? ==> c.outcome.error == RequestFailed
  {
    PollAllErrors(env, world, uploads);
    TryCollectError(PollAll(env, world, uploads).complete);
  }

  lemma {:induction false} PollAllErrors(env: Env, world: World, uploads: seq<Upload>)
    ensures forall x <- PollAll(env, world, uploads).complete :: x.Err? ==> x.error == RequestFailed
    decreases |uploads|
  {
    if uploads != [] {
      var rest, f := uploads[..|uploads|-1], uploads[|uploads|-1];
      var answer := env(world.polls);
      PollAllErrors(env, World(world.polls + 1, Deliver(world.server, f.part, answer)), rest);
    }
  }

  lemma {:induction false} TryCollectError(results: seq<UploadResult>)
    requires forall x <- results :: x.Err? ==> x.error == RequestFailed
    ensures var r := TryCollectCompleteParts(results); r.Err? ==> r.error == RequestFailed
  {
    if results != [] {
      TryCollectError(results[1..]);
    }
  }

  /** The account of a writer in the middle of a call, after its first check of the uploads. */
  ghost predicate MidCall(o: Origin, w: Writer, c: Checked, buffer: seq<byte>, partNumber: int) {
    && 0 < w.partSize && 0 < w.maxUploads
    && partNumber == o.first + |w.issued|
    && FullParts(w.issued, w.partSize)
    && |buffer| < w.partSize
    && w.accepted == Concat(PartBodies(w.issued)) + buffer
    && w.requests == [] && w.uploaded == None
    && Tracked(c.world.server, o.first, o.imported, w.issued, c.uploads, c.completed)
    && Untouched(o.server, c.world.server, o.first, |w.issued|)
    && |c.uploads| * w.partSize + |buffer| <= w.maxUploads * w.partSize
  }

  lemma {:induction false} FirstCheck(env: Env, o: Origin, w: Writer)
    requires Inv(o, w) && w.state.Writing?
    ensures var c := CheckUploads(env, w.world, w.state.uploads, w.state.completed);
            && MidCall(o, w, c, w.state.buffer, w.state.partNumber)
            && (c.outcome.Ok? ==> |c.uploads| + |c.completed| == |w.state.uploads| + |w.state.completed|)
            && (c.outcome.Err? ==> |c.uploads| + |c.completed| < |w.state.uploads| + |w.state.completed|)
            && (c.outcome.Err? ==> c.outcome.error == RequestFailed)
  {
    var Writing(uploads, buffer, partNumber, completed) := w.state;
    var c := CheckUploads(env, w.world, uploads, completed);
    CheckKeepsAccount(env, w.world, o.first, o.imported, w.issued, uploads, completed);
    CheckErrorIsRequestFailed(env, w.world, uploads, completed);
    UntouchedGrows(o.server, w.world.server, c.world.server, o.first, |w.issued|, |w.issued|);
    MulMonotone(|c.uploads|, |uploads|, w.partSize);
  }

  /** A writer that goes on writing after its first check, whether or not it woke its task. */
  lemma {:induction false} WaitKeepsInv(o: Origin, w: Writer, c: Checked, buffer: seq<byte>, partNumber: int)
    requires MidCall(o, w, c, buffer, partNumber)
    ensures var w' := WakeIfEmpty(w.(world := c.world), c.uploads)
                      .(state := Writing(c.uploads, buffer, partNumber, c.completed));
            Inv(o, w') && Lost(o, w') == |o.imported| + |w.issued| - |c.uploads| - |c.completed|
  {}

  lemma {:induction false} WritingKeepsInv(env: Env, o: Origin, w: Writer, buf: seq<byte>)
    requires Inv(o, w) && w.state.Writing?
    ensures var (w', r) := Write(env, w, buf);
            Inv(o, w') && (!w'.state.NoState? ==> Lost(o, w') == Lost(o, w))
  {
    var Writing(uploads, buffer, partNumber, completed) := w.state;
    FirstCheck(env, o, w);
    var c := CheckUploads(env, w.world, uploads, completed);
    var w1 := w.(world := c.world, state := NoState);
    WriteByCases(env, w, buf);
    var count := Takes(w, |c.uploads|, |buffer|, |buf|);
    if c.outcome.Ok? {
      if count == 0 {
        WaitKeepsInv(o, w1, c, buffer, partNumber);
      } else {
        TakeBytesKeepsInv(env, o, w1, c, buffer, partNumber, buf[..count]);
      }
    }
  }

  lemma {:induction false} WriteKeepsInv(env: Env, o: Origin, w: Writer, buf: seq<byte>)
    requires Inv(o, w)
    ensures var (w', r) := Write(env, w, buf);
            && Inv(o, w')
            && (w.state.NoState? ==> w'.state.NoState?)
            && (!w'.state.NoState? ==> Lost(o, w') == Lost(o, w))
  {
    if w.state.Writing? {
      WritingKeepsInv(env, o, w, buf);
    }
  }

  lemma {:induction false} TakeBytesKeepsInv(env: Env, o: Origin, w: Writer, c: Checked, buffer: seq<byte>,
                                             partNumber: int, taken: seq<byte>)
    requires MidCall(o, w, c, buffer, partNumber)
    requires |c.uploads| * w.partSize + |buffer| + |taken| <= w.maxUploads * w.partSize
    ensures var (w', r) := TakeBytes(env, w, c, buffer, partNumber, taken);
            && Inv(o, w')
            && (!w'.state.NoState? ==>
                  Lost(o, w') == |o.imported| + |w.issued| - |c.uploads| - |c.completed|)
  {
    var (parts, rest) := Cut(buffer + taken, w.partSize, partNumber);
    CutSizes(buffer + taken, w.partSize, partNumber);
    AcceptedAfterCut(w.issued, buffer, taken, w.partSize, partNumber);
    StartKeepsAccount(c.world.server, o.first, o.imported, w.issued, c.uploads, c.completed, parts);
    CheckKeepsAccount(env, c.world, o.first, o.imported, w.issued + parts, c.uploads + Start(parts), c.completed);
    var d := CheckUploads(env, c.world, c.uploads + Start(parts), c.completed);
    UntouchedGrows(o.server, c.world.server, d.world.server, o.first, |w.issued|, |w.issued + parts|);
  }

  lemma {:induction false} FlushKeepsInv(env: Env, o: Origin, w: Writer)
    requires Inv(o, w)
    ensures var (w', r) := Flush(env, w);
            && Inv(o, w')
            && (w.state.NoState? <==> w'.state.NoState?)
            && (FlushError(Flushed(r)) ==> w.state.Writing? && w'.state.Writing? && Lost(o, w') > Lost(o, w))
            && (!FlushError(Flushed(r)) ==> Lost(o, w') == Lost(o, w))
  {
    if w.state.Writing? {
      FirstCheck(env, o, w);
    }
  }

  lemma {:induction false} CloseWritingKeepsInv(env: Env, o: Origin, w: Writer)
    requires Inv(o, w) && w.state.Writing?
    ensures var (w', r) := Close(env, w);
            Inv(o, w') && (!w'.state.NoState? ==> Lost(o, w') == Lost(o, w))
  {
    var Writing(uploads, buffer, partNumber, completed) := w.state;
    FirstCheck(env, o, w);
    var c := CheckUploads(env, w.world, uploads, completed);
    MulMonotone(|c.uploads|, |uploads|, w.partSize);
    UploadsWithinLimit(|c.uploads|, w.maxUploads, w.partSize, |buffer|);
    if c.outcome.Ok? && |c.uploads| < w.maxUploads {
      StopWritingKeepsInv(env, o, w.(world := c.world, state := NoState), c, buffer, partNumber);
    }
  }

  lemma {:induction false} CloseCompletingPartsKeepsInv(env: Env, o: Origin, w: Writer)
    requires Inv(o, w) && w.state.CompletingParts?
    ensures var (w', r) := Close(env, w);
            Inv(o, w') && (!w'.state.NoState? ==> Lost(o, w') == Lost(o, w))
  {
    var CompletingParts(uploads, completed) := w.state;
    if uploads == [] {
      SortSorts(completed);
    } else {
      var c := CheckUploads(env, w.world, uploads, completed);
      CheckKeepsAccount(env, w.world, o.first, o.imported, w.issued, uploads, completed);
      UntouchedGrows(o.server, w.world.server, c.world.server, o.first, |w.issued|, |w.issued|);
    }
  }

  lemma {:induction false} CloseKeepsInv(env: Env, o: Origin, w: Writer)
    requires Inv(o, w)
    ensures var (w', r) := Close(env, w);
            && Inv(o, w')
            && (w.state.NoState? ==> w'.state.NoState?)
            && (!w'.state.NoState? ==> Lost(o, w') == Lost(o, w))
  {
    match w.state
    case Writing(_, _, _, _) => CloseWritingKeepsInv(env, o, w);
    case CompletingParts(_, _) => CloseCompletingPartsKeepsInv(env, o, w);
    case _ =>
  }

  lemma {:induction false} StopWritingKeepsInv(env: Env, o: Origin, w: Writer, c: Checked, buffer: seq<byte>,
                                               partNumber: int)
    requires MidCall(o, w, c, buffer, partNumber)
    requires |c.uploads| < w.maxUploads
    ensures var (w', r) := StopWriting(env, w, c, buffer, partNumber);
            && Inv(o, w')
            && (!w'.state.NoState? ==>
                  Lost(o, w') == |o.imported| + |w.issued| - |c.uploads| - |c.completed|)
  {
    var last := if buffer == [] then [] else [Part(partNumber, buffer)];
    StartKeepsAccount(c.world.server, o.first, o.imported, w.issued, c.uploads, c.completed, last);
    CheckKeepsAccount(env, c.world, o.first, o.imported, w.issued + last, c.uploads + Start(last), c.completed);
    var d := CheckUploads(env, c.world, c.uploads + Start(last), c.completed);
    UntouchedGrows(o.server, c.world.server, d.world.server, o.first, |w.issued|, |w.issued + last|);
    LastPartContents(w.issued, buffer, partNumber);
  }

  lemma {:induction false} LastPartContents(issued: seq<Part>, buffer: seq<byte>, number: int)
    ensures var last := if buffer == [] then [] else [Part(number, buffer)];
            Concat(PartBodies(issued + last)) == Concat(PartBodies(issued)) + buffer
  {
    if buffer == [] {
      assert issued + [] == issued;
    } else {
      PartBodiesAppend(issued, [Part(number, buffer)]);
      assert PartBodies([Part(number, buffer)]) == [buffer];
      ConcatSnoc(PartBodies(issued), buffer);
    }
  }

  lemma {:induction false} StepKeepsInv(env: Env, o: Origin, w: Writer, call: Call)
    requires Inv(o, w)
    ensures var (w', outcome) := Step(env, w, call);
            && Inv(o, w')
            && (w.state.NoState? ==> w'.state.NoState?)
            && (!w'.state.NoState? && !FlushError(outcome) ==> Lost(o, w') == Lost(o, w))
            && (FlushError(outcome) ==> w.state.Writing? && w'.state.Writing? && Lost(o, w') > Lost(o, w))
  {
    match call
    case WriteCall(buf) => WriteKeepsInv(env, o, w, buf);
    case FlushCall => FlushKeepsInv(env, o, w);
    case CloseCall => CloseKeepsInv(env, o, w);
  }

  predicate FlushFailed(outcomes: seq<Outcome>) {
    exists i :: 0 <= i < |outcomes| && FlushError(outcomes[i])
  }

  lemma {:induction false} FlushFailedSnoc(outcomes: seq<Outcome>, outcome: Outcome)
    ensures FlushFailed(outcomes + [outcome]) <==> FlushFailed(outcomes) || FlushError(outcome)
  {
    var all := outcomes + [outcome];
    assert all[|outcomes|] == outcome;
    assert forall i :: 0 <= i < |outcomes| ==> all[i] == outcomes[i];
  }

  /**
   Every run keeps the invariant; and while the writer is usable, parts are missing from the account
   exactly when some flush has reported a failed request.
   */
  lemma {:induction false} RunKeepsInv(env: Env, o: Origin, w: Writer, calls: seq<Call>)
    requires Inv(o, w) && (w.state.NoState? || Lost(o, w) == 0)
    ensures var (w', outcomes) := Run(env, w, calls);
            && Inv(o, w')
            && (!w'.state.NoState? ==> Lost(o, w') >= 0 && (Lost(o, w') > 0 <==> FlushFailed(outcomes)))
    decreases |calls|
  {
    if calls != [] {
      var n := |calls| - 1;
      RunKeepsInv(env, o, w, calls[..n]);
      var (w1, outcomes) := Run(env, w, calls[..n]);
      StepKeepsInv(env, o, w1, calls[n]);
      var (_, outcome) := Step(env, w1, calls[n]);
      FlushFailedSnoc(outcomes, outcome);
    }
  }
}
