/** What the multipart writer promises over whole runs: contents, cutting, numbering and memory. */
module MultipartTheorems {
  import opened Prelude
  import opened Arithmetic
  import opened Cutting
  import opened S3Service
  import opened AsyncWriting
  import opened Multipart
  import opened MultipartAccounting
  import opened MultipartInvariant
  import opened MultipartObject

  // ---- the bytes the caller was told about are the bytes the writer accounts for ----

  lemma {:induction false} WriteAccepts(env: Env, w: Writer, buf: seq<byte>)
    requires Sound(w)
    ensures var (w', r) := Write(env, w, buf);
            && (r.Ready? && r.value.Ok? ==> r.value.value <= |buf| && w'.accepted == w.accepted + buf[..r.value.value])
            && (r.Pending? || r.value.Err? ==> w'.accepted == w.accepted)
  {
    if w.state.Writing? {
      WriteByCases(env, w, buf);
    }
  }

  lemma {:induction false} CloseAcceptsNothing(env: Env, w: Writer)
    requires Sound(w)
    ensures Close(env, w).0.accepted == w.accepted
  {}

  lemma {:induction false} StepAccepts(env: Env, w: Writer, call: Call)
    requires Sound(w)
    ensures var (w', outcome) := Step(env, w, call);
            w'.accepted == w.accepted + Taken(call, outcome)
  {
    match call
    case WriteCall(buf) => WriteAccepts(env, w, buf);
    case FlushCall =>
    case CloseCall => CloseAcceptsNothing(env, w);
  }

  lemma {:induction false} AcceptedSnoc(calls: seq<Call>, outcomes: seq<Outcome>, call: Call, outcome: Outcome)
    requires |calls| == |outcomes|
    ensures Accepted(calls + [call], outcomes + [outcome]) == Accepted(calls, outcomes) + Taken(call, outcome)
  {
    assert (calls + [call])[..|calls|] == calls;
    assert (outcomes + [outcome])[..|calls|] == outcomes;
  }

  lemma {:induction false} AcceptedAfterStep(env: Env, w: Writer, before: seq<byte>, calls: seq<Call>,
                                             outcomes: seq<Outcome>, call: Call)
    requires Sound(w) && |calls| == |outcomes|
    requires w.accepted == before + Accepted(calls, outcomes)
    ensures var (w', outcome) := Step(env, w, call);
            w'.accepted == before + Accepted(calls + [call], outcomes + [outcome])
  {
    var outcome := Step(env, w, call).1;
    StepAccepts(env, w, call);
    AcceptedSnoc(calls, outcomes, call, outcome);
    Associative(before, Accepted(calls, outcomes), Taken(call, outcome));
  }

  lemma {:induction false} AcceptedIsWhatCallersWereTold(env: Env, w: Writer, calls: seq<Call>)
    requires Sound(w)
    ensures var (w', outcomes) := Run(env, w, calls);
            w'.accepted == w.accepted + Accepted(calls, outcomes)
    decreases |calls|
  {
    if calls == [] {
      assert Accepted(calls, []) == [];
    } else {
      var front, last := calls[..|calls|-1], calls[|calls|-1];
      AcceptedIsWhatCallersWereTold(env, w, front);
      var (w1, outcomes) := Run(env, w, front);
      AcceptedAfterStep(env, w1, w.accepted, front, outcomes, last);
      assert calls == front + [last];
      assert Run(env, w, calls) == (Step(env, w1, last).0, outcomes + [Step(env, w1, last).1]);
    }
  }

  /** A writer after any run from its start: the invariant, and what it accounts for. */
  lemma {:induction false} RunAccounts(env: Env, o: Origin, partSize: nat, maxUploads: nat, calls: seq<Call>)
    requires 0 < partSize && 0 < maxUploads && ValidOrigin(o) && Sound(OpenAt(partSize, maxUploads, o))
    ensures var (w, outcomes) := Run(env, OpenAt(partSize, maxUploads, o), calls);
            Inv(o, w) && w.partSize == partSize && w.accepted == Accepted(calls, outcomes)
  {
    var w0 := OpenAt(partSize, maxUploads, o);
    OpenInv(partSize, maxUploads, o);
    RunKeepsInv(env, o, w0, calls);
    AcceptedIsWhatCallersWereTold(env, w0, calls);
    EmptyFront(Accepted(calls, Run(env, w0, calls).1));
  }

  // ---- end to end ----

  function From(first: int, count: nat): (numbers: seq<int>)
    ensures |numbers| == count && forall i :: 0 <= i < count ==> numbers[i] == first + i
  {
    seq(count, i => first + i)
  }

  /** Keeping all issued parts keeps their numbers and bytes; keeping fewer keeps fewer bytes. */
  lemma {:induction false} KeptLossless(issued: seq<Part>, first: int, numbers: seq<int>, partSize: nat)
    requires NumberedFrom(issued, first) && FullButLast(issued, partSize) && 0 < partSize
    ensures var kept := Kept(issued, numbers);
            && |kept| <= |issued|
            && (|kept| == |issued| ==> kept == issued && PartNumbers(kept) == From(first, |issued|))
            && (|kept| < |issued| ==> |Concat(PartBodies(kept))| < |Concat(PartBodies(issued))|)
  {
    KeptWhole(issued, numbers);
    KeptIsShorter(issued, numbers);
    assert PartNumbers(issued) == From(first, |issued|);
  }

  lemma {:induction false} SubmittedExactlyWhenLossless(o: Origin, w: Writer, request: seq<CompletedPart>)
    requires ValidOrigin(o) && Submitted(o, w, request)
    requires Untouched(o.server, w.world.server, o.first, |w.issued|)
    requires FullButLast(w.issued, w.partSize) && 0 < w.partSize
    ensures var kept := Kept(w.issued, Numbers(request));
            && |request| == |o.imported| + |kept|
            && |kept| <= |w.issued|
            && Assemble(w.world.server, request) == Some(ImportedBytes(o) + Concat(PartBodies(kept)))
            && Ascending(Numbers(request))
            && (|kept| == |w.issued| ==>
                  && kept == w.issued
                  && Numbers(request) == Numbers(SortByNumber(o.imported)) + From(o.first, |w.issued|))
            && (|kept| < |w.issued| ==> |Concat(PartBodies(kept))| < |Concat(PartBodies(w.issued))|)
  {
    SubmittedContents(o, w, request);
    KeptLossless(w.issued, o.first, Numbers(request), w.partSize);
  }

  lemma {:induction false} ClosedExactlyWhenLossless(o: Origin, w: Writer)
    requires ValidOrigin(o) && Inv(o, w) && w.state.Closed?
    ensures var kept := Kept(w.issued, Numbers(w.requests[0]));
            && Lost(o, w) == |w.issued| - |kept|
            && Assemble(w.world.server, w.requests[0]) == Some(ImportedBytes(o) + Concat(PartBodies(kept)))
            && Ascending(Numbers(w.requests[0]))
            && (Lost(o, w) == 0 ==>
                  && Concat(PartBodies(kept)) == w.accepted
                  && Numbers(w.requests[0]) == Numbers(SortByNumber(o.imported)) + From(o.first, |w.issued|))
            && (Lost(o, w) > 0 ==> |Concat(PartBodies(kept))| < |w.accepted|)
  {
    SubmittedExactlyWhenLossless(o, w, w.requests[0]);
  }

  ghost predicate ClosesOk(outcomes: seq<Outcome>) {
    outcomes != [] && outcomes[|outcomes|-1] == ClosedWith(Ready(Ok(())))
  }

  lemma {:induction false} OkCloseStep(env: Env, o: Origin, w: Writer, call: Call)
    requires Inv(o, w) && Step(env, w, call).1 == ClosedWith(Ready(Ok(())))
    ensures var w' := Step(env, w, call).0;
            && w'.state.Closed? && |w'.requests| == 1
            && w'.uploaded == Assemble(w'.world.server, w'.requests[0])
  {
    assert call.CloseCall? && w.state.Completing?;
  }

  lemma {:induction false} OkCloseAssembles(env: Env, o: Origin, partSize: nat, maxUploads: nat, calls: seq<Call>)
    requires 0 < partSize && 0 < maxUploads && ValidOrigin(o)
    requires Sound(OpenAt(partSize, maxUploads, o)) && ClosesOk(Run(env, OpenAt(partSize, maxUploads, o), calls).1)
    ensures var w := Run(env, OpenAt(partSize, maxUploads, o), calls).0;
            && w.state.Closed? && |w.requests| == 1
            && w.uploaded == Assemble(w.world.server, w.requests[0])
  {
    var w0, n := OpenAt(partSize, maxUploads, o), |calls| - 1;
    OpenInv(partSize, maxUploads, o);
    RunKeepsInv(env, o, w0, calls[..n]);
    OkCloseStep(env, o, Run(env, w0, calls[..n]).0, calls[n]);
  }

  /** The final state of a run that closes successfully. */
  lemma {:induction false} ClosedRun(env: Env, o: Origin, partSize: nat, maxUploads: nat, calls: seq<Call>)
    requires 0 < partSize && 0 < maxUploads && ValidOrigin(o)
    requires Sound(OpenAt(partSize, maxUploads, o)) && ClosesOk(Run(env, OpenAt(partSize, maxUploads, o), calls).1)
    ensures var (w, outcomes) := Run(env, OpenAt(partSize, maxUploads, o), calls);
            && Inv(o, w)
            && w.state.Closed?
            && w.accepted == Accepted(calls, outcomes)
            && w.partSize == partSize
  {
    RunAccounts(env, o, partSize, maxUploads, calls);
    OkCloseAssembles(env, o, partSize, maxUploads, calls);
  }

  /**
   End to end, for every sequence of calls and every schedule of answers: after a successful close
   the object is the imported parts followed by all accepted bytes if and only if no flush reported
   a failed request, and is shorter otherwise; the submitted list is strictly ascending, and without
   such a flush it is exactly the imported numbers followed by the consecutive numbers of the new
   parts.
   */
  lemma {:induction false} EndToEnd(env: Env, o: Origin, partSize: nat, maxUploads: nat, calls: seq<Call>)
    requires 0 < partSize && 0 < maxUploads && ValidOrigin(o)
    requires Sound(OpenAt(partSize, maxUploads, o)) && ClosesOk(Run(env, OpenAt(partSize, maxUploads, o), calls).1)
    ensures var (w, outcomes) := Run(env, OpenAt(partSize, maxUploads, o), calls);
            && |w.requests| == 1
            && Ascending(Numbers(w.requests[0]))
            && w.uploaded.Some?
            && (w.uploaded == Some(ImportedBytes(o) + Accepted(calls, outcomes)) <==> !FlushFailed(outcomes))
            && (FlushFailed(outcomes) ==> |w.uploaded.value| < |ImportedBytes(o) + Accepted(calls, outcomes)|)
            && (!FlushFailed(outcomes) ==>
                  Numbers(w.requests[0]) == Numbers(SortByNumber(o.imported)) + From(o.first, |w.issued|))
  {
    var w0 := OpenAt(partSize, maxUploads, o);
    OpenInv(partSize, maxUploads, o);
    RunKeepsInv(env, o, w0, calls);
    OkCloseAssembles(env, o, partSize, maxUploads, calls);
    RunAccounts(env, o, partSize, maxUploads, calls);
    var (w, outcomes) := Run(env, w0, calls);
    ClosedExactlyWhenLossless(o, w);
    var got := Concat(PartBodies(Kept(w.issued, Numbers(w.requests[0]))));
    if FlushFailed(outcomes) {
      assert |ImportedBytes(o) + got| < |ImportedBytes(o) + w.accepted|;
    }
  }

  // ---- canonical cutting ----

  /** Once closing has begun, the issued parts are the canonical cut of the accepted bytes. */
  lemma {:induction false} CanonicalCutting(o: Origin, w: Writer)
    requires Inv(o, w)
    requires w.state.CompletingParts? || w.state.Completing? || w.state.Closed?
    ensures PartBodies(w.issued) == Split(w.accepted, w.partSize)
    ensures |w.issued| == CeilDiv(|w.accepted|, w.partSize)
    ensures NumberedFrom(w.issued, o.first)
  {
    SplitIsUnique(PartBodies(w.issued), w.partSize);
    SplitShape(w.accepted, w.partSize);
    if w.state.Completing? {
      IssuedAreNumbered(o, w, w.state.request);
    } else if w.state.Closed? {
      IssuedAreNumbered(o, w, w.requests[0]);
    }
  }

  lemma {:induction false} IssuedAreNumbered(o: Origin, w: Writer, request: seq<CompletedPart>)
    requires Submitted(o, w, request)
    ensures NumberedFrom(w.issued, o.first)
  {
    var completed :| Account(o, w, [], completed) && request == SortByNumber(completed);
  }

  /**
   Two runs from the same start with the same part size and accepted bytes issue the same parts,
   whatever the slicing of the writes, the upload limits and the schedules.
   */
  lemma {:induction false} CuttingIgnoresSchedule(env1: Env, env2: Env, o: Origin, partSize: nat, max1: nat, max2: nat,
                                                  calls1: seq<Call>, calls2: seq<Call>)
    requires 0 < partSize && 0 < max1 && 0 < max2 && ValidOrigin(o)
    requires Sound(OpenAt(partSize, max1, o)) && ClosesOk(Run(env1, OpenAt(partSize, max1, o), calls1).1)
    requires Sound(OpenAt(partSize, max2, o)) && ClosesOk(Run(env2, OpenAt(partSize, max2, o), calls2).1)
    requires Accepted(calls1, Run(env1, OpenAt(partSize, max1, o), calls1).1)
          == Accepted(calls2, Run(env2, OpenAt(partSize, max2, o), calls2).1)
    ensures Run(env1, OpenAt(partSize, max1, o), calls1).0.issued
         == Run(env2, OpenAt(partSize, max2, o), calls2).0.issued
  {
    ClosedRun(env1, o, partSize, max1, calls1);
    ClosedRun(env2, o, partSize, max2, calls2);
    SameCut(o, Run(env1, OpenAt(partSize, max1, o), calls1).0, Run(env2, OpenAt(partSize, max2, o), calls2).0);
  }

  lemma {:induction false} SameCut(o: Origin, w1: Writer, w2: Writer)
    requires Inv(o, w1) && Inv(o, w2) && w1.state.Closed? && w2.state.Closed?
    requires w1.accepted == w2.accepted && w1.partSize == w2.partSize
    ensures w1.issued == w2.issued
  {
    CanonicalCutting(o, w1);
    CanonicalCutting(o, w2);
    assert |w1.issued| == |w2.issued|;
    forall i | 0 <= i < |w1.issued| ensures w1.issued[i] == w2.issued[i] {
      assert PartBodies(w1.issued)[i] == PartBodies(w2.issued)[i];
    }
  }

  /** A successful run issues the canonical cut of what was accepted. */
  lemma {:induction false} CanonicalRun(env: Env, o: Origin, partSize: nat, maxUploads: nat, calls: seq<Call>)
    requires 0 < partSize && 0 < maxUploads && ValidOrigin(o)
    requires Sound(OpenAt(partSize, maxUploads, o)) && ClosesOk(Run(env, OpenAt(partSize, maxUploads, o), calls).1)
    ensures var (w, outcomes) := Run(env, OpenAt(partSize, maxUploads, o), calls);
            && PartBodies(w.issued) == Split(Accepted(calls, outcomes), partSize)
            && |w.issued| == CeilDiv(|Accepted(calls, outcomes)|, partSize)
  {
    ClosedRun(env, o, partSize, maxUploads, calls);
    CanonicalCutting(o, Run(env, OpenAt(partSize, maxUploads, o), calls).0);
  }

  /**
   The same for a writer made by `New`: the object is exactly the accepted bytes if and only if no
   flush reported a failed request, the issued bodies are the canonical cut of those bytes, and
   without such a flush the submitted list is exactly 1..k with k = ceil(n / size).
   */
  lemma {:induction false} NewWriterEndToEnd(env: Env, partSize: nat, maxUploadingParts: Option<nat>, server: Parts,
                                             created: Result<Option<string>, Error>, calls: seq<Call>)
    requires New(partSize, maxUploadingParts, server, created).Ok?
    requires ClosesOk(Run(env, New(partSize, maxUploadingParts, server, created).value, calls).1)
    ensures var (w, outcomes) := Run(env, New(partSize, maxUploadingParts, server, created).value, calls);
            var bytes := Accepted(calls, outcomes);
            && 0 < partSize
            && PartBodies(w.issued) == Split(bytes, partSize)
            && |w.requests| == 1
            && (w.uploaded == Some(bytes) <==> !FlushFailed(outcomes))
            && (!FlushFailed(outcomes) ==> Numbers(w.requests[0]) == From(1, CeilDiv(|bytes|, partSize)))
  {
    var o := Origin(1, [], server);
    var w0 := New(partSize, maxUploadingParts, server, created).value;
    assert w0 == OpenAt(partSize, w0.maxUploads, o);
    NothingImported(o);
    EndToEnd(env, o, partSize, w0.maxUploads, calls);
    CanonicalRun(env, o, partSize, w0.maxUploads, calls);
    var (w, outcomes) := Run(env, w0, calls);
    var bytes := Accepted(calls, outcomes);
    assert [] + bytes == bytes;
    assert [] + From(1, |w.issued|) == From(1, |w.issued|);
  }
}
