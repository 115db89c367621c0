/** Interrupting an upload and resuming it with another writer. */
module Resume {
  import opened Prelude
  import opened Arithmetic
  import opened S3Service
  import opened AsyncWriting
  import opened Multipart
  import opened MultipartAccounting
  import opened MultipartInvariant
  import opened MultipartStorage
  import opened Inventory
  import opened MultipartObject
  import opened MultipartTheorems
  import opened MultipartBounds

  // ---- where a resumed writer picks up ----

  predicate AllNumbered(parts: seq<ListedPart>) {
    forall i :: 0 <= i < |parts| ==> parts[i].number.Some?
  }

  /** Listed parts can be taken over exactly when each has a number; they are taken over one by one. */
  lemma {:induction false} ToCompletedOutcome(parts: seq<ListedPart>)
    ensures var r := ToCompleted(parts);
            && (r.Ok? <==> AllNumbered(parts))
            && (r.Err? ==> r.error == NoPartNumber)
            && (r.Ok? ==>
                  && |r.value| == |parts|
                  && forall i :: 0 <= i < |parts| ==>
                       parts[i].number.Some? && r.value[i] == CompletedPart(parts[i].number.value, parts[i].tag))
  {
    if parts != [] {
      ToCompletedOutcome(parts[1..]);
      assert forall i :: 1 <= i < |parts| ==> parts[i] == parts[1..][i - 1];
      if AllNumbered(parts) {
        var rest := ToCompleted(parts[1..]).value;
        assert ToCompleted(parts).value == [CompletedPart(parts[0].number.value, parts[0].tag)] + rest;
      }
    }
  }

  /** The parts read from a listing. */
  function Listed(listing: seq<Result<Page, Error>>): (listed: seq<CompletedPart>)
    requires ToCompleted(ReadPages(listing)).Ok?
  {
    ToCompleted(ReadPages(listing)).value
  }

  function ImportedOrigin(listing: seq<Result<Page, Error>>, server: Parts): (o: Origin)
    requires ToCompleted(ReadPages(listing)).Ok?
  {
    Origin(FirstFreeNumber(ReadPages(listing)), Listed(listing), server)
  }

  lemma {:induction false} LatestIsAbove(parts: seq<ListedPart>)
    requires ToCompleted(parts).Ok?
    ensures var completed := ToCompleted(parts).value;
            && |completed| == |parts|
            && (forall i :: 0 <= i < |parts| ==>
                  parts[i].number == Some(completed[i].number) && parts[i].tag == completed[i].tag)
            && (LatestNumber(parts).None? <==> parts == [])
            && (forall i :: 0 <= i < |completed| ==> completed[i].number < FirstFreeNumber(parts))
            && (parts != [] ==> exists i :: 0 <= i < |completed| && completed[i].number == FirstFreeNumber(parts) - 1)
  {
    if parts != [] {
      LatestIsAbove(parts[1..]);
      var completed, rest := ToCompleted(parts).value, ToCompleted(parts[1..]).value;
      assert completed == [CompletedPart(parts[0].number.value, parts[0].tag)] + rest;
      if completed[0].number != FirstFreeNumber(parts) - 1 {
        var i :| 0 <= i < |rest| && rest[i].number == FirstFreeNumber(parts[1..]) - 1;
        assert completed[i + 1].number == FirstFreeNumber(parts) - 1;
      }
    }
  }

  predicate DistinctListed(parts: seq<CompletedPart>) {
    forall i, j :: 0 <= i < j < |parts| ==> parts[i].number != parts[j].number
  }

  /** The parts read are held by the service, each named once and under its tag. */
  predicate ListsHeld(listing: seq<Result<Page, Error>>, server: Parts)
    requires ToCompleted(ReadPages(listing)).Ok?
  {
    DistinctListed(Listed(listing)) && AllHeld(server, Listed(listing))
  }

  /**
   A resumed writer starts just above every listed number, gaps or not, so that all its part numbers
   are new; its first number is 1 when nothing was listed.
   */
  lemma {:induction false} ResumedNumbering(partSize: nat, maxUploadingParts: Option<nat>, listing: seq<Result<Page,
                                            Error>>, server: Parts)
    requires Import(partSize, maxUploadingParts, listing, server).Ok?
    requires ListsHeld(listing, server)
    ensures var w := Import(partSize, maxUploadingParts, listing, server).value;
            var o := ImportedOrigin(listing, server);
            && 0 < w.partSize && 0 < w.maxUploads
            && w == OpenAt(w.partSize, w.maxUploads, o)
            && ValidOrigin(o)
            && (forall i :: 0 <= i < |o.imported| ==> o.imported[i].number < o.first)
            && (o.imported == [] ==> o.first == 1)
            && (o.imported != [] ==> exists i :: 0 <= i < |o.imported| && o.imported[i].number == o.first - 1)
  {
    var o := ImportedOrigin(listing, server);
    LatestIsAbove(ReadPages(listing));
    forall x ensures multiset(Numbers(o.imported))[x] <= 1 {
      DistinctOnce(Numbers(o.imported), x);
    }
  }

  /**
   Resuming and closing: for every call sequence and schedule, the new part numbers are all above
   the listed ones, and without a failed flush the submitted list is the listed parts in number
   order followed by the new ones, strictly ascending; the object is those listed parts' bytes
   followed by what the resumed writer accepted.
   */
  lemma {:induction false} ResumedRun(env: Env, partSize: nat, maxUploadingParts: Option<nat>,
                                      listing: seq<Result<Page, Error>>,
                                      server: Parts, calls: seq<Call>)
    requires Import(partSize, maxUploadingParts, listing, server).Ok?
    requires ListsHeld(listing, server)
    requires ClosesOk(Run(env, Import(partSize, maxUploadingParts, listing, server).value, calls).1)
    ensures var (w, outcomes) := Run(env, Import(partSize, maxUploadingParts, listing, server).value, calls);
            var o := ImportedOrigin(listing, server);
            && AllHeld(o.server, o.imported)
            && |w.requests| == 1
            && Ascending(Numbers(w.requests[0]))
            && w.uploaded.Some?
            && (w.uploaded == Some(ImportedBytes(o) + Accepted(calls, outcomes)) <==> !FlushFailed(outcomes))
            && (FlushFailed(outcomes) ==> |w.uploaded.value| < |ImportedBytes(o) + Accepted(calls, outcomes)|)
            && (!FlushFailed(outcomes) ==>
                  Numbers(w.requests[0]) == Numbers(SortByNumber(o.imported)) + From(o.first, |w.issued|))
  {
    var w := Import(partSize, maxUploadingParts, listing, server).value;
    ResumedNumbering(partSize, maxUploadingParts, listing, server);
    EndToEnd(env, ImportedOrigin(listing, server), w.partSize, w.maxUploads, calls);
  }

  // ---- what an interrupted writer leaves behind ----

  /** The service holds exactly these parts. */
  ghost predicate ServerHasExactly(server: Parts, issued: seq<Part>, first: int) {
    && NumberedFrom(issued, first)
    && (forall n :: n in server <==> first <= n < first + |issued|)
    && (forall i :: 0 <= i < |issued| ==> first + i in server && server[first + i].body == issued[i].body)
  }

  /** Once nothing is in flight and nothing is lost, every issued part has landed. */
  lemma {:induction false} AllLanded(o: Origin, w: Writer)
    requires Inv(o, w) && Lost(o, w) == 0 && o.imported == []
    requires w.state.Writing? && w.state.uploads == []
    ensures multiset(Landed(w.world.server, w.state.completed)) == multiset(w.issued)
    ensures AllHeld(w.world.server, w.state.completed)
  {
    Conservation(o, w);
    assert w.state.completed[|o.imported|..] == w.state.completed;
    assert UploadParts([]) == [];
  }

  lemma {:induction false} LandedIsStored(server: Parts, completed: seq<CompletedPart>, issued: seq<Part>, p: Part)
    requires AllHeld(server, completed)
    requires multiset(Landed(server, completed)) == multiset(issued)
    requires p in issued
    ensures p.number in server && server[p.number].body == p.body
  {
    var landed := Landed(server, completed);
    assert p in multiset(landed);
    var k :| 0 <= k < |landed| && landed[k] == p;
    assert Holds(server, completed[k]);
  }

  lemma {:induction false} FlushedServer(o: Origin, w: Writer)
    requires Inv(o, w) && Lost(o, w) == 0 && o.imported == [] && o.server == map[]
    requires w.state.Writing? && w.state.uploads == []
    ensures ServerHasExactly(w.world.server, w.issued, o.first)
  {
    AllLanded(o, w);
    var server, first, issued := w.world.server, o.first, w.issued;
    assert NumberedFrom(issued, first);
    forall i | 0 <= i < |issued| ensures first + i in server && server[first + i].body == issued[i].body {
      LandedIsStored(server, w.state.completed, issued, issued[i]);
    }
    forall n ensures n in server <==> first <= n < first + |issued| {
      if first <= n < first + |issued| {
        LandedIsStored(server, w.state.completed, issued, issued[n - first]);
      }
    }
  }

  /** How many full parts these bytes make. */
  function FullPartsIn(bytes: seq<byte>, partSize: nat): (count: nat)
    requires 0 < partSize
  {
    |bytes| / partSize
  }

  /** The bytes of those full parts. */
  function CutToParts(bytes: seq<byte>, partSize: nat): (cut: seq<byte>)
    requires 0 < partSize
    ensures cut <= bytes && |bytes| - |cut| < partSize
  {
    ModAtMost(|bytes|, partSize);
    bytes[..|bytes| - |bytes| % partSize]
  }

  /** A writer that still accepts bytes has issued its accepted bytes up to the last full part. */
  lemma {:induction false} IssuedPrefix(o: Origin, w: Writer)
    requires Inv(o, w) && w.state.Writing?
    ensures Concat(PartBodies(w.issued)) == CutToParts(w.accepted, w.partSize)
    ensures |w.issued| == FullPartsIn(w.accepted, w.partSize)
  {
    NextPartNumber(o, w);
  }

  // ---- interrupt and resume ----

  /** Resuming over any service that holds only parts of this content. */
  lemma {:induction false} ResumedObject(env: Env, partSize: nat, maxUploadingParts: Option<nat>,
                                         listing: seq<Result<Page, Error>>,
                                         server: Parts, calls: seq<Call>, whole: seq<Part>)
    requires HoldsOnlyPartsOf(server, whole)
    requires forall i :: 0 <= i < |whole| ==> |whole[i].body| > 0
    requires Import(partSize, maxUploadingParts, listing, server).Ok?
    requires ListsHeld(listing, server)
    requires ClosesOk(Run(env, Import(partSize, maxUploadingParts, listing, server).value, calls).1)
    ensures var (w, outcomes) := Run(env, Import(partSize, maxUploadingParts, listing, server).value, calls);
            w.uploaded == Some(Concat(PartBodies(whole)) + Accepted(calls, outcomes)) <==>
              NamesParts(Numbers(Listed(listing)), whole) && !FlushFailed(outcomes)
  {
    var o := ImportedOrigin(listing, server);
    ResumedNumbering(partSize, maxUploadingParts, listing, server);
    ResumedRun(env, partSize, maxUploadingParts, listing, server, calls);
    ListedBytesComplete(o, whole);
    var (w, outcomes) := Run(env, Import(partSize, maxUploadingParts, listing, server).value, calls);
    var bytes, b := Concat(PartBodies(whole)), Accepted(calls, outcomes);
    if !(NamesParts(Numbers(o.imported), whole) && !FlushFailed(outcomes)) {
      assert |w.uploaded.value| < |bytes + b|;
    }
  }

  /** What a writer leaves behind at any point of any run. */
  lemma {:induction false} LeftBehind(env: Env, o: Origin, partSize: nat, maxUploads: nat, calls: seq<Call>)
    requires 0 < partSize && 0 < maxUploads && ValidOrigin(o) && Sound(OpenAt(partSize, maxUploads, o))
    ensures var (w, outcomes) := Run(env, OpenAt(partSize, maxUploads, o), calls);
            var a, issued := Accepted(calls, outcomes), Concat(PartBodies(w.issued));
            && HoldsOnlyIssued(o.server, w.world.server, w.issued, o.first)
            && (forall i :: 0 <= i < |w.issued| ==> |w.issued[i].body| > 0)
            && (issued <= a || a <= issued)
            && (w.state.Writing? ==> |w.issued| == FullPartsIn(a, partSize) && issued == CutToParts(a, partSize))
  {
    RunStoresIssued(env, o, partSize, maxUploads, calls);
    RunIssuesInOrder(env, o, partSize, maxUploads, calls);
    RunAccounts(env, o, partSize, maxUploads, calls);
    var w := Run(env, OpenAt(partSize, maxUploads, o), calls).0;
    if w.state.Writing? {
      IssuedPrefix(o, w);
    }
  }

  /**
   The general law. A writer starts from any origin at which it found everything that was held, is
   interrupted at any point of any run, also after it failed or began to close, and its upload is
   resumed by another writer, which closes. The object is what was there at first, then all issued
   bytes of the first writer, then the second writer's bytes, if and only if the pages read name
   everything that was held at first and every issued part, and no flush of the second writer
   reported a failed request. What the service holds by then is any of the issued parts: those seen
   to arrive, and those whose requests were still under way. It holds no empty part, so that the law
   applies to the second writer in turn.
   */
  lemma {:induction false} ResumeFromOrigin(env1: Env, o: Origin, size1: nat, max1: nat, calls1: seq<Call>,
                                            server: Parts, listing: seq<Result<Page, Error>>,
                                            env2: Env, size2: nat, max2: Option<nat>, calls2: seq<Call>)
    requires 0 < size1 && 0 < max1 && FoundEverything(o) && Sound(OpenAt(size1, max1, o))
    requires HoldsOnlyIssued(o.server, server, Run(env1, OpenAt(size1, max1, o), calls1).0.issued, o.first)
    requires Import(size2, max2, listing, server).Ok? && ListsHeld(listing, server)
    requires ClosesOk(Run(env2, Import(size2, max2, listing, server).value, calls2).1)
    ensures var w1 := Run(env1, OpenAt(size1, max1, o), calls1).0;
            var (w2, outcomes2) := Run(env2, Import(size2, max2, listing, server).value, calls2);
            && NoEmptyPart(server)
            && (w2.uploaded == Some(ImportedBytes(o) + Concat(PartBodies(w1.issued)) + Accepted(calls2, outcomes2))
                <==> && ListsEverything(o.server, Listed(listing))
                     && NamesAll(Listed(listing), o.first, |w1.issued|)
                     && !FlushFailed(outcomes2))
  {
    var issued := Run(env1, OpenAt(size1, max1, o), calls1).0.issued;
    LeftBehind(env1, o, size1, max1, calls1);
    NoEmptyPartStays(o.server, server, issued, o.first);
    WholeContent(o, issued, server);
    WholeBytes(o, issued);
    NamesWhole(o, issued, Listed(listing));
    ResumedObject(env2, size2, max2, listing, server, calls2, Found(o) + issued);
  }

  /** A new writer starts from the origin at which nothing is held. */
  lemma {:induction false} NewStarts(partSize: nat, maxUploadingParts: Option<nat>,
                                     created: Result<Option<string>, Error>)
    requires New(partSize, maxUploadingParts, map[], created).Ok?
    ensures var w := New(partSize, maxUploadingParts, map[], created).value;
            var o := Origin(1, [], map[]);
            && 0 < partSize && 0 < w.maxUploads && w == OpenAt(partSize, w.maxUploads, o)
            && FoundEverything(o) && ImportedBytes(o) == []
  {
    NothingImported(Origin(1, [], map[]));
  }

  /** What an interrupted new writer leaves behind. */
  lemma {:induction false} NewLeavesBehind(env: Env, partSize: nat, maxUploadingParts: Option<nat>,
                                           created: Result<Option<string>, Error>, calls: seq<Call>)
    requires New(partSize, maxUploadingParts, map[], created).Ok?
    ensures var (w, outcomes) := Run(env, New(partSize, maxUploadingParts, map[], created).value, calls);
            var a, issued := Accepted(calls, outcomes), Concat(PartBodies(w.issued));
            && 0 < partSize
            && HoldsOnlyIssued(map[], w.world.server, w.issued, 1)
            && (issued <= a || a <= issued)
            && (w.state.Writing? ==> |w.issued| == FullPartsIn(a, partSize) && issued == CutToParts(a, partSize))
  {
    NewStarts(partSize, maxUploadingParts, created);
    var max := New(partSize, maxUploadingParts, map[], created).value.maxUploads;
    LeftBehind(env, Origin(1, [], map[]), partSize, max, calls);
  }

  /**
   Interrupt a writer at any point of any run, also after it failed or began to close, resume its
   upload with another writer, and close. The object is all issued bytes of the first writer followed
   by the second writer's bytes if and only if the pages read name every issued part and no flush of
   the second writer reported a failed request. The issued bytes are a beginning of the bytes the
   first writer accepted, or the other way round. What the service holds by then is any of the issued
   parts: those seen to arrive, and those whose requests were still under way.
   */
  lemma {:induction false} ResumeAnywhere(env1: Env, size1: nat, max1: Option<nat>,
                                          created: Result<Option<string>, Error>,
                                          calls1: seq<Call>, server: Parts, listing: seq<Result<Page, Error>>,
                                          env2: Env, size2: nat, max2: Option<nat>, calls2: seq<Call>)
    requires New(size1, max1, map[], created).Ok?
    requires HoldsOnlyIssued(map[], server, Run(env1, New(size1, max1, map[], created).value, calls1).0.issued, 1)
    requires Import(size2, max2, listing, server).Ok?
    requires ListsHeld(listing, server)
    requires ClosesOk(Run(env2, Import(size2, max2, listing, server).value, calls2).1)
    ensures var (w1, outcomes1) := Run(env1, New(size1, max1, map[], created).value, calls1);
            var (w2, outcomes2) := Run(env2, Import(size2, max2, listing, server).value, calls2);
            var a, b, issued := Accepted(calls1, outcomes1), Accepted(calls2, outcomes2), Concat(PartBodies(w1.issued));
            && HoldsOnlyIssued(map[], w1.world.server, w1.issued, 1)
            && (issued <= a || a <= issued)
            && (w2.uploaded == Some(issued + b)
                <==> && NamesAll(Listed(listing), 1, |w1.issued|)
                     && !FlushFailed(outcomes2))
  {
    var o, max := Origin(1, [], map[]), New(size1, max1, map[], created).value.maxUploads;
    NewStarts(size1, max1, created);
    NewLeavesBehind(env1, size1, max1, created, calls1);
    ResumeFromOrigin(env1, o, size1, max, calls1, server, listing, env2, size2, max2, calls2);
    EmptyFront(Concat(PartBodies(Run(env1, OpenAt(size1, max, o), calls1).0.issued)));
  }

  /**
   Interrupt a writer at any point while it accepts bytes, whatever failed before, resume its upload
   with another writer, and close. The object is the first writer's bytes cut down to whole parts,
   followed by the second writer's bytes, if and only if the pages read name every one of those
   parts and no flush of the second writer reported a failed request. Part sizes and limits need
   not agree.
   */
  lemma {:induction false} InterruptAndResume(env1: Env, size1: nat, max1: Option<nat>,
                                              created: Result<Option<string>, Error>,
                                              calls1: seq<Call>, server: Parts, listing: seq<Result<Page, Error>>,
                                              env2: Env, size2: nat, max2: Option<nat>, calls2: seq<Call>)
    requires New(size1, max1, map[], created).Ok?
    requires Run(env1, New(size1, max1, map[], created).value, calls1).0.state.Writing?
    requires HoldsOnlyIssued(map[], server, Run(env1, New(size1, max1, map[], created).value, calls1).0.issued, 1)
    requires Import(size2, max2, listing, server).Ok?
    requires ListsHeld(listing, server)
    requires ClosesOk(Run(env2, Import(size2, max2, listing, server).value, calls2).1)
    ensures var (w1, outcomes1) := Run(env1, New(size1, max1, map[], created).value, calls1);
            var (w2, outcomes2) := Run(env2, Import(size2, max2, listing, server).value, calls2);
            var a, b := Accepted(calls1, outcomes1), Accepted(calls2, outcomes2);
            && HoldsOnlyIssued(map[], w1.world.server, w1.issued, 1)
            && 0 < size1
            && (w2.uploaded == Some(CutToParts(a, size1) + b)
                <==> && NamesAll(Listed(listing), 1, FullPartsIn(a, size1))
                     && !FlushFailed(outcomes2))
  {
    NewLeavesBehind(env1, size1, max1, created, calls1);
    ResumeAnywhere(env1, size1, max1, created, calls1, server, listing, env2, size2, max2, calls2);
  }

  /** A resumed writer starts from the origin at which the parts listed are held. */
  lemma {:induction false} ImportStarts(partSize: nat, maxUploadingParts: Option<nat>,
                                        listing: seq<Result<Page, Error>>, server: Parts)
    requires Import(partSize, maxUploadingParts, listing, server).Ok?
    requires ListsHeld(listing, server) && ListsEverything(server, Listed(listing)) && NoEmptyPart(server)
    ensures var w := Import(partSize, maxUploadingParts, listing, server).value;
            var o := ImportedOrigin(listing, server);
            && 0 < partSize && 0 < w.maxUploads && w == OpenAt(partSize, w.maxUploads, o) && FoundEverything(o)
  {
    ResumedNumbering(partSize, maxUploadingParts, listing, server);
  }

  /**
   The same for a first writer that itself resumed the upload, over a listing of everything held: the
   object is what it found, its own bytes cut down to whole parts, and the second writer's bytes, if
   and only if the pages read name everything it found and every one of its parts, and no flush of
   the second writer reported a failed request.
   */
  lemma {:induction false} ResumeAgain(server0: Parts, env1: Env, size1: nat, max1: Option<nat>,
                                       listing1: seq<Result<Page, Error>>, calls1: seq<Call>,
                                       server: Parts, listing: seq<Result<Page, Error>>,
                                       env2: Env, size2: nat, max2: Option<nat>, calls2: seq<Call>)
    requires NoEmptyPart(server0)
    requires Import(size1, max1, listing1, server0).Ok?
    requires ListsHeld(listing1, server0) && ListsEverything(server0, Listed(listing1))
    requires Run(env1, Import(size1, max1, listing1, server0).value, calls1).0.state.Writing?
    requires HoldsOnlyIssued(server0, server, Run(env1, Import(size1, max1, listing1, server0).value, calls1).0.issued,
                             FirstFreeNumber(ReadPages(listing1)))
    requires Import(size2, max2, listing, server).Ok? && ListsHeld(listing, server)
    requires ClosesOk(Run(env2, Import(size2, max2, listing, server).value, calls2).1)
    ensures var (w1, outcomes1) := Run(env1, Import(size1, max1, listing1, server0).value, calls1);
            var (w2, outcomes2) := Run(env2, Import(size2, max2, listing, server).value, calls2);
            var a, b := Accepted(calls1, outcomes1), Accepted(calls2, outcomes2);
            var first := FirstFreeNumber(ReadPages(listing1));
            && NoEmptyPart(server)
            && HoldsOnlyIssued(server0, w1.world.server, w1.issued, first)
            && 0 < size1
            && (w2.uploaded == Some(ImportedBytes(ImportedOrigin(listing1, server0)) + CutToParts(a, size1) + b)
                <==> && ListsEverything(server0, Listed(listing))
                     && NamesAll(Listed(listing), first, FullPartsIn(a, size1))
                     && !FlushFailed(outcomes2))
  {
    var o, max := ImportedOrigin(listing1, server0), Import(size1, max1, listing1, server0).value.maxUploads;
    ImportStarts(size1, max1, listing1, server0);
    LeftBehind(env1, o, size1, max, calls1);
    ResumeFromOrigin(env1, o, size1, max, calls1, server, listing, env2, size2, max2, calls2);
  }

  // ---- after a flush without failures, the service holds everything ----

  ghost predicate FlushesOk(outcomes: seq<Outcome>) {
    outcomes != [] && outcomes[|outcomes|-1] == Flushed(Ready(Ok(())))
  }

  lemma {:induction false} FlushedRunFrom(env: Env, o: Origin, w0: Writer, calls: seq<Call>)
    requires Inv(o, w0) && Lost(o, w0) == 0 && w0.accepted == []
    requires FlushesOk(Run(env, w0, calls).1)
    ensures var (w, outcomes) := Run(env, w0, calls);
            && Inv(o, w)
            && w.state.Writing? && w.state.uploads == []
            && (Lost(o, w) == 0 <==> !FlushFailed(outcomes))
  {
    RunKeepsInv(env, o, w0, calls);
  }

  /**
   A writer whose last call was a successful flush still accepts bytes, and has issued its accepted
   bytes cut down to whole parts. If no earlier flush reported a failed request, the service then
   holds exactly those parts, each with its body.
   */
  lemma {:induction false} FlushedIsStored(env: Env, partSize: nat, maxUploadingParts: Option<nat>,
                                           created: Result<Option<string>, Error>,
                                           calls: seq<Call>)
    requires New(partSize, maxUploadingParts, map[], created).Ok?
    requires FlushesOk(Run(env, New(partSize, maxUploadingParts, map[], created).value, calls).1)
    ensures var (w, outcomes) := Run(env, New(partSize, maxUploadingParts, map[], created).value, calls);
            && 0 < partSize
            && w.state.Writing? && w.state.uploads == []
            && (var a := Accepted(calls, outcomes);
                && Concat(PartBodies(w.issued)) == CutToParts(a, partSize)
                && |w.issued| == FullPartsIn(a, partSize))
            && (!FlushFailed(outcomes) ==> ServerHasExactly(w.world.server, w.issued, 1))
  {
    var o := Origin(1, [], map[]);
    var w0 := New(partSize, maxUploadingParts, map[], created).value;
    NewStarts(partSize, maxUploadingParts, created);
    OpenInv(partSize, w0.maxUploads, o);
    FlushedRunFrom(env, o, w0, calls);
    NewLeavesBehind(env, partSize, maxUploadingParts, created, calls);
    var (w, outcomes) := Run(env, w0, calls);
    if !FlushFailed(outcomes) {
      FlushedServer(o, w);
    }
  }

  /**
   Write, flush, resume over a full listing, write, close. If no flush of the first writer reported a
   failed request, and its last was successful, the object is the first writer's bytes cut down to
   whole parts, followed by the second writer's bytes, if and only if no flush of the second writer
   reported a failed request.
   */
  lemma {:induction false} FlushAndResume(env1: Env, size1: nat, max1: Option<nat>,
                                          created: Result<Option<string>, Error>,
                                          calls1: seq<Call>, listing: seq<Result<Page, Error>>,
                                          env2: Env, size2: nat, max2: Option<nat>, calls2: seq<Call>)
    requires New(size1, max1, map[], created).Ok?
    requires var outcomes1 := Run(env1, New(size1, max1, map[], created).value, calls1).1;
             FlushesOk(outcomes1) && !FlushFailed(outcomes1)
    requires var server := Run(env1, New(size1, max1, map[], created).value, calls1).0.world.server;
             && Import(size2, max2, listing, server).Ok?
             && ListsHeld(listing, server) && ListsEverything(server, Listed(listing))
             && ClosesOk(Run(env2, Import(size2, max2, listing, server).value, calls2).1)
    ensures var (w1, outcomes1) := Run(env1, New(size1, max1, map[], created).value, calls1);
            var (w2, outcomes2) := Run(env2, Import(size2, max2, listing, w1.world.server).value, calls2);
            var a, b := Accepted(calls1, outcomes1), Accepted(calls2, outcomes2);
            && 0 < size1
            && (w2.uploaded == Some(CutToParts(a, size1) + b) <==> !FlushFailed(outcomes2))
  {
    var w1 := Run(env1, New(size1, max1, map[], created).value, calls1).0;
    FlushedIsStored(env1, size1, max1, created, calls1);
    NewLeavesBehind(env1, size1, max1, created, calls1);
    InterruptAndResume(env1, size1, max1, created, calls1, w1.world.server, listing, env2, size2, max2, calls2);
  }

  // ---- listings ----

  /** A failed listing page is not reported: it ends the listing as if it were not there. */
  lemma {:induction false} FailedPageIsSilent(before: seq<Result<Page, Error>>, e: Error,
                                              after: seq<Result<Page, Error>>)
    ensures ReadPages(before + [Err(e)] + after) == ReadPages(before)
  {
    var listing := before + [Err(e)] + after;
    if before != [] {
      assert listing[1..] == before[1..] + [Err(e)] + after;
      FailedPageIsSilent(before[1..], e, after);
    }
  }

  /** What a listing whose requests all succeed delivers. */
  function Delivered(pages: seq<Page>): (listing: seq<Result<Page, Error>>)
    ensures |listing| == |pages| && forall i :: 0 <= i < |pages| ==> listing[i] == Ok(pages[i])
  {
    seq(|pages|, i requires 0 <= i < |pages| => Ok(pages[i]))
  }

  /** The same listing when the request for page k fails. */
  function WithFailure(pages: seq<Page>, k: nat, e: Error): (listing: seq<Result<Page, Error>>)
    requires k < |pages|
  {
    Delivered(pages[..k]) + [Err(e)] + Delivered(pages[k+1..])
  }

  function PageParts(pages: seq<Page>): (parts: seq<ListedPart>) {
    if pages == [] then [] else pages[0].parts + PageParts(pages[1..])
  }

  /** Pages that list, once each and by number, exactly the parts held; only the last says it is the last. */
  ghost predicate Paginates(server: Parts, pages: seq<Page>) {
    && pages != []
    && (forall i :: 0 <= i < |pages| ==> (pages[i].truncated == Some(true) <==> i < |pages| - 1))
    && AllNumbered(PageParts(pages))
    && (ToCompletedOutcome(PageParts(pages));
        var listed := ToCompleted(PageParts(pages)).value;
        DistinctListed(listed) && AllHeld(server, listed) && ListsEverything(server, listed))
  }

  lemma {:induction false} DeliveredIsRead(pages: seq<Page>)
    requires forall i :: 0 <= i < |pages| - 1 ==> pages[i].truncated == Some(true)
    ensures ReadPages(Delivered(pages)) == PageParts(pages)
  {
    if pages != [] {
      DeliveredIsRead(pages[1..]);
      assert Delivered(pages)[1..] == Delivered(pages[1..]);
    }
  }

  lemma {:induction false} PagePartsAppend(a: seq<Page>, b: seq<Page>)
    ensures PageParts(a + b) == PageParts(a) + PageParts(b)
  {
    if a == [] {
      assert a + b == b;
    } else {
      assert (a + b)[1..] == a[1..] + b;
      PagePartsAppend(a[1..], b);
    }
  }

  lemma {:induction false} NoPageParts(pages: seq<Page>)
    ensures PageParts(pages) == [] <==> forall i :: 0 <= i < |pages| ==> pages[i].parts == []
  {
    if pages != [] {
      NoPageParts(pages[1..]);
      assert forall i :: 1 <= i < |pages| ==> pages[i] == pages[1..][i - 1];
    }
  }

  lemma {:induction false} PagesInTwo(pages: seq<Page>, k: nat)
    requires k <= |pages|
    ensures PageParts(pages) == PageParts(pages[..k]) + PageParts(pages[k..])
    ensures PageParts(pages[k..]) == [] <==> forall i :: k <= i < |pages| ==> pages[i].parts == []
  {
    assert pages == pages[..k] + pages[k..];
    PagePartsAppend(pages[..k], pages[k..]);
    NoPageParts(pages[k..]);
    assert forall i :: k <= i < |pages| ==> pages[k..][i - k] == pages[i];
  }

  lemma {:induction false} ReadUpToFailure(pages: seq<Page>, k: nat, e: Error)
    requires k < |pages| && forall i :: 0 <= i < k ==> pages[i].truncated == Some(true)
    ensures ReadPages(WithFailure(pages, k, e)) == PageParts(pages[..k])
  {
    FailedPageIsSilent(Delivered(pages[..k]), e, Delivered(pages[k+1..]));
    DeliveredIsRead(pages[..k]);
  }

  lemma {:induction false} ToCompletedAppend(a: seq<ListedPart>, b: seq<ListedPart>)
    requires ToCompleted(a + b).Ok?
    ensures ToCompleted(a).Ok? && ToCompleted(b).Ok?
    ensures ToCompleted(a + b).value == ToCompleted(a).value + ToCompleted(b).value
    ensures |ToCompleted(b).value| == |b|
  {
    LatestIsAbove(a + b);
    if a == [] {
      assert a + b == b;
    } else {
      assert (a + b)[1..] == a[1..] + b;
      ToCompletedAppend(a[1..], b);
    }
  }

  /** Of parts that are all held and have distinct numbers, a beginning lists everything only if it is all. */
  lemma {:induction false} BeginningListsEverything(server: Parts, a: seq<CompletedPart>, b: seq<CompletedPart>)
    requires DistinctListed(a + b) && AllHeld(server, a + b) && ListsEverything(server, a + b)
    ensures DistinctListed(a) && AllHeld(server, a)
    ensures ListsEverything(server, a) <==> b == []
  {
    assert forall i :: 0 <= i < |a| ==> (a + b)[i] == a[i];
    if b == [] {
      assert a + b == a;
    } else {
      assert (a + b)[|a|] == b[0] && Holds(server, b[0]);
      assert b[0].number !in Numbers(a);
    }
  }

  /**
   A listing in which the request for page k fails is resumed from without an error, and reads every
   part the service holds if and only if no page from k on names a part.
   */
  lemma {:induction false} FailedPageLosesItsParts(server: Parts, pages: seq<Page>, k: nat, e: Error, partSize: nat,
                                                   maxUploadingParts: Option<nat>)
    requires Paginates(server, pages) && k < |pages|
    ensures var listing := WithFailure(pages, k, e);
            && ToCompleted(ReadPages(listing)).Ok?
            && (Import(partSize, maxUploadingParts, listing, server).Ok?
                <==> CheckedLimit(partSize, maxUploadingParts).Ok?)
            && var listed := ToCompleted(ReadPages(listing)).value;
               && DistinctListed(listed) && AllHeld(server, listed)
               && (ListsEverything(server, listed) <==> forall i :: k <= i < |pages| ==> pages[i].parts == [])
  {
    ToCompletedOutcome(PageParts(pages));
    ReadUpToFailure(pages, k, e);
    PagesInTwo(pages, k);
    var a, b := PageParts(pages[..k]), PageParts(pages[k..]);
    ToCompletedAppend(a, b);
    BeginningListsEverything(server, ToCompleted(a).value, ToCompleted(b).value);
  }

  /**
   Interrupt and resume over a faithful listing in which the request for page k fails: the object is
   complete if and only if the service holds every whole part, no page from k on names a part, and
   no flush of the second writer reported a failed request.
   */
  lemma {:induction false} ResumeWithFailedPage(env1: Env, size1: nat, max1: Option<nat>,
                                                created: Result<Option<string>, Error>,
                                                calls1: seq<Call>, server: Parts, pages: seq<Page>, k: nat, e: Error,
                                                env2: Env, size2: nat, max2: Option<nat>, calls2: seq<Call>)
    requires New(size1, max1, map[], created).Ok?
    requires Run(env1, New(size1, max1, map[], created).value, calls1).0.state.Writing?
    requires HoldsOnlyIssued(map[], server, Run(env1, New(size1, max1, map[], created).value, calls1).0.issued, 1)
    requires Paginates(server, pages) && k < |pages|
    requires Import(size2, max2, WithFailure(pages, k, e), server).Ok?
    requires ClosesOk(Run(env2, Import(size2, max2, WithFailure(pages, k, e), server).value, calls2).1)
    ensures var (w1, outcomes1) := Run(env1, New(size1, max1, map[], created).value, calls1);
            var (w2, outcomes2) := Run(env2, Import(size2, max2, WithFailure(pages, k, e), server).value, calls2);
            var a, b := Accepted(calls1, outcomes1), Accepted(calls2, outcomes2);
            && HoldsOnlyIssued(map[], w1.world.server, w1.issued, 1)
            && 0 < size1
            && (w2.uploaded == Some(CutToParts(a, size1) + b)
                <==> && (forall n :: 1 <= n <= FullPartsIn(a, size1) ==> n in server)
                     && (forall i :: k <= i < |pages| ==> pages[i].parts == [])
                     && !FlushFailed(outcomes2))
  {
    var (w1, outcomes1) := Run(env1, New(size1, max1, map[], created).value, calls1);
    FailedPageLosesItsParts(server, pages, k, e, size2, max2);
    NewLeavesBehind(env1, size1, max1, created, calls1);
    InterruptAndResume(env1, size1, max1, created, calls1, server, WithFailure(pages, k, e), env2, size2, max2, calls2);
    NamedAndHeld(server, w1.issued, ToCompleted(ReadPages(WithFailure(pages, k, e))).value);
  }

  /** Naming all issued parts is holding them all and naming all that is held. */
  lemma {:induction false} NamedAndHeld(server: Parts, issued: seq<Part>, listed: seq<CompletedPart>)
    requires HoldsOnlyIssued(map[], server, issued, 1) && AllHeld(server, listed)
    ensures NamesAll(listed, 1, |issued|)
       <==> (forall n :: 1 <= n <= |issued| ==> n in server) && ListsEverything(server, listed)
  {
    if NamesAll(listed, 1, |issued|) {
      forall n | 1 <= n <= |issued| ensures n in server {
        assert 1 <= n < 1 + |issued| && n in Numbers(listed);
        var i :| 0 <= i < |listed| && Numbers(listed)[i] == n;
        assert Holds(server, listed[i]);
      }
    }
  }
}
