/** Opening and resuming an upload: when it succeeds, with what error it fails, and what the caller's limits bound. */
module Opening {
  import opened Prelude
  import opened S3Service
  import opened AsyncWriting
  import opened Multipart
  import opened MultipartInvariant
  import opened MultipartObject
  import opened MultipartBounds
  import opened MultipartOutcomes
  import opened MultipartLiveness
  import opened Resume

  /** The number of concurrent uploads that a caller asks for. */
  function Asked(maxUploadingParts: Option<nat>): (max: nat) {
    match maxUploadingParts
    case Some(max) => max
    case None => 100
  }

  /** The arguments that opening and resuming accept: a part of 5 MiB to 5 GiB, and some concurrency. */
  predicate GoodLimits(partSize: nat, maxUploadingParts: Option<nat>) {
    5 * 1024 * 1024 <= partSize <= 5 * 1024 * 1024 * 1024 && maxUploadingParts != Some(0)
  }

  /** What is wrong with other arguments, the first complaint coming first. */
  function BadLimits(partSize: nat, maxUploadingParts: Option<nat>): (error: Error) {
    if partSize < 5 * 1024 * 1024 then PartSizeTooSmall
    else if partSize > 5 * 1024 * 1024 * 1024 then PartSizeTooLarge
    else ZeroUploadingParts
  }

  /** A writer that has done nothing yet, with the limits that its caller asked for. */
  predicate Fresh(w: Writer, partSize: nat, maxUploadingParts: Option<nat>, server: Parts) {
    && w.partSize == partSize && w.maxUploads == Asked(maxUploadingParts)
    && w.state.Writing? && w.state.uploads == [] && w.state.buffer == []
    && w.world == World(0, server)
    && w.issued == [] && w.requests == [] && w.accepted == [] && w.uploaded == None
  }

  /**
   A new upload is opened exactly when the arguments are good and the service answers with an upload
   id; the writer starts at part 1 with nothing completed and the caller's own limits.
   */
  lemma {:induction false} NewOutcome(partSize: nat, maxUploadingParts: Option<nat>, server: Parts,
                                      created: Result<Option<string>, Error>)
    ensures var r := New(partSize, maxUploadingParts, server, created);
            && (r.Ok? <==> GoodLimits(partSize, maxUploadingParts) && created.Ok? && created.value.Some?)
            && (r.Ok? ==>
                  && Fresh(r.value, partSize, maxUploadingParts, server)
                  && r.value.state.partNumber == 1 && r.value.state.completed == [])
            && (r.Err? ==>
                  r.error == if !GoodLimits(partSize, maxUploadingParts) then BadLimits(partSize, maxUploadingParts)
                             else if created.Err? then created.error
                             else NoUploadId)
  {}

  // ---- listings ----

  /** Reading a listing ends after these pages: each says that more follows, unless it is the last one read. */
  ghost predicate EndsAfter(listing: seq<Result<Page, Error>>, pages: seq<Page>) {
    && |pages| <= |listing|
    && (forall i :: 0 <= i < |pages| ==> listing[i] == Ok(pages[i]))
    && (forall i :: 0 <= i < |pages| - 1 ==> pages[i].truncated == Some(true))
    && ((pages != [] && pages[|pages| - 1].truncated != Some(true))
        || |pages| == |listing|
        || listing[|pages|].Err?)
  }

  /**
   The parts read are those of the pages up to the first that is not truncated, or that could not be
   fetched, or that is not there; and every listing ends in one of these ways.
   */
  lemma {:induction false} PagesRead(listing: seq<Result<Page, Error>>) returns (pages: seq<Page>)
    ensures EndsAfter(listing, pages)
    ensures ReadPages(listing) == PageParts(pages)
  {
    if listing == [] || listing[0].Err? {
      pages := [];
    } else if listing[0].value.truncated == Some(true) {
      var rest := PagesRead(listing[1..]);
      pages := [listing[0].value] + rest;
      assert pages[1..] == rest;
      forall i | 0 <= i < |pages| ensures listing[i] == Ok(pages[i]) {
        if i > 0 { assert listing[1..][i - 1] == Ok(rest[i - 1]); }
      }
      if |pages| < |listing| { assert listing[1..][|rest|] == listing[|pages|]; }
    } else {
      pages := [listing[0].value];
      assert pages[1..] == [];
    }
  }

  lemma {:induction false} PagesAreUnique(listing: seq<Result<Page, Error>>, a: seq<Page>, b: seq<Page>)
    requires EndsAfter(listing, a) && EndsAfter(listing, b)
    ensures a == b
  {
    forall i | 0 <= i < |a| && i < |b| ensures a[i] == b[i] {
      assert listing[i] == Ok(a[i]) && listing[i] == Ok(b[i]);
    }
    if |a| < |b| {
      ShorterEndsSooner(listing, a, b);
    } else if |b| < |a| {
      ShorterEndsSooner(listing, b, a);
    }
  }

  lemma {:induction false} ShorterEndsSooner(listing: seq<Result<Page, Error>>, a: seq<Page>, b: seq<Page>)
    requires EndsAfter(listing, a) && EndsAfter(listing, b)
    ensures |b| <= |a|
  {}

  /**
   An upload is resumed exactly when the arguments are good and every part read has a number. The
   writer starts with the parts read completed, in their order and under their tags, one number above
   the highest of them (or at 1), and with the caller's own limits.
   */
  lemma {:induction false} ImportOutcome(partSize: nat, maxUploadingParts: Option<nat>,
                                         listing: seq<Result<Page, Error>>, pages: seq<Page>, server: Parts)
    requires EndsAfter(listing, pages)
    ensures var r := Import(partSize, maxUploadingParts, listing, server);
            var parts := PageParts(pages);
            && (r.Ok? <==> GoodLimits(partSize, maxUploadingParts) && AllNumbered(parts))
            && (r.Ok? ==>
                  var Writing(_, _, partNumber, completed) := r.value.state;
                  && Fresh(r.value, partSize, maxUploadingParts, server)
                  && |completed| == |parts|
                  && (forall i :: 0 <= i < |parts| ==>
                        && completed[i] == CompletedPart(parts[i].number.value, parts[i].tag)
                        && completed[i].number < partNumber)
                  && (parts == [] ==> partNumber == 1)
                  && (parts != [] ==> exists i :: 0 <= i < |parts| && completed[i].number == partNumber - 1))
            && (r.Err? ==>
                  r.error == if !GoodLimits(partSize, maxUploadingParts) then BadLimits(partSize, maxUploadingParts)
                             else NoPartNumber)
  {
    var read := PagesRead(listing);
    PagesAreUnique(listing, pages, read);
    ToCompletedOutcome(PageParts(pages));
    if AllNumbered(PageParts(pages)) {
      LatestIsAbove(PageParts(pages));
    }
  }

  // ---- the caller's limits bound every run ----

  /** Never more uploads in flight than the caller asked for, nor more bytes than that many parts have. */
  predicate WithinLimits(w: Writer, partSize: nat, maxUploadingParts: Option<nat>) {
    && |InFlight(w)| <= Asked(maxUploadingParts)
    && InFlightBytes(InFlight(w)) + (if w.state.Writing? then |w.state.buffer| else 0)
         <= Asked(maxUploadingParts) * partSize
  }

  lemma {:induction false} NewWriterMemory(env: Env, partSize: nat, maxUploadingParts: Option<nat>, server: Parts,
                                           created: Result<Option<string>, Error>, calls: seq<Call>)
    requires New(partSize, maxUploadingParts, server, created).Ok?
    ensures WithinLimits(Run(env, New(partSize, maxUploadingParts, server, created).value, calls).0,
                         partSize, maxUploadingParts)
  {
    var o := Origin(1, [], server);
    NothingImported(o);
    NewOutcome(partSize, maxUploadingParts, server, created);
    assert New(partSize, maxUploadingParts, server, created).value == OpenAt(partSize, Asked(maxUploadingParts), o);
    ConstantMemoryInEveryRun(env, o, partSize, Asked(maxUploadingParts), calls);
  }

  lemma {:induction false} ResumedWriterMemory(env: Env, partSize: nat, maxUploadingParts: Option<nat>,
                                               listing: seq<Result<Page, Error>>, server: Parts, calls: seq<Call>)
    requires Import(partSize, maxUploadingParts, listing, server).Ok? && ListsHeld(listing, server)
    ensures WithinLimits(Run(env, Import(partSize, maxUploadingParts, listing, server).value, calls).0,
                         partSize, maxUploadingParts)
  {
    var pages := PagesRead(listing);
    ResumedNumbering(partSize, maxUploadingParts, listing, server);
    ImportOutcome(partSize, maxUploadingParts, listing, pages, server);
    ConstantMemoryInEveryRun(env, ImportedOrigin(listing, server), partSize, Asked(maxUploadingParts), calls);
  }

  // ---- a whole upload that succeeds ----

  predicate NoCloses(calls: seq<Call>) {
    forall i :: 0 <= i < |calls| ==> !calls[i].CloseCall?
  }

  lemma {:induction false} PromptRun(env: Env, w: Writer, calls: seq<Call>)
    requires Sound(w) && w.state.Writing? && NoCloses(calls) && forall k :: env(k).Succeeded?
    ensures var (w', outcomes) := Run(env, w, calls);
            w'.state.Writing? && !FlushFailed(outcomes)
    decreases |calls|
  {
    if calls != [] {
      var n := |calls| - 1;
      PromptRun(env, w, calls[..n]);
      var (w1, outcomes) := Run(env, w, calls[..n]);
      FlushFailedSnoc(outcomes, Step(env, w1, calls[n]).1);
      FlushOutcome(env, w1);
      if calls[n].WriteCall? {
        WriteOutcome(env, w1, calls[n].buf);
      }
    }
  }

  /**
   A service that answers every poll with success gets every upload: however a new writer is written to
   and flushed, closing it then succeeds, and the object is the bytes that the writes reported.
   */
  lemma {:induction false} NewWriterDelivers(env: Env, partSize: nat, maxUploadingParts: Option<nat>, id: string,
                                             calls: seq<Call>)
    requires GoodLimits(partSize, maxUploadingParts) && NoCloses(calls) && forall k :: env(k).Succeeded?
    ensures var r := New(partSize, maxUploadingParts, map[], Ok(Some(id)));
            && r.Ok?
            && var bytes := Accepted(calls, Run(env, r.value, calls).1);
               exists n :: 0 < n && Delivers(env, r.value, calls, n, bytes)
  {
    NewOutcome(partSize, maxUploadingParts, map[], Ok(Some(id)));
    NewStarts(partSize, maxUploadingParts, Ok(Some(id)));
    var w0 := New(partSize, maxUploadingParts, map[], Ok(Some(id))).value;
    PromptRun(env, w0, calls);
    PromptServiceDelivers(env, Origin(1, [], map[]), partSize, w0.maxUploads, calls);
    EmptyFront(Accepted(calls, Run(env, w0, calls).1));
  }
}
