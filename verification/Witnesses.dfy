/** Runs that show why the promises are stated as they are. */
module Witnesses {
  import opened Prelude
  import opened Arithmetic
  import opened S3Service
  import opened AsyncWriting
  import opened Multipart
  import opened MultipartAccounting
  import opened MultipartInvariant
  import opened MultipartObject
  import opened MultipartTheorems
  import opened MultipartLiveness
  import opened Resume

  // ---- polling reverses; only the sort restores the order ----

  lemma {:induction false} PendingAreReversed(env: Env, world: World, uploads: seq<Upload>)
    requires forall k :: world.polls <= k < world.polls + |uploads| ==> env(k).NotReady?
    ensures var r := PollAll(env, world, uploads);
            && |r.pending| == |uploads|
            && forall i :: 0 <= i < |uploads| ==> r.pending[i].part == uploads[|uploads| - 1 - i].part
    decreases |uploads|
  {
    if uploads != [] {
      var rest, last := uploads[..|uploads|-1], uploads[|uploads|-1];
      var world1 := World(world.polls + 1, world.server);
      PendingAreReversed(env, world1, rest);
      var r, r1 := PollAll(env, world, uploads), PollAll(env, world1, rest);
      assert r.pending == [last.(waker := Some(world.polls))] + r1.pending;
    }
  }

  lemma {:induction false} CompletedInReverse(env: Env, world: World, uploads: seq<Upload>)
    requires forall k :: world.polls <= k < world.polls + |uploads| ==> env(k).Succeeded?
    ensures var done := Successes(PollAll(env, world, uploads).complete);
            && |done| == |uploads|
            && forall i :: 0 <= i < |uploads| ==> done[i].number == uploads[|uploads| - 1 - i].part.number
    decreases |uploads|
  {
    if uploads != [] {
      var rest, last := uploads[..|uploads|-1], uploads[|uploads|-1];
      var answer := env(world.polls);
      var world1 := World(world.polls + 1, Deliver(world.server, last.part, answer));
      CompletedInReverse(env, world1, rest);
      assert uploads == rest + [last];
      PollAllStep(env, world, rest, last);
    }
  }

  /**
   When several uploads in part order finish in one poll, their completed parts come out in
   descending order: a list the service refuses unless it is sorted first.
   */
  lemma {:induction false} UnsortedIsRefused(env: Env, world: World, uploads: seq<Upload>)
    requires |uploads| >= 2 && NumberedFrom(UploadParts(uploads), 1)
    requires forall k :: world.polls <= k < world.polls + |uploads| ==> env(k).Succeeded?
    ensures var r := PollAll(env, world, uploads);
            && TryCollectCompleteParts(r.complete) == Ok(Successes(r.complete))
            && Assemble(r.world.server, Successes(r.complete)) == None
            && Assemble(r.world.server, SortByNumber(Successes(r.complete))).Some?
  {
    var r := PollAll(env, world, uploads);
    var done := Successes(r.complete);
    CompletedInReverse(env, world, uploads);
    AllSucceed(env, world, uploads);
    TryCollectIsAllOrNothing(r.complete);
    var n := |uploads|;
    assert UploadParts(uploads)[n - 1].number == n && UploadParts(uploads)[n - 2].number == n - 1;
    assert Numbers(done)[0] > Numbers(done)[1];
    PollAllSorts(env, world, uploads);
    forall x ensures multiset(Numbers(done))[x] <= 1 {
      forall i, j | 0 <= i < j < n ensures Numbers(done)[i] != Numbers(done)[j] {
        assert done[i].number == UploadParts(uploads)[n - 1 - i].number;
        assert done[j].number == UploadParts(uploads)[n - 1 - j].number;
      }
      DistinctOnce(Numbers(done), x);
    }
    SortDistinct(done);
    SortedHeld(r.world.server, done);
  }

  lemma {:induction false} AllSucceed(env: Env, world: World, uploads: seq<Upload>)
    requires forall k :: world.polls <= k < world.polls + |uploads| ==> env(k).Succeeded?
    ensures AllOk(PollAll(env, world, uploads).complete)
    decreases |uploads|
  {
    if uploads != [] {
      var rest, last := uploads[..|uploads|-1], uploads[|uploads|-1];
      var answer := env(world.polls);
      AllSucceed(env, World(world.polls + 1, Deliver(world.server, last.part, answer)), rest);
    }
  }

  // ---- a failed flush loses bytes, and close still succeeds ----

  /** The upload of the first part is pending once, then fails; everything after succeeds. */
  function FailingOnce(k: nat): (answer: Answer) {
    if k == 0 then NotReady else if k == 1 then Failed(None) else Succeeded(0)
  }

  lemma {:induction false} WholePart(bytes: seq<byte>, partSize: nat)
    requires 0 < partSize == |bytes|
    ensures Cut(bytes, partSize, 1) == ([Part(1, bytes)], [])
  {
    assert bytes[..partSize] == bytes && bytes[partSize..] == [];
    assert Cut(bytes[partSize..], partSize, 2) == ([], []);
    assert [Part(1, bytes)] + [] == [Part(1, bytes)];
  }

  lemma {:induction false} OnePending(env: Env, world: World, u: Upload, completed: seq<CompletedPart>)
    requires env(world.polls) == NotReady
    ensures CheckUploads(env, world, [u], completed)
         == Checked([u.(waker := Some(world.polls))], completed, World(world.polls + 1, world.server), Ok(()))
  {
    var u' := u.(waker := Some(world.polls));
    assert [u][..0] == [];
    assert [u'] + [] == [u'];
    assert PollAll(env, world, [u]) == Polled([u'], [], World(world.polls + 1, world.server));
    assert completed + [] == completed;
  }

  lemma {:induction false} OneFailing(env: Env, world: World, u: Upload, completed: seq<CompletedPart>)
    requires env(world.polls) == Failed(None)
    ensures CheckUploads(env, world, [u], completed)
         == Checked([], completed, World(world.polls + 1, world.server), Err(RequestFailed))
  {
    assert [u][..0] == [];
    assert PollAll(env, world, [u]).pending == [] && PollAll(env, world, [u]).complete[0] == Err(RequestFailed);
  }

  lemma {:induction false} NothingToCheck(env: Env, world: World, completed: seq<CompletedPart>)
    ensures CheckUploads(env, world, [], completed) == Checked([], completed, world, Ok(()))
  {
    assert completed + [] == completed;
  }

  lemma {:induction false} RunOne(env: Env, w: Writer, call: Call)
    requires Sound(w)
    ensures Run(env, w, [call]) == (Step(env, w, call).0, [Step(env, w, call).1])
  {
    RunSnoc(env, w, [], call);
    assert [] + [call] == [call];
    assert [] + [Step(env, w, call).1] == [Step(env, w, call).1];
  }

  lemma {:induction false} RunCons(env: Env, w: Writer, call: Call, calls: seq<Call>)
    requires Sound(w)
    ensures var (w1, outcome) := Step(env, w, call);
            var (w2, outcomes) := Run(env, w1, calls);
            Run(env, w, [call] + calls) == (w2, [outcome] + outcomes)
  {
    RunOne(env, w, call);
    RunInTwo(env, w, [call], calls);
  }

  /**
   Write one whole part, flush while its upload fails, and close: the flush reports the error, the
   close succeeds all the same, and the object is empty.
   */
  lemma {:induction false} FlushErrorLosesBytes(partSize: nat, maxUploads: nat, bytes: seq<byte>)
    requires 0 < partSize == |bytes| && 0 < maxUploads
    ensures Sound(OpenAt(partSize, maxUploads, Origin(1, [], map[])))
    ensures var calls := [WriteCall(bytes)] + ([FlushCall] + ([CloseCall] + ([CloseCall] + [CloseCall])));
            var (w, outcomes) := Run(FailingOnce, OpenAt(partSize, maxUploads, Origin(1, [], map[])), calls);
            && FlushError(outcomes[1])
            && ClosesOk(outcomes)
            && w.accepted == bytes
            && w.uploaded == Some([])
  {
    var o := Origin(1, [], map[]);
    NothingImported(o);
    OpenInv(partSize, maxUploads, o);
    var w0 := OpenAt(partSize, maxUploads, o);
    var w1 := AfterWrite(w0, bytes);
    var w2 := AfterFlush(w1, bytes);
    AfterThreeCloses(FailingOnce, w2);
    var closes := [CloseCall] + ([CloseCall] + [CloseCall]);
    RunCons(FailingOnce, w1, FlushCall, closes);
    RunCons(FailingOnce, w0, WriteCall(bytes), [FlushCall] + closes);
  }

  lemma {:induction false} AfterWrite(w0: Writer, bytes: seq<byte>) returns (w1: Writer)
    requires 0 < w0.partSize == |bytes| && 0 < w0.maxUploads
    requires w0 == OpenAt(w0.partSize, w0.maxUploads, Origin(1, [], map[])) && Sound(w0)
    ensures Step(FailingOnce, w0, WriteCall(bytes)) == (w1, Wrote(Ready(Ok(w0.partSize))))
    ensures w1 == w0.(state := Writing([Upload(Part(1, bytes), Some(0))], [], 2, []), world := World(1, map[]),
                      issued := [Part(1, bytes)], accepted := bytes)
  {
    var c := CheckUploads(FailingOnce, w0.world, [], []);
    NothingToCheck(FailingOnce, w0.world, []);
    MulMonotone(1, w0.maxUploads, w0.partSize);
    assert Capacity(w0, 0, 0) >= w0.partSize;
    assert bytes[..|bytes|] == bytes;
    w1 := AfterTaking(w0.(state := NoState), c, bytes);
  }

  lemma {:induction false} AfterTaking(w: Writer, c: Checked, bytes: seq<byte>) returns (w1: Writer)
    requires 0 < w.partSize == |bytes| && 0 < w.maxUploads && |bytes| <= w.maxUploads * w.partSize
    requires c.uploads == [] && c.completed == [] && c.world == World(0, map[])
    requires w.issued == [] && w.accepted == []
    ensures TakeBytes(FailingOnce, w, c, [], 1, bytes) == (w1, Ready(Ok(|bytes|)))
    ensures w1 == w.(state := Writing([Upload(Part(1, bytes), Some(0))], [], 2, []), world := World(1, map[]),
                     issued := [Part(1, bytes)], accepted := bytes)
  {
    EmptyFront(bytes);
    WholePart(bytes, w.partSize);
    var u := Upload(Part(1, bytes), None);
    assert c.uploads + Start([Part(1, bytes)]) == [u];
    OnePending(FailingOnce, c.world, u, []);
    assert w.issued + [Part(1, bytes)] == [Part(1, bytes)];
    w1 := TakeBytes(FailingOnce, w, c, [], 1, bytes).0;
  }

  lemma {:induction false} AfterFlush(w1: Writer, bytes: seq<byte>) returns (w2: Writer)
    requires Sound(w1) && w1.world == World(1, map[])
    requires w1.state == Writing([Upload(Part(1, bytes), Some(0))], [], 2, [])
    ensures Step(FailingOnce, w1, FlushCall) == (w2, Flushed(Ready(Err(RequestFailed))))
    ensures w2 == w1.(state := Writing([], [], 2, []), world := World(2, map[]))
  {
    OneFailing(FailingOnce, w1.world, Upload(Part(1, bytes), Some(0)), []);
    w2 := Flush(FailingOnce, w1).0;
  }

  lemma {:induction false} CloseWithNothingLeft(env: Env, w: Writer) returns (w': Writer)
    requires Sound(w) && w.state.Writing? && w.state == Writing([], [], w.state.partNumber, [])
    ensures Step(env, w, CloseCall) == (w', ClosedWith(Pending))
    ensures w'.state == CompletingParts([], []) && w'.world == w.world && w'.accepted == w.accepted
  {
    NothingToCheck(env, w.world, []);
    CloseByCases(env, w);
    assert [] + Start([]) == [];
    w' := Close(env, w).0;
  }

  lemma {:induction false} CloseCompletesNothing(env: Env, w: Writer)
    requires Sound(w) && env(w.world.polls).Succeeded? && w.state == CompletingParts([], [])
    ensures var (w', outcomes) := Run(env, w, [CloseCall] + [CloseCall]);
            && w'.accepted == w.accepted && w'.uploaded == Some([]) && ClosesOk(outcomes)
            && w'.world.server == w.world.server
  {
    var w4 := Close(env, w).0;
    assert w4.state == Completing([], None) && w4.world == w.world && w4.accepted == w.accepted;
    NothingAssembles(w.world.server);
    RunOne(env, w4, CloseCall);
    RunCons(env, w, CloseCall, [CloseCall]);
  }

  lemma {:induction false} NothingAssembles(server: Parts)
    ensures Assemble(server, []) == Some([])
  {
    assert Numbers([]) == [] && Bodies(server, []) == [];
  }

  /** Closing a writer that holds nothing yields an empty object, whatever the service holds. */
  lemma {:induction false} AfterThreeCloses(env: Env, w: Writer)
    requires Sound(w) && env(w.world.polls).Succeeded?
    requires w.state.Writing? && w.state == Writing([], [], w.state.partNumber, [])
    ensures var (w', outcomes) := Run(env, w, [CloseCall] + ([CloseCall] + [CloseCall]));
            && w'.accepted == w.accepted && w'.uploaded == Some([]) && ClosesOk(outcomes)
            && w'.world.server == w.world.server
  {
    var w3 := CloseWithNothingLeft(env, w);
    CloseCompletesNothing(env, w3);
    RunCons(env, w, CloseCall, [CloseCall] + [CloseCall]);
  }

  /**
   The loss is not undone, nor shown again, by a second flush: it succeeds, while the service holds
   nothing, so that every listing names all that is held.
   */
  lemma {:induction false} SecondFlushHidesLoss(partSize: nat, maxUploads: nat, bytes: seq<byte>)
    requires 0 < partSize == |bytes| && 0 < maxUploads
    ensures Sound(OpenAt(partSize, maxUploads, Origin(1, [], map[])))
    ensures var calls := [WriteCall(bytes)] + ([FlushCall] + [FlushCall]);
            var (w, outcomes) := Run(FailingOnce, OpenAt(partSize, maxUploads, Origin(1, [], map[])), calls);
            && FlushError(outcomes[1])
            && FlushesOk(outcomes)
            && Accepted(calls, outcomes) == bytes
            && w.world.server == map[]
  {
    var o := Origin(1, [], map[]);
    NothingImported(o);
    OpenInv(partSize, maxUploads, o);
    var w0 := OpenAt(partSize, maxUploads, o);
    var w1 := AfterWrite(w0, bytes);
    var w2 := AfterFlush(w1, bytes);
    NothingToCheck(FailingOnce, w2.world, []);
    RunOne(FailingOnce, w2, FlushCall);
    RunCons(FailingOnce, w1, FlushCall, [FlushCall]);
    RunCons(FailingOnce, w0, WriteCall(bytes), [FlushCall] + [FlushCall]);
    AcceptedIsWhatCallersWereTold(FailingOnce, w0, [WriteCall(bytes)] + ([FlushCall] + [FlushCall]));
    EmptyFront(Accepted([WriteCall(bytes)] + ([FlushCall] + [FlushCall]),
                        Run(FailingOnce, w0, [WriteCall(bytes)] + ([FlushCall] + [FlushCall])).1));
  }

  // ---- a failed listing page loses the parts it would have named ----

  /**
   The service holds part 1, and the only request for a page of the listing fails: the resumed writer
   starts at part 1 as if nothing were there, and its close succeeds with an empty object.
   */
  lemma {:induction false} ListingErrorLosesParts(env: Env, partSize: nat, maxUploadingParts: Option<nat>,
                                                  body: seq<byte>, tag: Tag)
    requires CheckedLimit(partSize, maxUploadingParts).Ok? && env(0).Succeeded?
    ensures var server := map[1 := Stored(body, tag)];
            var r := Import(partSize, maxUploadingParts, [Err(RequestFailed)], server);
            && r.Ok? && r.value.state == Writing([], [], 1, [])
            && var (w, outcomes) := Run(env, r.value, [CloseCall] + ([CloseCall] + [CloseCall]));
               && ClosesOk(outcomes)
               && w.world.server == server
               && w.uploaded == Some([])
  {
    var server := map[1 := Stored(body, tag)];
    assert ReadPages([Err(RequestFailed)]) == [];
    AfterThreeCloses(env, Import(partSize, maxUploadingParts, [Err(RequestFailed)], server).value);
  }

  // ---- writing after close has begun abandons the upload ----

  /** A write after close has begun fails, and no later call completes the upload or yields an object. */
  lemma {:induction false} WriteAfterCloseAbandons(env: Env, o: Origin, w: Writer, buf: seq<byte>, calls: seq<Call>)
    requires Inv(o, w) && (w.state.CompletingParts? || w.state.Completing?)
    ensures var (w1, r) := Write(env, w, buf);
            && r == Ready(Err(WriteAfterClose))
            && var (w2, outcomes) := Run(env, w1, calls);
               && w2.uploaded == None
               && w2.requests == w.requests
               && forall i :: 0 <= i < |outcomes| ==> outcomes[i].IsError()
  {
    DeadStaysDead(env, Write(env, w, buf).0, calls);
  }
}
