/** Conservation, memory, numbering and flow control of a writer that is still accepting bytes. */
module MultipartBounds {
  import opened Prelude
  import opened Arithmetic
  import opened S3Service
  import opened AsyncWriting
  import opened Multipart
  import opened MultipartAccounting
  import opened MultipartInvariant
  import opened MultipartObject
  import opened MultipartTheorems

  // ---- conservation ----

  lemma {:induction false} SameSizeSubset<T>(some: multiset<T>, all: multiset<T>)
    requires some <= all && |some| == |all|
    ensures some == all
  {
    assert all == some + (all - some);
    assert |all - some| == 0;
  }

  /**
   While nothing is lost, the parts in flight and the completed new parts are together exactly the
   issued parts, none of them twice, and their bodies in number order followed by the buffer are the
   accepted bytes.
   */
  lemma {:induction false} Conservation(o: Origin, w: Writer)
    requires Inv(o, w) && w.state.Writing? && Lost(o, w) == 0
    ensures var new' := w.state.completed[|o.imported|..];
            && multiset(UploadParts(w.state.uploads)) + multiset(Landed(w.world.server, new')) == multiset(w.issued)
            && NumberedFrom(w.issued, o.first) && w.state.partNumber == o.first + |w.issued|
            && w.accepted == Concat(PartBodies(w.issued)) + w.state.buffer
  {
    var new' := w.state.completed[|o.imported|..];
    SameSizeSubset(multiset(UploadParts(w.state.uploads)) + multiset(Landed(w.world.server, new')), multiset(w.issued));
  }

  /** In numbers: every number below the next one is in flight or completed, and never both. */
  lemma {:induction false} EveryNumberInOnePlace(o: Origin, w: Writer, n: int)
    requires Inv(o, w) && w.state.Writing? && Lost(o, w) == 0
    ensures var flying := n in PartNumbers(UploadParts(w.state.uploads));
            var done := n in Numbers(w.state.completed[|o.imported|..]);
            && !(flying && done)
            && (o.first <= n < w.state.partNumber <==> flying || done)
  {
    var uploads, new' := UploadParts(w.state.uploads), Landed(w.world.server, w.state.completed[|o.imported|..]);
    var all := uploads + new';
    Conservation(o, w);
    TrackedNumbers(w.world.server, o.first, o.imported, w.issued, w.state.uploads, w.state.completed);
    InWhichPlace(uploads, new', n);
    NumbersOfLanded(w.world.server, w.state.completed[|o.imported|..]);
    if o.first <= n < w.state.partNumber {
      var p := w.issued[n - o.first];
      assert p in multiset(all);
      assert p in all;
      var k :| 0 <= k < |all| && all[k] == p;
      assert PartNumbers(all)[k] == n;
    }
    if n in PartNumbers(all) {
      var k :| 0 <= k < |all| && PartNumbers(all)[k] == n;
      assert all[k].number == n;
    }
  }

  lemma {:induction false} InWhichPlace(a: seq<Part>, b: seq<Part>, n: int)
    requires DistinctNumbers(a + b)
    ensures n in PartNumbers(a + b) <==> n in PartNumbers(a) || n in PartNumbers(b)
    ensures !(n in PartNumbers(a) && n in PartNumbers(b))
  {
    assert PartNumbers(a + b) == PartNumbers(a) + PartNumbers(b);
    if n in PartNumbers(a) {
      var i :| 0 <= i < |a| && PartNumbers(a)[i] == n;
      forall j | 0 <= j < |b| ensures PartNumbers(b)[j] != n {
        assert (a + b)[i].number != (a + b)[|a| + j].number;
      }
    }
  }

  lemma {:induction false} NumbersOfLanded(server: Parts, parts: seq<CompletedPart>)
    ensures PartNumbers(Landed(server, parts)) == Numbers(parts)
  {}

  /** Conservation in every reachable state that still accepts bytes, while no flush has failed. */
  lemma {:induction false} ConservationInEveryRun(env: Env, o: Origin, partSize: nat, maxUploads: nat, calls: seq<Call>)
    requires 0 < partSize && 0 < maxUploads && ValidOrigin(o) && Sound(OpenAt(partSize, maxUploads, o))
    ensures var (w, outcomes) := Run(env, OpenAt(partSize, maxUploads, o), calls);
            w.state.Writing? && !FlushFailed(outcomes) ==>
              && |o.imported| <= |w.state.completed|
              && multiset(UploadParts(w.state.uploads))
                 + multiset(Landed(w.world.server, w.state.completed[|o.imported|..])) == multiset(w.issued)
              && NumberedFrom(w.issued, o.first) && w.state.partNumber == o.first + |w.issued|
              && Accepted(calls, outcomes) == Concat(PartBodies(w.issued)) + w.state.buffer
  {
    var w0 := OpenAt(partSize, maxUploads, o);
    OpenInv(partSize, maxUploads, o);
    RunKeepsInv(env, o, w0, calls);
    AcceptedIsWhatCallersWereTold(env, w0, calls);
    var (w, outcomes) := Run(env, w0, calls);
    if w.state.Writing? && !FlushFailed(outcomes) {
      Conservation(o, w);
    }
  }

  // ---- constant memory ----

  function InFlightBytes(uploads: seq<Upload>): (bytes: nat) {
    if uploads == [] then 0 else |uploads[0].part.body| + InFlightBytes(uploads[1..])
  }

  lemma {:induction false} InFlightAtMost(uploads: seq<Upload>, partSize: nat)
    requires forall i :: 0 <= i < |uploads| ==> |uploads[i].part.body| <= partSize
    ensures InFlightBytes(uploads) <= |uploads| * partSize
  {
    if uploads != [] {
      InFlightAtMost(uploads[1..], partSize);
      assert |uploads| * partSize == partSize + (|uploads| - 1) * partSize;
    }
  }

  lemma {:induction false} UploadBodies(o: Origin, w: Writer, uploads: seq<Upload>, completed: seq<CompletedPart>)
    requires Account(o, w, uploads, completed)
    requires forall i :: 0 <= i < |w.issued| ==> |w.issued[i].body| <= w.partSize
    ensures forall i :: 0 <= i < |uploads| ==> |uploads[i].part.body| <= w.partSize
  {
    TrackedNumbers(w.world.server, o.first, o.imported, w.issued, uploads, completed);
    var all := UploadParts(uploads) + Landed(w.world.server, completed[|o.imported|..]);
    forall i | 0 <= i < |uploads| ensures |uploads[i].part.body| <= w.partSize {
      assert all[i] == uploads[i].part;
      assert w.issued[all[i].number - o.first] == all[i];
    }
  }

  /** In flight and buffered, the writer never holds more than `maxUploads * partSize` bytes. */
  lemma {:induction false} ConstantMemory(o: Origin, w: Writer)
    requires Inv(o, w)
    ensures w.state.Writing? ==>
              && |w.state.uploads| <= w.maxUploads
              && |w.state.buffer| < w.partSize
              && InFlightBytes(w.state.uploads) + |w.state.buffer| <= w.maxUploads * w.partSize
    ensures w.state.CompletingParts? ==>
              && |w.state.uploads| <= w.maxUploads
              && InFlightBytes(w.state.uploads) <= w.maxUploads * w.partSize
  {
    if w.state.Writing? {
      UploadBodies(o, w, w.state.uploads, w.state.completed);
      InFlightAtMost(w.state.uploads, w.partSize);
      UploadsWithinLimit(|w.state.uploads|, w.maxUploads, w.partSize, |w.state.buffer|);
    } else if w.state.CompletingParts? {
      UploadBodies(o, w, w.state.uploads, w.state.completed);
      InFlightAtMost(w.state.uploads, w.partSize);
      MulMonotone(|w.state.uploads|, w.maxUploads, w.partSize);
    }
  }

  /** The same in every reachable state. */
  lemma {:induction false} ConstantMemoryInEveryRun(env: Env, o: Origin, partSize: nat, maxUploads: nat,
                                                    calls: seq<Call>)
    requires 0 < partSize && 0 < maxUploads && ValidOrigin(o) && Sound(OpenAt(partSize, maxUploads, o))
    ensures var w := Run(env, OpenAt(partSize, maxUploads, o), calls).0;
            && (w.state.Writing? ==>
                  && |w.state.uploads| <= maxUploads
                  && |w.state.uploads| * partSize + |w.state.buffer| <= maxUploads * partSize
                  && |w.state.buffer| < partSize
                  && InFlightBytes(w.state.uploads) + |w.state.buffer| <= maxUploads * partSize)
            && (w.state.CompletingParts? ==>
                  |w.state.uploads| <= maxUploads && InFlightBytes(w.state.uploads) <= maxUploads * partSize)
  {
    OpenInv(partSize, maxUploads, o);
    RunKeepsInv(env, o, OpenAt(partSize, maxUploads, o), calls);
    ConstantMemory(o, Run(env, OpenAt(partSize, maxUploads, o), calls).0);
  }

  /**
   The peak, inside a call: when the second check of a write polls, the uploads left by the first
   check and those just started are at most `maxUploads`, and their bytes with what stays buffered
   are within the limit; a close starts its last upload only when there is room for it.
   */
  lemma {:induction false} PeakInsideCalls(env: Env, o: Origin, w: Writer, buf: seq<byte>)
    requires Inv(o, w) && w.state.Writing?
    ensures var Writing(uploads, buffer, partNumber, completed) := w.state;
            var c := CheckUploads(env, w.world, uploads, completed);
            var count := Takes(w, |c.uploads|, |buffer|, |buf|);
            && 0 <= count <= |buf|
            && var (parts, rest) := Cut(buffer + buf[..count], w.partSize, partNumber);
               && |c.uploads + Start(parts)| <= w.maxUploads
               && InFlightBytes(c.uploads + Start(parts)) + |rest| <= w.maxUploads * w.partSize
               && (c.outcome.Ok? && count > 0 ==> Write(env, w, buf).0.issued == w.issued + parts)
    ensures Close(env, w).0.issued != w.issued ==>
              |CheckUploads(env, w.world, w.state.uploads, w.state.completed).uploads| + 1 <= w.maxUploads
  {
    var Writing(uploads, buffer, partNumber, completed) := w.state;
    var c := CheckUploads(env, w.world, uploads, completed);
    var count := Takes(w, |c.uploads|, |buffer|, |buf|);
    FirstCheck(env, o, w);
    WriteByCases(env, w, buf);
    CloseByCases(env, w);
    PeakOfParts(o, w.(world := c.world), c, buffer, partNumber, buf[..count]);
  }

  lemma {:induction false} PeakOfParts(o: Origin, w: Writer, c: Checked, buffer: seq<byte>, partNumber: int,
                                       taken: seq<byte>)
    requires MidCall(o, w, c, buffer, partNumber) && w.world == c.world
    requires |c.uploads| * w.partSize + |buffer| + |taken| <= w.maxUploads * w.partSize
    ensures var (parts, rest) := Cut(buffer + taken, w.partSize, partNumber);
            && |c.uploads + Start(parts)| <= w.maxUploads
            && InFlightBytes(c.uploads + Start(parts)) + |rest| <= w.maxUploads * w.partSize
  {
    var (parts, rest) := Cut(buffer + taken, w.partSize, partNumber);
    var all := c.uploads + Start(parts);
    CutSizes(buffer + taken, w.partSize, partNumber);
    StartKeepsAccount(c.world.server, o.first, o.imported, w.issued, c.uploads, c.completed, parts);
    UploadBodies(o, w.(issued := w.issued + parts), all, c.completed);
    InFlightAtMost(all, w.partSize);
    Distribute(|c.uploads|, |parts|, w.partSize);
    UploadsWithinLimit(|all|, w.maxUploads, w.partSize, |rest|);
  }

  /**
   In the middle of a write or a close, after the first poll of the uploads, neither capacity
   subtraction goes below zero, and the capacity never exceeds what the limits allow.
   */
  lemma {:induction false} CapacityNeverUnderflows(env: Env, w: Writer)
    requires Sound(w) && w.state.Writing?
    ensures var still := CheckUploads(env, w.world, w.state.uploads, w.state.completed).uploads;
            && 0 <= w.maxUploads - |still|
            && 0 <= (w.maxUploads - |still|) * w.partSize <= w.maxUploads * w.partSize
            && 0 <= (w.maxUploads - |still|) * w.partSize - |w.state.buffer| <= w.maxUploads * w.partSize
  {
    var still := CheckUploads(env, w.world, w.state.uploads, w.state.completed).uploads;
    CapacityIsRoom(w, |w.state.uploads|, |still|, |w.state.buffer|);
    MulMonotone(|still|, |w.state.uploads|, w.partSize);
    UploadsWithinLimit(|still|, w.maxUploads, w.partSize, |w.state.buffer|);
    MulMonotone(w.maxUploads - |still|, w.maxUploads, w.partSize);
  }

  // ---- numbering ----

  lemma {:induction false} FullPartsLength(parts: seq<Part>, partSize: nat)
    requires FullParts(parts, partSize)
    ensures |Concat(PartBodies(parts))| == |parts| * partSize
  {
    if parts != [] {
      FullPartsLength(parts[1..], partSize);
      BodiesCons(parts[0], parts[1..]);
      assert parts == [parts[0]] + parts[1..];
      assert |parts| * partSize == partSize + (|parts| - 1) * partSize;
    }
  }

  /** The next part number and the buffer length are determined by the number of accepted bytes. */
  lemma {:induction false} NextPartNumber(o: Origin, w: Writer)
    requires Inv(o, w) && w.state.Writing?
    ensures w.state.partNumber == o.first + |w.accepted| / w.partSize
    ensures |w.state.buffer| == |w.accepted| % w.partSize
  {
    FullPartsLength(w.issued, w.partSize);
    DivUnique(|w.accepted|, w.partSize, |w.issued|, |w.state.buffer|);
  }

  const I32_MAX: int := 0x7fff_ffff

  /** The source's 32-bit part number overflows only once this many bytes have been accepted. */
  lemma {:induction false} PartNumberFitsI32(o: Origin, w: Writer)
    requires Inv(o, w) && w.state.Writing? && 1 <= o.first <= I32_MAX
    ensures w.state.partNumber <= I32_MAX <==> |w.accepted| < (I32_MAX - o.first + 1) * w.partSize
  {
    NextPartNumber(o, w);
    QuotientBelow(|w.accepted|, w.partSize, I32_MAX - o.first + 1);
  }

  // ---- flow control ----

  ghost predicate NoFailureIn(env: Env, from: nat, to: nat) {
    forall k :: from <= k < to ==> !env(k).Failed?
  }

  lemma {:induction false} ErrorsAreFailures(env: Env, world: World, uploads: seq<Upload>)
    ensures AllOk(PollAll(env, world, uploads).complete) <==> NoFailureIn(env, world.polls, world.polls + |uploads|)
    decreases |uploads|
  {
    if uploads != [] {
      var rest, f := uploads[..|uploads|-1], uploads[|uploads|-1];
      var answer := env(world.polls);
      var world1 := World(world.polls + 1, Deliver(world.server, f.part, answer));
      ErrorsAreFailures(env, world1, rest);
      var r, r1 := PollAll(env, world, uploads), PollAll(env, world1, rest);
      assert NoFailureIn(env, world.polls, world.polls + |uploads|)
        <==> !answer.Failed? && NoFailureIn(env, world1.polls, world1.polls + |rest|);
      if answer.Succeeded? {
        assert AllOk([Ok((answer.tag, f.part.number))] + r1.complete) <==> AllOk(r1.complete) by {
          assert forall i :: 0 <= i < |r1.complete| ==> r.complete[i+1] == r1.complete[i];
        }
      } else if answer.Failed? {
        assert r.complete[0].Err?;
      }
    }
  }

  lemma {:induction false} CheckFailsIffSomeUploadFailed(env: Env, world: World, uploads: seq<Upload>,
                                                         completed: seq<CompletedPart>)
    ensures var c := CheckUploads(env, world, uploads, completed);
            && c.world.polls == world.polls + |uploads|
            && (c.outcome.Ok? <==> NoFailureIn(env, world.polls, c.world.polls))
  {
    TryCollectIsAllOrNothing(PollAll(env, world, uploads).complete);
    ErrorsAreFailures(env, world, uploads);
  }

  /**
   A write of some bytes, during which no polled upload fails, takes as many of them as there is
   room for and at least one; or it is pending, exactly when the first poll of the uploads leaves
   all `maxUploads` in flight, and then the buffer is empty.
   */
  lemma {:induction false} FlowControl(env: Env, w: Writer, buf: seq<byte>)
    requires Sound(w) && w.state.Writing? && buf != []
    requires NoFailureIn(env, w.world.polls, Write(env, w, buf).0.world.polls)
    ensures var (w', r) := Write(env, w, buf);
            var still := CheckUploads(env, w.world, w.state.uploads, w.state.completed).uploads;
            && (r.Pending? <==> |still| == w.maxUploads)
            && (r.Pending? ==>
                  w.state.buffer == [] && w'.state.Writing? && w'.state.uploads == still && w'.state.buffer == [])
            && (r.Ready? ==>
                  && r.value.Ok?
                  && 1 <= r.value.value <= |buf|
                  && (r.value.value < |buf| ==>
                        |still| * w.partSize + |w.state.buffer| + r.value.value == w.maxUploads * w.partSize))
  {
    var Writing(uploads, buffer, partNumber, completed) := w.state;
    var c := CheckUploads(env, w.world, uploads, completed);
    CheckFailsIffSomeUploadFailed(env, w.world, uploads, completed);
    CapacityIsRoom(w, |uploads|, |c.uploads|, |buffer|);
    MulMonotone(|c.uploads|, |uploads|, w.partSize);
    UploadsWithinLimit(|c.uploads|, w.maxUploads, w.partSize, |buffer|);
    var capacity := Capacity(w, |c.uploads|, |buffer|);
    if |c.uploads| < w.maxUploads {
      MulMonotone(1, w.maxUploads - |c.uploads|, w.partSize);
      var count := if capacity < |buf| then capacity else |buf|;
      var (parts, rest) := Cut(buffer + buf[..count], w.partSize, partNumber);
      CheckFailsIffSomeUploadFailed(env, c.world, c.uploads + Start(parts), c.completed);
    }
  }

  /** A write of no bytes is never ready with `Ok`: it is pending however much room there is. */
  lemma {:induction false} EmptyWriteIsNeverOk(env: Env, w: Writer)
    requires Sound(w)
    ensures var (w', r) := Write(env, w, []);
            r.Pending? <==> w.state.Writing? && NoFailureIn(env, w.world.polls, w'.world.polls)
    ensures !(Write(env, w, []).1.Ready? && Write(env, w, []).1.value.Ok?)
  {
    if w.state.Writing? {
      var Writing(uploads, buffer, partNumber, completed) := w.state;
      var c := CheckUploads(env, w.world, uploads, completed);
      CheckFailsIffSomeUploadFailed(env, w.world, uploads, completed);
      CapacityIsRoom(w, |uploads|, |c.uploads|, |buffer|);
    }
  }
}
