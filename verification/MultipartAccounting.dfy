/**
 Where the issued parts are: each is in flight, or landed and completed, or was dropped by a failed
 batch. Polling moves parts between these places and never duplicates or alters one.
 */
module MultipartAccounting {
  import opened Prelude
  import opened S3Service
  import opened AsyncWriting
  import opened Multipart

  function UploadParts(uploads: seq<Upload>): (parts: seq<Part>)
    ensures |parts| == |uploads|
    ensures forall i :: 0 <= i < |uploads| ==> parts[i] == uploads[i].part
  {
    seq(|uploads|, i requires 0 <= i < |uploads| => uploads[i].part)
  }

  /** A completed part together with the body the service keeps for it. */
  function LandedPart(server: Parts, p: CompletedPart): (part: Part) {
    Part(p.number, if p.number in server then server[p.number].body else [])
  }

  function Landed(server: Parts, completed: seq<CompletedPart>): (parts: seq<Part>)
    ensures |parts| == |completed|
    ensures forall i :: 0 <= i < |completed| ==> parts[i] == LandedPart(server, completed[i])
  {
    seq(|completed|, i requires 0 <= i < |completed| => LandedPart(server, completed[i]))
  }

  predicate NumberedFrom(parts: seq<Part>, first: int) {
    forall i :: 0 <= i < |parts| ==> parts[i].number == first + i
  }

  predicate DistinctNumbers(parts: seq<Part>) {
    forall i, j :: 0 <= i < j < |parts| ==> parts[i].number != parts[j].number
  }

  /** Outside the numbers of these parts, the service is unchanged. */
  ghost predicate SameElsewhere(before: Parts, after: Parts, parts: seq<Part>) {
    forall n :: (forall i :: 0 <= i < |parts| ==> parts[i].number != n) ==>
      (n in before <==> n in after) && (n in before ==> after[n] == before[n])
  }

  // ---- what parts drawn from consecutively numbered ones look like ----

  lemma {:induction false} NumberedOnce(parts: seq<Part>, first: int, p: Part)
    requires NumberedFrom(parts, first)
    ensures multiset(parts)[p] <= 1
  {
    if parts != [] {
      var rest, last := parts[..|parts|-1], parts[|parts|-1];
      assert parts == rest + [last];
      NumberedOnce(rest, first, p);
      assert last !in rest;
    }
  }

  lemma {:induction false} DrawnFromIssued(some: seq<Part>, issued: seq<Part>, first: int, k: nat)
    requires NumberedFrom(issued, first)
    requires multiset(some) <= multiset(issued)
    requires k < |some|
    ensures first <= some[k].number < first + |issued|
    ensures issued[some[k].number - first] == some[k]
  {
    assert some[k] in multiset(some);
    assert some[k] in multiset(issued);
    assert some[k] in issued;
  }

  lemma {:induction false} DrawnAreDistinct(some: seq<Part>, issued: seq<Part>, first: int)
    requires NumberedFrom(issued, first)
    requires multiset(some) <= multiset(issued)
    ensures DistinctNumbers(some)
  {
    forall i, j | 0 <= i < j < |some| ensures some[i].number != some[j].number {
      DrawnFromIssued(some, issued, first, i);
      DrawnFromIssued(some, issued, first, j);
      NumberedOnce(issued, first, some[j]);
      OnceMeansDistinct(some, i, j);
    }
  }

  // ---- polling ----

  lemma {:induction false} PollAllTouchesOnlyItsParts(env: Env, world: World, uploads: seq<Upload>)
    ensures SameElsewhere(world.server, PollAll(env, world, uploads).world.server, UploadParts(uploads))
  {
    var after := PollAll(env, world, uploads).world.server;
    forall n | forall i :: 0 <= i < |uploads| ==> UploadParts(uploads)[i].number != n
      ensures (n in world.server <==> n in after) && (n in world.server ==> after[n] == world.server[n])
    {
      assert forall i :: 0 <= i < |uploads| ==> UploadParts(uploads)[i] == uploads[i].part;
      PollAllLeaves(env, world, uploads, n);
    }
  }

  lemma {:induction false} PollAllLeaves(env: Env, world: World, uploads: seq<Upload>, n: int)
    requires forall i :: 0 <= i < |uploads| ==> uploads[i].part.number != n
    ensures var after := PollAll(env, world, uploads).world.server;
            (n in world.server <==> n in after) && (n in world.server ==> after[n] == world.server[n])
    decreases |uploads|
  {
    if uploads != [] {
      var rest, f := uploads[..|uploads|-1], uploads[|uploads|-1];
      PollAllLeaves(env, World(world.polls + 1, Deliver(world.server, f.part, env(world.polls))), rest, n);
    }
  }

  /** The numbers and tags of the successful results, as completed parts. */
  function Successes(results: seq<UploadResult>): (parts: seq<CompletedPart>) {
    if results == [] then []
    else
      (if results[0].Ok? then [CompletedPart(results[0].value.1, results[0].value.0)] else [])
      + Successes(results[1..])
  }

  predicate AllOk(results: seq<UploadResult>) {
    forall i :: 0 <= i < |results| ==> results[i].Ok?
  }

  lemma {:induction false} TryCollectIsAllOrNothing(results: seq<UploadResult>)
    ensures TryCollectCompleteParts(results).Ok? <==> AllOk(results)
    ensures AllOk(results) ==>
              TryCollectCompleteParts(results).value == Successes(results) && |Successes(results)| == |results|
    ensures !AllOk(results) ==> |results| > 0
  {
    if results != [] {
      TryCollectIsAllOrNothing(results[1..]);
      assert AllOk(results) <==> results[0].Ok? && AllOk(results[1..]);
    }
  }

  lemma {:induction false} UploadPartsAppend(a: seq<Upload>, b: seq<Upload>)
    ensures UploadParts(a + b) == UploadParts(a) + UploadParts(b)
  {}

  lemma {:induction false} LandedAppend(server: Parts, a: seq<CompletedPart>, b: seq<CompletedPart>)
    ensures Landed(server, a + b) == Landed(server, a) + Landed(server, b)
  {}

  ghost predicate SortedInto(uploads: seq<Upload>, pending: seq<Upload>, server: Parts, landed: seq<CompletedPart>) {
    && AllHeld(server, landed)
    && multiset(UploadParts(pending)) + multiset(Landed(server, landed)) <= multiset(UploadParts(uploads))
  }

  lemma {:induction false} StillPending(rest: seq<Upload>, f: Upload, f': Upload, pending: seq<Upload>, server: Parts,
                                        landed: seq<CompletedPart>)
    requires SortedInto(rest, pending, server, landed)
    requires f'.part == f.part
    ensures SortedInto(rest + [f], [f'] + pending, server, landed)
  {
    UploadPartsAppend(rest, [f]);
    UploadPartsAppend([f'], pending);
    assert UploadParts([f']) == [f.part] == UploadParts([f]);
  }

  lemma {:induction false} NowLanded(rest: seq<Upload>, f: Upload, done: CompletedPart, pending: seq<Upload>,
                                     server: Parts, landed: seq<CompletedPart>)
    requires SortedInto(rest, pending, server, landed)
    requires Holds(server, done) && LandedPart(server, done) == f.part
    ensures SortedInto(rest + [f], pending, server, [done] + landed)
  {
    UploadPartsAppend(rest, [f]);
    LandedAppend(server, [done], landed);
    assert Landed(server, [done]) == [f.part] == UploadParts([f]);
  }

  lemma {:induction false} NowFailed(rest: seq<Upload>, f: Upload, pending: seq<Upload>, server: Parts,
                                     landed: seq<CompletedPart>)
    requires SortedInto(rest, pending, server, landed)
    ensures SortedInto(rest + [f], pending, server, landed)
  {
    UploadPartsAppend(rest, [f]);
  }

  /** A part just landed is not overwritten by polling uploads of other numbers. */
  lemma {:induction false} LandedStays(env: Env, world: World, rest: seq<Upload>, part: Part, tag: Tag)
    requires DistinctNumbers(UploadParts(rest) + [part])
    requires part.number in world.server && world.server[part.number] == Stored(part.body, tag)
    ensures var server' := PollAll(env, world, rest).world.server;
            && Holds(server', CompletedPart(part.number, tag))
            && LandedPart(server', CompletedPart(part.number, tag)) == part
  {
    PollAllTouchesOnlyItsParts(env, world, rest);
    var all := UploadParts(rest) + [part];
    assert all[|rest|] == part;
    assert forall i :: 0 <= i < |rest| ==> all[i] == UploadParts(rest)[i];
  }

  /** The one step of polling: the last upload is polled first. */
  lemma {:induction false} PollAllStep(env: Env, world: World, rest: seq<Upload>, f: Upload)
    ensures var r := PollAll(env, world, rest + [f]);
            var answer := env(world.polls);
            var r1 := PollAll(env, World(world.polls + 1, Deliver(world.server, f.part, answer)), rest);
            && r.world == r1.world
            && r.pending == (if answer.NotReady? then [f.(waker := Some(world.polls))] + r1.pending else r1.pending)
            && Successes(r.complete) ==
               (if answer.Succeeded? then [CompletedPart(f.part.number, answer.tag)] + Successes(r1.complete)
                else Successes(r1.complete))
  {
    assert (rest + [f])[..|rest|] == rest;
    var answer := env(world.polls);
    var r1 := PollAll(env, World(world.polls + 1, Deliver(world.server, f.part, answer)), rest);
    if answer.Succeeded? {
      assert ([Ok((answer.tag, f.part.number))] + r1.complete)[1..] == r1.complete;
    } else if answer.Failed? {
      assert ([Err(RequestFailed)] + r1.complete)[1..] == r1.complete;
    }
  }

  lemma {:induction false} DistinctFront(rest: seq<Upload>, f: Upload)
    requires DistinctNumbers(UploadParts(rest + [f]))
    ensures UploadParts(rest + [f]) == UploadParts(rest) + [f.part] && DistinctNumbers(UploadParts(rest))
  {
    UploadPartsAppend(rest, [f]);
    assert UploadParts([f]) == [f.part];
    assert forall i :: 0 <= i < |rest| ==> UploadParts(rest)[i] == UploadParts(rest + [f])[i];
  }

  /**
   Polling sorts the uploads into those still pending and those that landed. Every landed part is
   held by the service, under the tag reported for it and with the body that was sent.
   */
  lemma {:induction false} PollAllSorts(env: Env, world: World, uploads: seq<Upload>)
    requires DistinctNumbers(UploadParts(uploads))
    ensures var r := PollAll(env, world, uploads);
            SortedInto(uploads, r.pending, r.world.server, Successes(r.complete))
    decreases |uploads|
  {
    if uploads != [] {
      var rest, f := uploads[..|uploads|-1], uploads[|uploads|-1];
      var answer := env(world.polls);
      var world1 := World(world.polls + 1, Deliver(world.server, f.part, answer));
      var r1 := PollAll(env, world1, rest);
      assert uploads == rest + [f];
      DistinctFront(rest, f);
      PollAllSorts(env, world1, rest);
      PollAllStep(env, world, rest, f);
      match answer {
        case NotReady =>
          StillPending(rest, f, f.(waker := Some(world.polls)), r1.pending, r1.world.server, Successes(r1.complete));
        case Succeeded(tag) =>
          LandedStays(env, world1, rest, f.part, tag);
          NowLanded(rest, f, CompletedPart(f.part.number, tag), r1.pending, r1.world.server, Successes(r1.complete));
        case Failed(_) =>
          NowFailed(rest, f, r1.pending, r1.world.server, Successes(r1.complete));
      }
    }
  }

  // ---- the account of a writer's parts ----

  /**
   Completed parts are the imported ones followed by landed ones; landed and in-flight parts are
   different issued parts, unaltered. (The number of issued parts not among them is what was lost.)
   */
  ghost predicate Tracked(server: Parts, first: int, imported: seq<CompletedPart>, issued: seq<Part>,
                    uploads: seq<Upload>, completed: seq<CompletedPart>)
  {
    && NumberedFrom(issued, first)
    && imported <= completed
    && (forall i :: 0 <= i < |imported| ==> imported[i].number < first)
    && AllHeld(server, completed)
    && multiset(UploadParts(uploads)) + multiset(Landed(server, completed[|imported|..])) <= multiset(issued)
  }

  lemma {:induction false} TrackedNumbers(server: Parts, first: int, imported: seq<CompletedPart>, issued: seq<Part>,
                                          uploads: seq<Upload>, completed: seq<CompletedPart>)
    requires Tracked(server, first, imported, issued, uploads, completed)
    ensures var all := UploadParts(uploads) + Landed(server, completed[|imported|..]);
            && multiset(all) <= multiset(issued)
            && DistinctNumbers(all)
            && forall k :: 0 <= k < |all| ==>
                 && first <= all[k].number < first + |issued|
                 && issued[all[k].number - first] == all[k]
  {
    var all := UploadParts(uploads) + Landed(server, completed[|imported|..]);
    DrawnAreDistinct(all, issued, first);
    forall k | 0 <= k < |all|
      ensures first <= all[k].number < first + |issued| && issued[all[k].number - first] == all[k]
    {
      DrawnFromIssued(all, issued, first, k);
    }
  }

  /** What the service keeps for parts other than those in flight does not change in a check. */
  ghost predicate Untouched(before: Parts, after: Parts, first: int, issued: nat) {
    && (forall n :: n < first && n in before ==> n in after && after[n] == before[n])
    && (forall n :: n in after ==> n in before || first <= n < first + issued)
  }

  /** Completed parts have other numbers than the parts in flight, which have issued numbers. */
  lemma {:induction false} CompletedAreElsewhere(server: Parts, first: int, imported: seq<CompletedPart>,
                                                 issued: seq<Part>,
                                                 uploads: seq<Upload>, completed: seq<CompletedPart>)
    requires Tracked(server, first, imported, issued, uploads, completed)
    ensures forall i :: 0 <= i < |uploads| ==> first <= UploadParts(uploads)[i].number < first + |issued|
    ensures forall i, k :: 0 <= i < |uploads| && 0 <= k < |completed| ==>
              UploadParts(uploads)[i].number != completed[k].number
  {
    var parts, landed := UploadParts(uploads), Landed(server, completed[|imported|..]);
    TrackedNumbers(server, first, imported, issued, uploads, completed);
    var all := parts + landed;
    forall i | 0 <= i < |parts| ensures first <= parts[i].number < first + |issued| {
      assert all[i] == parts[i];
    }
    forall i, k | 0 <= i < |parts| && 0 <= k < |completed| ensures parts[i].number != completed[k].number {
      if k >= |imported| {
        assert all[|parts| + (k - |imported|)] == landed[k - |imported|] == LandedPart(server, completed[k]);
        assert all[i] == parts[i];
      } else {
        assert completed[k] == imported[k];
      }
    }
  }

  lemma {:induction false} UnchangedAt(before: Parts, after: Parts, parts: seq<Part>, p: CompletedPart)
    requires SameElsewhere(before, after, parts)
    requires forall i :: 0 <= i < |parts| ==> parts[i].number != p.number
    ensures Holds(before, p) ==> Holds(after, p)
    ensures LandedPart(after, p) == LandedPart(before, p)
  {}

  lemma {:induction false} CheckKeepsOldParts(env: Env, world: World, first: int, imported: seq<CompletedPart>,
                                              issued: seq<Part>,
                                              uploads: seq<Upload>, completed: seq<CompletedPart>)
    requires Tracked(world.server, first, imported, issued, uploads, completed)
    ensures var server' := PollAll(env, world, uploads).world.server;
            && AllHeld(server', completed)
            && Landed(server', completed[|imported|..]) == Landed(world.server, completed[|imported|..])
            && Untouched(world.server, server', first, |issued|)
  {
    var server' := PollAll(env, world, uploads).world.server;
    PollAllTouchesOnlyItsParts(env, world, uploads);
    CompletedAreElsewhere(world.server, first, imported, issued, uploads, completed);
    forall k | 0 <= k < |completed|
      ensures Holds(server', completed[k])
      ensures LandedPart(server', completed[k]) == LandedPart(world.server, completed[k])
    {
      UnchangedAt(world.server, server', UploadParts(uploads), completed[k]);
    }
  }

  /** Moving a batch between places of the account. */
  lemma {:induction false} AccountAfterBatch(server: Parts, server': Parts, first: int, imported: seq<CompletedPart>,
                                             issued: seq<Part>,
                                             uploads: seq<Upload>, completed: seq<CompletedPart>,
                                             pending: seq<Upload>, finished: seq<CompletedPart>)
    requires Tracked(server, first, imported, issued, uploads, completed)
    requires AllHeld(server', completed)
    requires Landed(server', completed[|imported|..]) == Landed(server, completed[|imported|..])
    requires SortedInto(uploads, pending, server', finished)
    ensures Tracked(server', first, imported, issued, pending, completed + finished)
    ensures Tracked(server', first, imported, issued, pending, completed)
  {
    assert (completed + finished)[|imported|..] == completed[|imported|..] + finished;
    LandedAppend(server', completed[|imported|..], finished);
  }

  /** Checking the uploads keeps the account; it drops parts exactly when it reports an error. */
  lemma {:induction false} CheckKeepsAccount(env: Env, world: World, first: int, imported: seq<CompletedPart>,
                                             issued: seq<Part>,
                                             uploads: seq<Upload>, completed: seq<CompletedPart>)
    requires Tracked(world.server, first, imported, issued, uploads, completed)
    ensures var c := CheckUploads(env, world, uploads, completed);
            && Tracked(c.world.server, first, imported, issued, c.uploads, c.completed)
            && Untouched(world.server, c.world.server, first, |issued|)
            && (c.outcome.Ok? ==> |c.uploads| + |c.completed| == |uploads| + |completed|)
            && (c.outcome.Err? ==> |c.uploads| + |c.completed| < |uploads| + |completed|)
  {
    var polled := PollAll(env, world, uploads);
    DistinctUploads(world.server, first, imported, issued, uploads, completed);
    PollAllSorts(env, world, uploads);
    CheckKeepsOldParts(env, world, first, imported, issued, uploads, completed);
    TryCollectIsAllOrNothing(polled.complete);
    AccountAfterBatch(world.server, polled.world.server, first, imported, issued, uploads, completed,
                      polled.pending, Successes(polled.complete));
  }

  lemma {:induction false} DistinctUploads(server: Parts, first: int, imported: seq<CompletedPart>, issued: seq<Part>,
                                           uploads: seq<Upload>, completed: seq<CompletedPart>)
    requires Tracked(server, first, imported, issued, uploads, completed)
    ensures DistinctNumbers(UploadParts(uploads))
  {
    TrackedNumbers(server, first, imported, issued, uploads, completed);
    var all := UploadParts(uploads) + Landed(server, completed[|imported|..]);
    assert forall i :: 0 <= i < |uploads| ==> all[i] == UploadParts(uploads)[i];
  }

  /** Starting uploads for newly issued parts keeps the account. */
  lemma {:induction false} StartKeepsAccount(server: Parts, first: int, imported: seq<CompletedPart>, issued: seq<Part>,
                                             uploads: seq<Upload>, completed: seq<CompletedPart>, more: seq<Part>)
    requires Tracked(server, first, imported, issued, uploads, completed)
    requires NumberedFrom(more, first + |issued|)
    ensures Tracked(server, first, imported, issued + more, uploads + Start(more), completed)
  {
    assert UploadParts(uploads + Start(more)) == UploadParts(uploads) + more;
  }
}
