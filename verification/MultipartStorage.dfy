/**
 What the service holds of a writer's parts, in every state and whatever failed: nothing but issued
 parts, each with the body that was issued.
 */
module MultipartStorage {
  import opened Prelude
  import opened S3Service
  import opened AsyncWriting
  import opened Multipart
  import opened MultipartAccounting
  import opened MultipartInvariant

  /** Every part held was held before, or is an issued part with its issued body. */
  ghost predicate HoldsOnlyIssued(before: Parts, server: Parts, issued: seq<Part>, first: int) {
    && NumberedFrom(issued, first)
    && forall n :: n in server ==>
         || (n in before && server[n] == before[n])
         || (first <= n < first + |issued| && server[n].body == issued[n - first].body)
  }

  lemma {:induction false} PollAllStores(env: Env, world: World, uploads: seq<Upload>, n: int)
    requires n in PollAll(env, world, uploads).world.server
    ensures var server' := PollAll(env, world, uploads).world.server;
            || (n in world.server && server'[n] == world.server[n])
            || (exists i :: 0 <= i < |uploads| &&
                  uploads[i].part.number == n && server'[n].body == uploads[i].part.body)
    decreases |uploads|
  {
    if uploads != [] {
      var rest, f := uploads[..|uploads|-1], uploads[|uploads|-1];
      var world1 := World(world.polls + 1, Deliver(world.server, f.part, env(world.polls)));
      PollAllStores(env, world1, rest, n);
      var server' := PollAll(env, world1, rest).world.server;
      if i :| 0 <= i < |rest| && rest[i].part.number == n && server'[n].body == rest[i].part.body {
        assert uploads[i] == rest[i];
      } else if n == f.part.number {
        assert uploads[|rest|] == f;
      }
    }
  }

  /** Checking the uploads of a writer stores nothing but issued parts, also when the check fails. */
  lemma {:induction false} CheckStoresIssued(env: Env, world: World, before: Parts, first: int,
                                             imported: seq<CompletedPart>,
                                             issued: seq<Part>, uploads: seq<Upload>, completed: seq<CompletedPart>)
    requires Tracked(world.server, first, imported, issued, uploads, completed)
    requires HoldsOnlyIssued(before, world.server, issued, first)
    ensures HoldsOnlyIssued(before, CheckUploads(env, world, uploads, completed).world.server, issued, first)
  {
    var server' := PollAll(env, world, uploads).world.server;
    TrackedNumbers(world.server, first, imported, issued, uploads, completed);
    var all := UploadParts(uploads) + Landed(world.server, completed[|imported|..]);
    forall n | n in server'
      ensures || (n in before && server'[n] == before[n])
              || (first <= n < first + |issued| && server'[n].body == issued[n - first].body)
    {
      PollAllStores(env, world, uploads, n);
      if i :| 0 <= i < |uploads| && uploads[i].part.number == n && server'[n].body == uploads[i].part.body {
        assert all[i] == uploads[i].part;
      }
    }
  }

  lemma {:induction false} MoreIssued(before: Parts, server: Parts, issued: seq<Part>, more: seq<Part>, first: int)
    requires HoldsOnlyIssued(before, server, issued, first) && NumberedFrom(more, first + |issued|)
    ensures HoldsOnlyIssued(before, server, issued + more, first)
  {}

  /** Starting uploads for newly issued parts and checking once more. */
  lemma {:induction false} SecondCheckStoresIssued(env: Env, o: Origin, w: Writer, c: Checked, more: seq<Part>)
    requires Tracked(c.world.server, o.first, o.imported, w.issued, c.uploads, c.completed)
    requires HoldsOnlyIssued(o.server, c.world.server, w.issued, o.first)
    requires NumberedFrom(more, o.first + |w.issued|)
    ensures HoldsOnlyIssued(o.server, CheckUploads(env, c.world, c.uploads + Start(more), c.completed).world.server,
                            w.issued + more, o.first)
  {
    StartKeepsAccount(c.world.server, o.first, o.imported, w.issued, c.uploads, c.completed, more);
    MoreIssued(o.server, c.world.server, w.issued, more, o.first);
    CheckStoresIssued(env, c.world, o.server, o.first, o.imported,
                      w.issued + more, c.uploads + Start(more), c.completed);
  }

  ghost predicate StoresOnlyIssued(o: Origin, w: Writer) {
    HoldsOnlyIssued(o.server, w.world.server, w.issued, o.first)
  }

  lemma {:induction false} TakeBytesStoresIssued(env: Env, o: Origin, w: Writer, c: Checked, buffer: seq<byte>,
                                                 partNumber: int, taken: seq<byte>)
    requires MidCall(o, w, c, buffer, partNumber)
    requires HoldsOnlyIssued(o.server, c.world.server, w.issued, o.first)
    requires |c.uploads| * w.partSize + |buffer| + |taken| <= w.maxUploads * w.partSize
    ensures StoresOnlyIssued(o, TakeBytes(env, w, c, buffer, partNumber, taken).0)
  {
    CutSizes(buffer + taken, w.partSize, partNumber);
    SecondCheckStoresIssued(env, o, w, c, Cut(buffer + taken, w.partSize, partNumber).0);
  }

  lemma {:induction false} WriteStoresIssued(env: Env, o: Origin, w: Writer, buf: seq<byte>)
    requires Inv(o, w) && StoresOnlyIssued(o, w) && w.state.Writing?
    ensures StoresOnlyIssued(o, Write(env, w, buf).0)
  {
    var Writing(uploads, buffer, partNumber, completed) := w.state;
    var c := CheckUploads(env, w.world, uploads, completed);
    FirstCheck(env, o, w);
    CheckStoresIssued(env, w.world, o.server, o.first, o.imported, w.issued, uploads, completed);
    WriteByCases(env, w, buf);
    var count := Takes(w, |c.uploads|, |buffer|, |buf|);
    if c.outcome.Ok? && count != 0 {
      TakeBytesStoresIssued(env, o, w.(world := c.world, state := NoState), c, buffer, partNumber, buf[..count]);
    }
  }

  lemma {:induction false} CloseStoresIssued(env: Env, o: Origin, w: Writer)
    requires Inv(o, w) && StoresOnlyIssued(o, w)
    ensures StoresOnlyIssued(o, Close(env, w).0)
  {
    match w.state
    case Writing(uploads, buffer, partNumber, completed) =>
      var c := CheckUploads(env, w.world, uploads, completed);
      FirstCheck(env, o, w);
      CheckStoresIssued(env, w.world, o.server, o.first, o.imported, w.issued, uploads, completed);
      SecondCheckStoresIssued(env, o, w, c, if buffer == [] then [] else [Part(partNumber, buffer)]);
    case CompletingParts(uploads, completed) =>
      CheckStoresIssued(env, w.world, o.server, o.first, o.imported, w.issued, uploads, completed);
    case _ =>
  }

  lemma {:induction false} StepStoresIssued(env: Env, o: Origin, w: Writer, call: Call)
    requires Inv(o, w) && StoresOnlyIssued(o, w)
    ensures StoresOnlyIssued(o, Step(env, w, call).0)
  {
    match call
    case CloseCall => CloseStoresIssued(env, o, w);
    case WriteCall(buf) =>
      if w.state.Writing? { WriteStoresIssued(env, o, w, buf); }
    case FlushCall =>
      if w.state.Writing? {
        CheckStoresIssued(env, w.world, o.server, o.first, o.imported, w.issued, w.state.uploads, w.state.completed);
      }
  }

  /**
   In every state of every run, failures included, the service holds nothing but what it held before
   and issued parts, each with the body that was issued under its number.
   */
  lemma {:induction false} RunStoresIssued(env: Env, o: Origin, partSize: nat, maxUploads: nat, calls: seq<Call>)
    requires 0 < partSize && 0 < maxUploads && ValidOrigin(o) && Sound(OpenAt(partSize, maxUploads, o))
    ensures var w := Run(env, OpenAt(partSize, maxUploads, o), calls).0;
            HoldsOnlyIssued(o.server, w.world.server, w.issued, o.first)
    decreases |calls|
  {
    if calls != [] {
      var w0, front := OpenAt(partSize, maxUploads, o), calls[..|calls|-1];
      OpenInv(partSize, maxUploads, o);
      RunKeepsInv(env, o, w0, front);
      RunStoresIssued(env, o, partSize, maxUploads, front);
      StepStoresIssued(env, o, Run(env, w0, front).0, calls[|calls|-1]);
    }
  }

  // ---- what has been issued, also by a writer that failed ----

  /** No issued part is empty; and the issued bytes and the accepted bytes are one a beginning of the other. */
  ghost predicate IssuesInOrder(w: Writer) {
    && (forall i :: 0 <= i < |w.issued| ==> |w.issued[i].body| > 0)
    && (Concat(PartBodies(w.issued)) <= w.accepted || w.accepted <= Concat(PartBodies(w.issued)))
  }

  lemma {:induction false} UsableIssuesInOrder(o: Origin, w: Writer)
    requires Inv(o, w) && !w.state.NoState?
    ensures IssuesInOrder(w)
  {}

  lemma {:induction false} PrefixesCompare<T>(a: seq<T>, rest: seq<T>, b: seq<T>, more: seq<T>)
    requires a + rest == b + more
    ensures a <= b || b <= a
  {
    if |a| <= |b| {
      assert forall i :: 0 <= i < |a| ==> a[i] == (a + rest)[i] == (b + more)[i] == b[i];
    } else {
      assert forall i :: 0 <= i < |b| ==> b[i] == (b + more)[i] == (a + rest)[i] == a[i];
    }
  }

  lemma {:induction false} TakeBytesInOrder(env: Env, o: Origin, w: Writer, c: Checked, buffer: seq<byte>,
                                            partNumber: int, taken: seq<byte>)
    requires MidCall(o, w, c, buffer, partNumber)
    requires |c.uploads| * w.partSize + |buffer| + |taken| <= w.maxUploads * w.partSize
    ensures var w' := TakeBytes(env, w, c, buffer, partNumber, taken).0;
            w'.state.NoState? ==> IssuesInOrder(w')
  {
    var (parts, rest) := Cut(buffer + taken, w.partSize, partNumber);
    CutSizes(buffer + taken, w.partSize, partNumber);
    AcceptedAfterCut(w.issued, buffer, taken, w.partSize, partNumber);
    PrefixesCompare(Concat(PartBodies(w.issued + parts)), rest, w.accepted, taken);
  }

  lemma {:induction false} WriteInOrder(env: Env, o: Origin, w: Writer, buf: seq<byte>)
    requires Inv(o, w) && IssuesInOrder(w) && w.state.Writing?
    ensures var w' := Write(env, w, buf).0; w'.state.NoState? ==> IssuesInOrder(w')
  {
    var Writing(uploads, buffer, partNumber, completed) := w.state;
    FirstCheck(env, o, w);
    WriteByCases(env, w, buf);
    var c := CheckUploads(env, w.world, uploads, completed);
    var count := Takes(w, |c.uploads|, |buffer|, |buf|);
    if c.outcome.Ok? && count != 0 {
      TakeBytesInOrder(env, o, w.(world := c.world, state := NoState), c, buffer, partNumber, buf[..count]);
    }
  }

  lemma {:induction false} StopWritingInOrder(env: Env, w: Writer, c: Checked, buffer: seq<byte>, partNumber: int)
    requires 0 < w.partSize && |c.uploads| < w.maxUploads
    requires IssuesInOrder(w) && w.accepted == Concat(PartBodies(w.issued)) + buffer
    ensures IssuesInOrder(StopWriting(env, w, c, buffer, partNumber).0)
  {
    LastPartContents(w.issued, buffer, partNumber);
  }

  lemma {:induction false} CloseInOrder(env: Env, o: Origin, w: Writer)
    requires Inv(o, w) && IssuesInOrder(w)
    ensures var w' := Close(env, w).0; w'.state.NoState? ==> IssuesInOrder(w')
  {
    if w.state.Writing? {
      var Writing(uploads, buffer, partNumber, completed) := w.state;
      var c := CheckUploads(env, w.world, uploads, completed);
      CloseByCases(env, w);
      if c.outcome.Ok? && |c.uploads| < w.maxUploads {
        StopWritingInOrder(env, w.(world := c.world, state := NoState), c, buffer, partNumber);
      }
    }
  }

  lemma {:induction false} StepInOrder(env: Env, o: Origin, w: Writer, call: Call)
    requires Inv(o, w) && IssuesInOrder(w)
    ensures IssuesInOrder(Step(env, w, call).0)
  {
    var w' := Step(env, w, call).0;
    StepKeepsInv(env, o, w, call);
    if w'.state.NoState? {
      match call
      case WriteCall(buf) => if w.state.Writing? { WriteInOrder(env, o, w, buf); }
      case FlushCall =>
      case CloseCall => CloseInOrder(env, o, w);
    } else {
      UsableIssuesInOrder(o, w');
    }
  }

  /**
   In every state of every run, failures included, no issued part is empty, and the issued bytes are
   a beginning of the accepted ones or continue them.
   */
  lemma {:induction false} RunIssuesInOrder(env: Env, o: Origin, partSize: nat, maxUploads: nat, calls: seq<Call>)
    requires 0 < partSize && 0 < maxUploads && ValidOrigin(o) && Sound(OpenAt(partSize, maxUploads, o))
    ensures IssuesInOrder(Run(env, OpenAt(partSize, maxUploads, o), calls).0)
    decreases |calls|
  {
    var w0 := OpenAt(partSize, maxUploads, o);
    OpenInv(partSize, maxUploads, o);
    if calls == [] {
      UsableIssuesInOrder(o, w0);
    } else {
      var front := calls[..|calls|-1];
      RunKeepsInv(env, o, w0, front);
      RunIssuesInOrder(env, o, partSize, maxUploads, front);
      StepInOrder(env, o, Run(env, w0, front).0, calls[|calls|-1]);
    }
  }
}
