/** The multipart writer as it runs: an object whose operations replace and update its state. */
module AsyncMultipart {
  import opened Prelude
  import opened Arithmetic
  import opened S3Service
  import opened AsyncWriting
  import opened Multipart

  class AsyncMultipartUpload {
    const uploadId: string
    const partSize: nat
    const maxUploadingParts: nat
    const env: Env
    var state: State
    var world: World

    // history
    ghost var issued: seq<Part>
    ghost var requests: seq<seq<CompletedPart>>
    ghost var accepted: seq<byte>
    ghost var uploaded: Option<seq<byte>>
    ghost var woken: nat

    /** The writer as a value. */
    ghost function View(): (w: Writer)
      reads this
    {
      Writer(partSize, maxUploadingParts, state, world, issued, requests, accepted, uploaded, woken)
    }

    ghost predicate Valid()
      reads this
    {
      Sound(View())
    }

    constructor Make(env: Env, server: Parts, uploadId: string, partSize: nat, maxUploadingParts: nat,
                     partNumber: int, completed: seq<CompletedPart>)
      requires 0 < partSize && 0 < maxUploadingParts
      ensures Valid() && this.env == env && this.uploadId == uploadId
      ensures View() == Open(partSize, maxUploadingParts, World(0, server), completed, partNumber)
    {
      this.env, this.uploadId := env, uploadId;
      this.partSize, this.maxUploadingParts := partSize, maxUploadingParts;
      state := Writing([], [], partNumber, completed);
      world := World(0, server);
      issued, requests, accepted, uploaded, woken := [], [], [], None, 0;
      new;
      MulMonotone(0, maxUploadingParts, partSize);
    }

    /** Opens a new upload; `created` is the service's response to the request for one. */
    static method New(env: Env, server: Parts, partSize: nat, maxUploadingParts: Option<nat>,
                      created: Result<Option<string>, Error>)
      returns (r: Result<AsyncMultipartUpload, Error>)
      ensures r.Ok? <==> Multipart.New(partSize, maxUploadingParts, server, created).Ok?
      ensures r.Err? ==> r.error == Multipart.New(partSize, maxUploadingParts, server, created).error
      ensures r.Ok? ==>
                && fresh(r.value) && r.value.Valid() && r.value.env == env
                && r.value.View() == Multipart.New(partSize, maxUploadingParts, server, created).value
    {
      var limit := CheckedLimit(partSize, maxUploadingParts);
      if limit.Err? {
        return Err(limit.error);
      }
      if created.Err? {
        return Err(created.error);
      }
      if created.value.None? {
        return Err(NoUploadId);
      }
      var w := new AsyncMultipartUpload.Make(env, server, created.value.value, partSize, limit.value, 1, []);
      return Ok(w);
    }

    /** Picks up an existing upload, from the pages that listing its parts yields. */
    static method From(env: Env, server: Parts, uploadId: string, partSize: nat, maxUploadingParts: Option<nat>,
                       listing: seq<Result<Page, Error>>)
      returns (r: Result<AsyncMultipartUpload, Error>)
      ensures r.Ok? <==> Import(partSize, maxUploadingParts, listing, server).Ok?
      ensures r.Err? ==> r.error == Import(partSize, maxUploadingParts, listing, server).error
      ensures r.Ok? ==>
                && fresh(r.value) && r.value.Valid() && r.value.env == env && r.value.uploadId == uploadId
                && r.value.View() == Import(partSize, maxUploadingParts, listing, server).value
    {
      var limit := CheckedLimit(partSize, maxUploadingParts);
      if limit.Err? {
        return Err(limit.error);
      }
      var parts: seq<ListedPart> := [];
      var next := 0;
      var more := true;
      while more && next < |listing| && listing[next].Ok?
        invariant 0 <= next <= |listing|
        invariant ReadPages(listing) == parts + if more then ReadPages(listing[next..]) else []
        decreases |listing| - next
      {
        var page := listing[next].value;
        assert listing[next..][1..] == listing[next+1..];
        parts := parts + page.parts;
        next := next + 1;
        if page.truncated != Some(true) {
          more := false;
        }
      }
      assert more ==> ReadPages(listing[next..]) == [];
      assert ReadPages(listing) == parts + [] == parts;
      var completed := ToCompleted(parts);
      if completed.Err? {
        return Err(completed.error);
      }
      var w := new AsyncMultipartUpload.Make(env, server, uploadId, partSize, limit.value,
                                             FirstFreeNumber(parts), completed.value);
      return Ok(w);
    }

    /** Polls one upload future. */
    method PollUpload(f: Upload) returns (answer: Answer)
      modifies this`world
      ensures answer == env(old(world).polls)
      ensures world == World(old(world).polls + 1, Deliver(old(world).server, f.part, answer))
    {
      answer := env(world.polls);
      world := World(world.polls + 1, Deliver(world.server, f.part, answer));
    }

    /** Removes the completed futures from the list and returns their results. */
    method PollAll(futures: seq<Upload>) returns (remaining: seq<Upload>, complete: seq<UploadResult>)
      modifies this`world
      ensures Polled(remaining, complete, world) == Multipart.PollAll(env, old(world), futures)
    {
      ghost var all := Multipart.PollAll(env, world, futures);
      var queue, pending := futures, [];
      complete := [];
      while queue != []
        invariant pending + Multipart.PollAll(env, world, queue).pending == all.pending
        invariant complete + Multipart.PollAll(env, world, queue).complete == all.complete
        invariant Multipart.PollAll(env, world, queue).world == all.world
        decreases |queue|
      {
        var f := queue[|queue|-1];
        ghost var before := Multipart.PollAll(env, world, queue);
        queue := queue[..|queue|-1];
        var at := world.polls;
        var answer := PollUpload(f);
        ghost var rest := Multipart.PollAll(env, world, queue);
        match answer {
          case NotReady =>
            Associative(pending, [f.(waker := Some(at))], rest.pending);
            pending := pending + [f.(waker := Some(at))];
          case Succeeded(tag) =>
            Associative(complete, [Ok((tag, f.part.number))], rest.complete);
            complete := complete + [Ok((tag, f.part.number))];
          case Failed(_) =>
            Associative(complete, [Err(RequestFailed)], rest.complete);
            complete := complete + [Err(RequestFailed)];
        }
      }
      remaining := queue + pending;
    }

    /** Moves finished uploads to the completed parts; on an error the whole batch is dropped. */
    method CheckUploads(uploads: seq<Upload>, completed: seq<CompletedPart>)
      returns (uploads': seq<Upload>, completed': seq<CompletedPart>, outcome: Result<(), Error>)
      modifies this`world
      ensures Checked(uploads', completed', world, outcome)
           == Multipart.CheckUploads(env, old(world), uploads, completed)
    {
      var results;
      completed' := completed;
      uploads', results := PollAll(uploads);
      var collected := TryCollectCompleteParts(results);
      if collected.Err? {
        outcome := Err(collected.error);
      } else {
        completed' := completed' + collected.value;
        outcome := Ok(());
      }
    }

    /** Asks the service to store a part, and returns the future of that request. */
    method UploadPart(part: Part) returns (f: Upload)
      modifies this`issued
      ensures issued == old(issued) + [part] && f == Upload(part, None)
    {
      issued := issued + [part];
      f := Upload(part, None);
    }

    /** Starts an upload for every full part at the front of the buffer. */
    method StartFullParts(uploads: seq<Upload>, buffer: seq<byte>, partNumber: int)
      returns (uploads': seq<Upload>, buffer': seq<byte>, partNumber': int)
      requires 0 < partSize
      modifies this`issued
      ensures var (parts, rest) := Cut(buffer, partSize, partNumber);
              && uploads' == uploads + Start(parts)
              && buffer' == rest
              && partNumber' == partNumber + |parts|
              && issued == old(issued) + parts
    {
      uploads', buffer', partNumber' := uploads, buffer, partNumber;
      ghost var started: seq<Part> := [];
      assert Cut(buffer, partSize, partNumber).0 == started + Cut(buffer, partSize, partNumber).0;
      while |buffer'| >= partSize
        invariant uploads' == uploads + Start(started)
        invariant issued == old(issued) + started
        invariant partNumber' == partNumber + |started|
        invariant var (parts, rest) := Cut(buffer', partSize, partNumber');
                  Cut(buffer, partSize, partNumber) == (started + parts, rest)
        decreases |buffer'|
      {
        ghost var (more, rest) := Cut(buffer'[partSize..], partSize, partNumber' + 1);
        var part := buffer'[..partSize];
        buffer' := buffer'[partSize..];
        var f := UploadPart(Part(partNumber', part));
        ghost var next := started + [f.part];
        assert started + ([f.part] + more) == next + more;
        assert Start(next) == Start(started) + [f];
        uploads' := uploads' + [f];
        partNumber' := partNumber' + 1;
        started := next;
      }
    }

    method Wake()
      modifies this`woken
      ensures woken == old(woken) + 1
    {
      woken := woken + 1;
    }

    method PollWrite(buf: seq<byte>) returns (r: Poll<Result<nat, Error>>)
      requires Valid()
      modifies this
      ensures Valid() && (View(), r) == Write(env, old(View()), buf)
    {
      var was := state;
      state := NoState;
      match was {
        case Writing(uploads0, buffer0, partNumber0, completed0) =>
          var uploads, completed, outcome := CheckUploads(uploads0, completed0);
          if outcome.Err? {
            return Ready(Err(outcome.error));
          }
          var uploadCapacity := (maxUploadingParts - |uploads|) * partSize - |buffer0|;
          CapacityIsRoom(View(), |uploads0|, |uploads|, |buffer0|);
          var bytesToWrite := if uploadCapacity < |buf| then uploadCapacity else |buf|;
          if bytesToWrite == 0 {
            if uploads == [] {
              Wake();
            }
            state := Writing(uploads, buffer0, partNumber0, completed);
            return Pending;
          }
          r := TakeBytes(uploads, buffer0, partNumber0, completed, buf[..bytesToWrite]);
        case NoState =>
          return Ready(Err(StateIsNone));
        case _ =>
          return Ready(Err(WriteAfterClose));
      }
    }

    /** The part of a write that takes bytes, once there is room for them. */
    method TakeBytes(uploads0: seq<Upload>, buffer0: seq<byte>, partNumber0: int, completed0: seq<CompletedPart>,
                     taken: seq<byte>)
      returns (r: Poll<Result<nat, Error>>)
      requires 0 < partSize && 0 < maxUploadingParts && state == NoState
      requires |uploads0| * partSize + |buffer0| + |taken| <= maxUploadingParts * partSize
      modifies this
      ensures (View(), r) == Multipart.TakeBytes(env, old(View()), Checked(uploads0, completed0, old(world), Ok(())),
                                                 buffer0, partNumber0, taken)
    {
      var uploads, buffer, partNumber := StartFullParts(uploads0, buffer0 + taken, partNumber0);
      var completed, outcome;
      uploads, completed, outcome := CheckUploads(uploads, completed0);
      if outcome.Err? {
        return Ready(Err(outcome.error));
      }
      state := Writing(uploads, buffer, partNumber, completed);
      accepted := accepted + taken;
      return Ready(Ok(|taken|));
    }

    method PollFlush() returns (r: Poll<Result<(), Error>>)
      requires Valid()
      modifies this
      ensures Valid() && (View(), r) == Flush(env, old(View()))
    {
      match state {
        case Writing(uploads0, buffer, partNumber, completed0) =>
          var uploads, completed, outcome := CheckUploads(uploads0, completed0);
          state := Writing(uploads, buffer, partNumber, completed);
          if outcome.Err? {
            return Ready(Err(outcome.error));
          }
          if uploads == [] {
            return Ready(Ok(()));
          }
          return Pending;
        case NoState =>
          return Ready(Err(StateIsNone));
        case _ =>
          return Ready(Err(FlushAfterClose));
      }
    }

    method PollClose() returns (r: Poll<Result<(), Error>>)
      requires Valid()
      modifies this
      ensures Valid() && (View(), r) == Close(env, old(View()))
    {
      var was := state;
      state := NoState;
      match was {
        case Writing(uploads0, buffer, partNumber, completed0) =>
          r := CloseWhileWriting(uploads0, buffer, partNumber, completed0);
        case CompletingParts(uploads0, completed0) =>
          if uploads0 == [] {
            var request := SortByNumber(completed0);
            requests := requests + [request];
            state := Completing(request, None);
            Wake();
            return Pending;
          }
          var uploads, completed, outcome := CheckUploads(uploads0, completed0);
          if outcome.Err? {
            return Ready(Err(outcome.error));
          }
          if uploads == [] {
            Wake();
          }
          state := CompletingParts(uploads, completed);
          return Pending;
        case Completing(request, _) =>
          var at := world.polls;
          var answer := env(at);
          world := world.(polls := at + 1);
          match answer {
            case NotReady =>
              state := Completing(request, Some(at));
              return Pending;
            case Succeeded(_) =>
              uploaded := Assemble(world.server, request);
              state := Closed;
              return Ready(Ok(()));
            case Failed(_) =>
              state := Closed;
              return Ready(Err(RequestFailed));
          }
        case NoState =>
          return Ready(Err(StateIsNone));
        case Closed =>
          return Ready(Err(CloseAfterClose));
      }
    }

    /** The branch of close that is taken while bytes are still being accepted. */
    method CloseWhileWriting(uploads0: seq<Upload>, buffer: seq<byte>, partNumber: int, completed0: seq<CompletedPart>)
      returns (r: Poll<Result<(), Error>>)
      requires state == NoState
      requires Sound(View().(state := Writing(uploads0, buffer, partNumber, completed0)))
      modifies this
      ensures (View(), r) == Close(env, old(View()).(state := Writing(uploads0, buffer, partNumber, completed0)))
    {
      var uploads, completed, outcome := CheckUploads(uploads0, completed0);
      if outcome.Err? {
        return Ready(Err(outcome.error));
      }
      if maxUploadingParts - |uploads| == 0 {
        state := Writing(uploads, buffer, partNumber, completed);
        return Pending;
      }
      ghost var last := if buffer == [] then [] else [Part(partNumber, buffer)];
      ghost var before, issued0 := uploads, issued;
      if buffer != [] {
        var part := UploadPart(Part(partNumber, buffer));
        uploads := uploads + [part];
      }
      assert uploads == before + Start(last) && issued == issued0 + last;
      uploads, completed, outcome := CheckUploads(uploads, completed);
      if outcome.Err? {
        return Ready(Err(outcome.error));
      }
      if uploads == [] {
        Wake();
      }
      state := CompletingParts(uploads, completed);
      return Pending;
    }
  }
}
