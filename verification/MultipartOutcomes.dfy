/** What each call answers, and when: the results of the multipart writer in every state. */
module MultipartOutcomes {
  import opened Prelude
  import opened S3Service
  import opened AsyncWriting
  import opened Multipart
  import opened MultipartAccounting
  import opened MultipartInvariant
  import opened MultipartBounds

  predicate IsErr<T>(r: Poll<Result<T, Error>>) {
    r.Ready? && r.value.Err?
  }

  lemma {:induction false} NoFailureInTwo(env: Env, a: nat, b: nat, c: nat)
    requires a <= b <= c
    ensures NoFailureIn(env, a, c) <==> NoFailureIn(env, a, b) && NoFailureIn(env, b, c)
  {
    if NoFailureIn(env, a, b) && NoFailureIn(env, b, c) {
      forall k | a <= k < c ensures !env(k).Failed? {
        assert k < b || b <= k;
      }
    }
  }

  /** How many of the n polls from this one on find their future not ready. */
  function NotReadyAmong(env: Env, from: nat, n: nat): (count: nat)
    decreases n
  {
    if n == 0 then 0 else (if env(from).NotReady? then 1 else 0) + NotReadyAmong(env, from + 1, n - 1)
  }

  lemma {:induction false} StillInFlight(env: Env, world: World, uploads: seq<Upload>)
    ensures |PollAll(env, world, uploads).pending| == NotReadyAmong(env, world.polls, |uploads|)
    decreases |uploads|
  {
    if uploads != [] {
      var rest, f := uploads[..|uploads|-1], uploads[|uploads|-1];
      StillInFlight(env, World(world.polls + 1, Deliver(world.server, f.part, env(world.polls))), rest);
    }
  }

  /**
   A check polls every upload once. Those not ready stay in flight, whatever the others answer; if none
   has failed, the others are completed, and otherwise they are dropped, with one error reported.
   */
  lemma {:induction false} CheckOutcome(env: Env, world: World, uploads: seq<Upload>, completed: seq<CompletedPart>)
    ensures var c := CheckUploads(env, world, uploads, completed);
            && c.world.polls == world.polls + |uploads|
            && |c.uploads| == NotReadyAmong(env, world.polls, |uploads|)
            && completed <= c.completed
            && (if NoFailureIn(env, world.polls, c.world.polls)
                then c.outcome == Ok(()) && |c.completed| == |completed| + |uploads| - |c.uploads|
                else c.outcome == Err(RequestFailed) && c.completed == completed)
  {
    StillInFlight(env, world, uploads);
    TryCollectIsAllOrNothing(PollAll(env, world, uploads).complete);
    CheckFailsIffSomeUploadFailed(env, world, uploads, completed);
    CheckErrorIsRequestFailed(env, world, uploads, completed);
  }

  // ---- write ----

  lemma {:induction false} TakeBytesOutcome(env: Env, w: Writer, c: Checked, buffer: seq<byte>, partNumber: int,
                                            taken: seq<byte>)
    requires 0 < w.partSize && 0 < w.maxUploads
    requires |c.uploads| * w.partSize + |buffer| + |taken| <= w.maxUploads * w.partSize
    ensures var (w', r) := TakeBytes(env, w, c, buffer, partNumber, taken);
            && c.world.polls <= w'.world.polls
            && (if NoFailureIn(env, c.world.polls, w'.world.polls)
                then r == Ready(Ok(|taken|)) && w'.state.Writing?
                else r == Ready(Err(RequestFailed)) && w'.state.NoState?)
  {
    var parts := Cut(buffer + taken, w.partSize, partNumber).0;
    CheckOutcome(env, c.world, c.uploads + Start(parts), c.completed);
  }

  /**
   A write fails exactly when an upload it polls has failed, and then the writer is lost; otherwise
   the writer goes on. Once closing has begun, or after a failure, a write polls nothing and fails.
   */
  lemma {:induction false} WriteOutcome(env: Env, w: Writer, buf: seq<byte>)
    requires Sound(w)
    ensures var (w', r) := Write(env, w, buf);
            match w.state
            case Writing(uploads, _, _, _) =>
              && w.world.polls + |uploads| <= w'.world.polls
              && (IsErr(r) <==> !NoFailureIn(env, w.world.polls, w'.world.polls))
              && (IsErr(r) ==> r.value.error == RequestFailed && w'.state.NoState?)
              && (!IsErr(r) ==> w'.state.Writing?)
            case NoState => r == Ready(Err(StateIsNone)) && w' == w
            case _ => r == Ready(Err(WriteAfterClose)) && w' == w.(state := NoState)
  {
    if w.state.Writing? {
      var Writing(uploads, buffer, partNumber, completed) := w.state;
      var c := CheckUploads(env, w.world, uploads, completed);
      WriteByCases(env, w, buf);
      CheckOutcome(env, w.world, uploads, completed);
      var count := Takes(w, |c.uploads|, |buffer|, |buf|);
      if c.outcome.Ok? && count != 0 {
        TakeBytesOutcome(env, w.(world := c.world, state := NoState), c, buffer, partNumber, buf[..count]);
        NoFailureInTwo(env, w.world.polls, c.world.polls, Write(env, w, buf).0.world.polls);
      }
    }
  }

  // ---- flush ----

  /**
   A flush polls every upload once, and those not ready stay in flight. It fails exactly when one of
   them has failed, succeeds exactly when all have succeeded, and in any case the writer keeps accepting
   bytes, with its buffer and numbering untouched.
   */
  lemma {:induction false} FlushOutcome(env: Env, w: Writer)
    requires Sound(w)
    ensures var (w', r) := Flush(env, w);
            match w.state
            case Writing(uploads, buffer, partNumber, _) =>
              && w'.world.polls == w.world.polls + |uploads|
              && w'.state.Writing? && w'.state.buffer == buffer && w'.state.partNumber == partNumber
              && |w'.state.uploads| == NotReadyAmong(env, w.world.polls, |uploads|)
              && (IsErr(r) <==> !NoFailureIn(env, w.world.polls, w'.world.polls))
              && (IsErr(r) ==> r.value.error == RequestFailed)
              && (r == Ready(Ok(())) <==> !IsErr(r) && w'.state.uploads == [])
            case NoState => r == Ready(Err(StateIsNone)) && w' == w
            case _ => r == Ready(Err(FlushAfterClose)) && w' == w
  {
    if w.state.Writing? {
      CheckOutcome(env, w.world, w.state.uploads, w.state.completed);
    }
  }

  // ---- close ----

  /** A close can still succeed. */
  predicate InUse(w: Writer) {
    w.state.Writing? || w.state.CompletingParts? || w.state.Completing?
  }

  lemma {:induction false} StopWritingOutcome(env: Env, w: Writer, c: Checked, buffer: seq<byte>, partNumber: int)
    requires 0 < w.partSize && |c.uploads| < w.maxUploads
    ensures var (w', r) := StopWriting(env, w, c, buffer, partNumber);
            && w'.world.polls == c.world.polls + |c.uploads| + (if buffer == [] then 0 else 1)
            && w'.issued == w.issued + (if buffer == [] then [] else [Part(partNumber, buffer)])
            && (if NoFailureIn(env, c.world.polls, w'.world.polls)
                then r.Pending? && w'.state.CompletingParts?
                else r == Ready(Err(RequestFailed)) && w'.state.NoState?)
  {
    var last := if buffer == [] then [] else [Part(partNumber, buffer)];
    CheckOutcome(env, c.world, c.uploads + Start(last), c.completed);
  }

  lemma {:induction false} CloseWritingOutcome(env: Env, w: Writer)
    requires Sound(w) && w.state.Writing?
    ensures var Writing(uploads, buffer, partNumber, completed) := w.state;
            var still := CheckUploads(env, w.world, uploads, completed).uploads;
            var (w', r) := Close(env, w);
            && w.world.polls + |uploads| <= w'.world.polls
            && (if NoFailureIn(env, w.world.polls, w'.world.polls)
                then
                  && r.Pending?
                  && (if |still| == w.maxUploads
                      then w'.state.Writing? && w'.state.buffer == buffer && w'.issued == w.issued
                      else && w'.state.CompletingParts?
                           && w'.issued == w.issued + if buffer == [] then [] else [Part(partNumber, buffer)])
                else r == Ready(Err(RequestFailed)) && w'.state.NoState?)
  {
    var Writing(uploads, buffer, partNumber, completed) := w.state;
    var c := CheckUploads(env, w.world, uploads, completed);
    CloseByCases(env, w);
    CheckOutcome(env, w.world, uploads, completed);
    if c.outcome.Ok? && |c.uploads| < w.maxUploads {
      StopWritingOutcome(env, w.(world := c.world, state := NoState), c, buffer, partNumber);
      NoFailureInTwo(env, w.world.polls, c.world.polls, Close(env, w).0.world.polls);
    }
  }

  /**
   A close fails exactly when a request it polls has failed; it succeeds exactly when the completion it
   polls has succeeded; else it is pending and closing goes on. A close that is pending while bytes are
   accepted has, if there is room for it, started the upload of the last part; a writer of which
   nothing is in flight any more has submitted its list; one that has submitted it waits for the answer
   to that request. After a failure or a close, a close polls nothing and fails.
   */
  lemma {:induction false} CloseOutcome(env: Env, w: Writer)
    requires Sound(w)
    ensures var (w', r) := Close(env, w);
            && (InUse(w) ==>
                  && w.world.polls <= w'.world.polls
                  && (IsErr(r) <==> !NoFailureIn(env, w.world.polls, w'.world.polls))
                  && (IsErr(r) ==> r.value.error == RequestFailed)
                  && (r == Ready(Ok(())) <==> w.state.Completing? && env(w.world.polls).Succeeded?)
                  && (r.Pending? <==> InUse(w'))
                  && (w'.state.Closed? <==> w.state.Completing? && r.Ready?))
            && match w.state
               case Writing(_, _, _, _) => !w'.state.Completing?
               case CompletingParts(uploads, _) => w'.state.Completing? <==> uploads == []
               case Completing(request, _) =>
                 && w'.world.polls == w.world.polls + 1
                 && (r.Pending? ==> w'.state == Completing(request, Some(w.world.polls)))
               case NoState => r == Ready(Err(StateIsNone)) && w' == w
               case Closed => r == Ready(Err(CloseAfterClose)) && w' == w.(state := NoState)
  {
    match w.state
    case Writing(_, _, _, _) => CloseWritingOutcome(env, w);
    case CompletingParts(uploads, completed) => CheckOutcome(env, w.world, uploads, completed);
    case _ =>
  }
}
