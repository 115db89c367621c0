/** The simple writer: it keeps every byte, and sends them in one request when it is closed. */
module PutObject {
  import opened Prelude
  import opened AsyncWriting

  datatype PutState = PutWriting | PutClosing(body: seq<byte>) | PutClosed

  /** The writer and its history: the bodies it sent, what the service stored, how often it woke its task. */
  datatype Put = Put(
    buf: seq<byte>,
    state: PutState,
    polls: nat,
    sent: seq<seq<byte>>,
    stored: Option<seq<byte>>,
    woken: nat)

  const NEW_PUT := Put([], PutWriting, 0, [], None, 0)

  function PutWrite(p: Put, buf: seq<byte>): (r: (Put, Poll<Result<nat, Error>>)) {
    match p.state
    case PutWriting => (p.(buf := p.buf + buf), Ready(Ok(|buf|)))
    case _ => (p, Ready(Err(WriteAfterClose)))
  }

  function PutFlush(p: Put): (r: (Put, Poll<Result<(), Error>>)) {
    match p.state
    case PutWriting => (p, Ready(Ok(())))
    case _ => (p, Ready(Err(FlushAfterClose)))
  }

  function PutClose(env: Env, p: Put): (r: (Put, Poll<Result<(), Error>>)) {
    match p.state
    case PutWriting =>
      (p.(buf := [], state := PutClosing(p.buf), sent := p.sent + [p.buf], woken := p.woken + 1), Pending)
    case PutClosing(body) =>
      var answer := env(p.polls);
      var p := p.(polls := p.polls + 1);
      (match answer
       case NotReady => (p, Pending)
       case Succeeded(_) => (p.(state := PutClosed, stored := Some(body)), Ready(Ok(())))
       case Failed(_) => (p.(state := PutClosed), Ready(Err(RequestFailed))))
    case PutClosed => (p, Ready(Err(CloseAfterClose)))
  }

  function PutStep(env: Env, p: Put, call: Call): (r: (Put, Outcome)) {
    match call
    case WriteCall(buf) => var (p', r) := PutWrite(p, buf); (p', Wrote(r))
    case FlushCall => var (p', r) := PutFlush(p); (p', Flushed(r))
    case CloseCall => var (p', r) := PutClose(env, p); (p', ClosedWith(r))
  }

  function PutRun(env: Env, p: Put, calls: seq<Call>): (r: (Put, seq<Outcome>))
    ensures |r.1| == |calls|
    decreases |calls|
  {
    if calls == [] then
      (p, [])
    else
      var (p1, outcomes) := PutRun(env, p, calls[..|calls|-1]);
      var (p2, outcome) := PutStep(env, p1, calls[|calls|-1]);
      (p2, outcomes + [outcome])
  }

  /** What the writer has kept or sent is exactly what it accepted. */
  ghost predicate KeepsAccepted(p: Put, accepted: seq<byte>) {
    match p.state
    case PutWriting => p.buf == accepted && p.sent == [] && p.stored == None
    case PutClosing(body) => body == accepted && p.sent == [accepted] && p.stored == None
    case PutClosed => p.sent == [accepted] && (p.stored == None || p.stored == Some(accepted))
  }

  lemma {:induction false} PutKeepsAccepted(env: Env, calls: seq<Call>)
    ensures var (p, outcomes) := PutRun(env, NEW_PUT, calls);
            KeepsAccepted(p, Accepted(calls, outcomes))
    decreases |calls|
  {
    if calls != [] {
      var n := |calls| - 1;
      PutKeepsAccepted(env, calls[..n]);
      var (p1, outcomes) := PutRun(env, NEW_PUT, calls[..n]);
      var (_, outcome) := PutStep(env, p1, calls[n]);
      assert (outcomes + [outcome])[..n] == outcomes;
      var accepted := Accepted(calls[..n], outcomes);
      assert accepted + [] == accepted;
      if calls[n].WriteCall? {
        assert calls[n].buf[..|calls[n].buf|] == calls[n].buf;
      }
    }
  }

  /** A successful close stores all accepted bytes, sent as one body in one request. */
  lemma {:induction false} PutEndToEnd(env: Env, calls: seq<Call>)
    requires var outcomes := PutRun(env, NEW_PUT, calls).1;
             outcomes != [] && outcomes[|outcomes|-1] == ClosedWith(Ready(Ok(())))
    ensures var (p, outcomes) := PutRun(env, NEW_PUT, calls);
            && p.sent == [Accepted(calls, outcomes)]
            && p.stored == Some(Accepted(calls, outcomes))
  {
    PutKeepsAccepted(env, calls);
  }

  // ---- what each call answers ----

  predicate Begun(calls: seq<Call>) {
    exists i :: 0 <= i < |calls| && calls[i].CloseCall?
  }

  predicate Ended(outcomes: seq<Outcome>) {
    exists i :: 0 <= i < |outcomes| && outcomes[i].ClosedWith? && outcomes[i].close.Ready?
  }

  lemma {:induction false} BegunSnoc(calls: seq<Call>, call: Call)
    ensures Begun(calls + [call]) <==> Begun(calls) || call.CloseCall?
  {
    assert (calls + [call])[|calls|] == call;
    assert forall i :: 0 <= i < |calls| ==> (calls + [call])[i] == calls[i];
  }

  lemma {:induction false} EndedSnoc(outcomes: seq<Outcome>, outcome: Outcome)
    ensures Ended(outcomes + [outcome]) <==> Ended(outcomes) || (outcome.ClosedWith? && outcome.close.Ready?)
  {
    assert (outcomes + [outcome])[|outcomes|] == outcome;
    assert forall i :: 0 <= i < |outcomes| ==> (outcomes + [outcome])[i] == outcomes[i];
  }

  /** The state says whether a close has been called, and whether one has been answered. */
  lemma {:induction false} PutPhase(env: Env, calls: seq<Call>)
    ensures var (p, outcomes) := PutRun(env, NEW_PUT, calls);
            && (p.state.PutWriting? <==> !Begun(calls))
            && (p.state.PutClosed? <==> Ended(outcomes))
            && |p.sent| == p.woken == if Begun(calls) then 1 else 0
    decreases |calls|
  {
    if calls != [] {
      var n := |calls| - 1;
      PutPhase(env, calls[..n]);
      var (p, outcomes) := PutRun(env, NEW_PUT, calls[..n]);
      BegunSnoc(calls[..n], calls[n]);
      EndedSnoc(outcomes, PutStep(env, p, calls[n]).1);
      assert calls == calls[..n] + [calls[n]];
    }
  }

  /**
   The protocol of the simple writer: until a close is called, every write takes all its bytes and every
   flush succeeds; from then on both fail. The first close sends the request and is pending; later ones
   answer what the request answers, until it has; after that they fail.
   */
  lemma {:induction false} PutProtocol(env: Env, calls: seq<Call>, call: Call)
    ensures var (p, outcomes) := PutRun(env, NEW_PUT, calls);
            var (p', outcome) := PutStep(env, p, call);
            && |p'.sent| == p'.woken == (if Begun(calls + [call]) then 1 else 0)
            && match call
               case WriteCall(buf) =>
                 outcome == Wrote(Ready(if Begun(calls) then Err(WriteAfterClose) else Ok(|buf|)))
               case FlushCall =>
                 outcome == Flushed(Ready(if Begun(calls) then Err(FlushAfterClose) else Ok(())))
               case CloseCall =>
                 outcome == ClosedWith(
                   if !Begun(calls) then Pending
                   else if Ended(outcomes) then Ready(Err(CloseAfterClose))
                   else if env(p.polls).NotReady? then Pending
                   else if env(p.polls).Succeeded? then Ready(Ok(()))
                   else Ready(Err(RequestFailed)))
  {
    PutPhase(env, calls);
    BegunSnoc(calls, call);
  }

  class AsyncPutObject {
    const env: Env
    var buf: seq<byte>
    var state: PutState
    var polls: nat

    // history
    ghost var sent: seq<seq<byte>>
    ghost var stored: Option<seq<byte>>
    ghost var woken: nat

    ghost function View(): (p: Put)
      reads this
    {
      Put(buf, state, polls, sent, stored, woken)
    }

    constructor (env: Env)
      ensures View() == NEW_PUT && this.env == env
    {
      this.env := env;
      buf, state, polls := [], PutWriting, 0;
      sent, stored, woken := [], None, 0;
    }

    method PollWrite(bytes: seq<byte>) returns (r: Poll<Result<nat, Error>>)
      modifies this
      ensures (View(), r) == PutWrite(old(View()), bytes)
    {
      if state.PutWriting? {
        buf := buf + bytes;
        return Ready(Ok(|bytes|));
      }
      return Ready(Err(WriteAfterClose));
    }

    method PollFlush() returns (r: Poll<Result<(), Error>>)
      ensures (View(), r) == PutFlush(View())
    {
      if state.PutWriting? {
        return Ready(Ok(()));
      }
      return Ready(Err(FlushAfterClose));
    }

    method PollClose() returns (r: Poll<Result<(), Error>>)
      modifies this
      ensures (View(), r) == PutClose(env, old(View()))
    {
      match state {
        case PutWriting =>
          var body := buf;
          buf := [];
          state := PutClosing(body);
          sent := sent + [body];
          woken := woken + 1;
          return Pending;
        case PutClosing(body) =>
          var answer := env(polls);
          polls := polls + 1;
          match answer {
            case NotReady =>
              return Pending;
            case Succeeded(_) =>
              stored := Some(body);
              state := PutClosed;
              return Ready(Ok(()));
            case Failed(_) =>
              state := PutClosed;
              return Ready(Err(RequestFailed));
          }
        case PutClosed =>
          return Ready(Err(CloseAfterClose));
      }
    }
  }
}
