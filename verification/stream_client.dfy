/**
 * The device side of a device stream: `DeviceStreamClient.RunClientAsync`
 * and the `RunClient` wrapper.
 *
 * Every collaborator call (the device client's wait/accept/reject/close, the
 * web-socket factory and the socket's receive/send/close) is replaced by a
 * scripted reply: it either returns a value or throws an exception. A run is
 * then a pure function of the accept flag, the text callback, the text codec
 * and the script, and yields the calls issued, in order, and how the run ended.
 */
module DeviceStreamClient {
  import opened Basics
  import opened Exceptions

  /** Size of the receive buffer: one frame of at most this many bytes is read. */
  const BufferSize: nat := 1024

  /** The stream request the hub delivers: where to connect and with what token. */
  datatype StreamRequest = StreamRequest(url: string, authorizationToken: string)

  /** The scripted reply of one collaborator call. */
  datatype Reply<+T> = Ok(value: T) | Throws(exn: Exn)

  /** The callback that turns the received text into the text sent back. */
  type TextTransform = string -> string

  /** UTF-8 decoding and encoding of the frame, which the model does not open up. */
  datatype Codec = Codec(decode: seq<byte> -> string, encode: string -> seq<byte>)

  /**
   * What each collaborator call of one run will do. `tokenSource` is the
   * construction of the `CancellationTokenSource` (its timer is not modelled);
   * `wait` returns `None` for a null request; `receive` returns the frame the
   * peer sent, of which only a buffer's worth is read.
   */
  datatype Script = Script(
    tokenSource: Reply<()>,
    wait: Reply<Option<StreamRequest>>,
    accept: Reply<()>,
    reject: Reply<()>,
    openSocket: Reply<()>,
    receive: Reply<seq<byte>>,
    send: Reply<()>,
    closeSocket: Reply<()>,
    closeClient: Reply<()>)

  /** A call issued during a run. A call that throws is still recorded. */
  datatype Action =
    | CreateClient(connectionString: string)
    | WaitForRequest
    | AcceptRequest(request: StreamRequest)
    | RejectRequest(request: StreamRequest)
    | OpenSocket(url: string, authorizationToken: string)
    | Receive
    | Send(payload: seq<byte>)
    | CloseSocket
    | DisposeSocket
    | CloseClient
    | DisposeClient

  /** How a run ended: normally, with one diagnostic line, or with an exception escaping. */
  datatype Outcome = Completed | Logged(line: LogLine) | Escaped(exn: Exn)

  /** The calls issued by a run and how it ended. */
  datatype Run = Run(trace: seq<Action>, outcome: Outcome)

  /** A try block in progress: the calls issued so far and the exception in flight, if any. */
  datatype Attempt = Attempt(trace: seq<Action>, thrown: Option<Exn>)

  /** Position of each call in the protocol; a run issues calls in strictly increasing rank. */
  function Rank(a: Action): nat
  {
    match a
    case CreateClient(_) => 0
    case WaitForRequest => 1
    case AcceptRequest(_) => 2
    case RejectRequest(_) => 2
    case OpenSocket(_, _) => 3
    case Receive => 4
    case Send(_) => 5
    case CloseSocket => 6
    case DisposeSocket => 7
    case CloseClient => 8
    case DisposeClient => 9
  }

  /** Strictly increasing rank: protocol order, and no call issued twice. */
  ghost predicate InProtocolOrder(trace: seq<Action>)
  {
    forall i, j :: 0 <= i < j < |trace| ==> Rank(trace[i]) < Rank(trace[j])
  }

  /** The exception the script makes a call of this kind throw; disposals never throw. */
  function FailureOf(a: Action, s: Script): Option<Exn>
  {
    match a
    case WaitForRequest => if s.wait.Throws? then Some(s.wait.exn) else None
    case AcceptRequest(_) => if s.accept.Throws? then Some(s.accept.exn) else None
    case RejectRequest(_) => if s.reject.Throws? then Some(s.reject.exn) else None
    case OpenSocket(_, _) => if s.openSocket.Throws? then Some(s.openSocket.exn) else None
    case Receive => if s.receive.Throws? then Some(s.receive.exn) else None
    case Send(_) => if s.send.Throws? then Some(s.send.exn) else None
    case CloseSocket => if s.closeSocket.Throws? then Some(s.closeSocket.exn) else None
    case CloseClient => if s.closeClient.Throws? then Some(s.closeClient.exn) else None
    case _ => None
  }

  // ---------------------------------------------------------------------------
  // Try-block sequencing

  /** Issue one call whose reply is scripted. */
  function Call<T>(a: Action, reply: Reply<T>): Attempt
  {
    Attempt([a], if reply.Throws? then Some(reply.exn) else None)
  }

  /** Statement sequencing inside a try: once something throws, nothing after it runs. */
  function AndThen(first: Attempt, next: Attempt): (r: Attempt)
    ensures first.thrown.Some? ==> r == first
    ensures first.thrown.None? ==> r.trace == first.trace + next.trace && r.thrown == next.thrown
  {
    if first.thrown.Some? then first
    else Attempt(first.trace + next.trace, next.thrown)
  }

  /**
   * The end of a try block: its handlers absorb what they catch; an exception
   * no clause catches keeps propagating.
   */
  function Handle(site: Site, thrown: Option<Exn>): Outcome
  {
    match thrown
    case None => Completed
    case Some(e) =>
      match Dispatch(StandardLadder, e)
      case Some(text) => Logged(LogLine(site, text))
      case None => Escaped(e)
  }

  /** An exception escaping an inner try block reaches the enclosing one's handlers. */
  function Rethrow(o: Outcome, site: Site): Outcome
  {
    if o.Escaped? then Handle(site, Some(o.exn)) else o
  }

  /** Every exception is absorbed by the handlers, with the flat classification's text. */
  lemma HandleAbsorbs(site: Site, thrown: Option<Exn>)
    ensures thrown.None? ==> Handle(site, thrown) == Completed
    ensures thrown.Some? ==> Handle(site, thrown) == Logged(LogLine(site, Classify(thrown.value)))
  {
    if thrown.Some? {
      StandardLadderClassifies(thrown.value);
    }
  }

  // ---------------------------------------------------------------------------
  // RunClientAsync

  /** The bytes `ReceiveAsync` places in the 1024-byte buffer: at most a buffer's worth. */
  function Consumed(frame: seq<byte>): (r: seq<byte>)
    ensures |r| <= BufferSize && |r| <= |frame|
    ensures r == frame[..|r|]
    ensures |frame| <= BufferSize ==> r == frame
    ensures |frame| > BufferSize ==> |r| == BufferSize
  {
    frame[..Min(|frame|, BufferSize)]
  }

  /** `msgOut`: the callback's answer, or the received text itself when no callback is set. */
  function Answer(onRecvdTextIO: Option<TextTransform>, msgIn: string): string
  {
    match onRecvdTextIO
    case None => msgIn
    case Some(f) => f(msgIn)
  }

  /** The bytes sent back for a received frame. */
  function Payload(onRecvdTextIO: Option<TextTransform>, codec: Codec, frame: seq<byte>): seq<byte>
  {
    codec.encode(Answer(onRecvdTextIO, codec.decode(Consumed(frame))))
  }

  /** Receive one frame, send the answer, close the socket. */
  function Exchange(onRecvdTextIO: Option<TextTransform>, codec: Codec, s: Script): Attempt
  {
    match s.receive
    case Throws(e) => Attempt([Receive], Some(e))
    case Ok(frame) =>
      var sent := Call(Send(Payload(onRecvdTextIO, codec, frame)), s.send);
      var closed := Call(CloseSocket, s.closeSocket);
      AndThen(Attempt([Receive], None), AndThen(sent, closed))
  }

  /**
   * The `using` block around the web socket: if the socket is obtained, it is
   * disposed on every way out of the block, normal or exceptional.
   */
  function UsingSocket(request: StreamRequest, onRecvdTextIO: Option<TextTransform>, codec: Codec, s: Script): Attempt
  {
    var open := OpenSocket(request.url, request.authorizationToken);
    match s.openSocket
    case Throws(e) => Attempt([open], Some(e))
    case Ok(_) =>
      var body := Exchange(onRecvdTextIO, codec, s);
      Attempt([open] + body.trace + [DisposeSocket], body.thrown)
  }

  /** The accept or reject decision for a request that arrived. */
  function Decide(acceptRequest: bool, request: StreamRequest, onRecvdTextIO: Option<TextTransform>, codec: Codec, s: Script): Attempt
  {
    if acceptRequest then
      AndThen(Call(AcceptRequest(request), s.accept), UsingSocket(request, onRecvdTextIO, codec, s))
    else
      Call(RejectRequest(request), s.reject)
  }

  /** What follows a wait that returned: the decision if a request came, nothing for a null one. */
  function Decided(acceptRequest: bool, onRecvdTextIO: Option<TextTransform>, codec: Codec, s: Script): Attempt
  {
    match s.wait
    case Ok(Some(request)) => Decide(acceptRequest, request, onRecvdTextIO, codec, s)
    case _ => Attempt([], None)
  }

  /** The inner try block: wait, decide on a request if one came, close the device client. */
  function NegotiateBody(acceptRequest: bool, onRecvdTextIO: Option<TextTransform>, codec: Codec, s: Script): Attempt
  {
    var waited := Call(WaitForRequest, s.wait);
    AndThen(waited, AndThen(Decided(acceptRequest, onRecvdTextIO, codec, s), Call(CloseClient, s.closeClient)))
  }

  /**
   * `RunClientAsync(acceptDeviceStreamingRequest)`: the inner try's handlers
   * log with site 1; anything they let through, or a failure creating the
   * cancellation token source, reaches the outer handlers, which log with site 2.
   */
  function RunClientAsync(acceptRequest: bool, onRecvdTextIO: Option<TextTransform>, codec: Codec, s: Script): (r: Run)
    ensures !r.outcome.Escaped?
    ensures InProtocolOrder(r.trace) && RanksWithin(r.trace, 1, 8)
  {
    match s.tokenSource
    case Throws(e) =>
      HandleAbsorbs(Site2, Some(e));
      Run([], Handle(Site2, Some(e)))
    case Ok(_) =>
      var body := NegotiateBody(acceptRequest, onRecvdTextIO, codec, s);
      HandleAbsorbs(Site1, body.thrown);
      NegotiateOrder(acceptRequest, onRecvdTextIO, codec, s);
      Run(body.trace, Rethrow(Handle(Site1, body.thrown), Site2))
  }

  /** The parameterless `RunClientAsync()`: it accepts every request. */
  function RunClientAsyncDefault(onRecvdTextIO: Option<TextTransform>, codec: Codec, s: Script): (r: Run)
    ensures forall a :: a in r.trace ==> !a.RejectRequest?
    ensures s.tokenSource.Ok? && s.wait.Ok? && s.wait.value.Some? ==> AcceptRequest(s.wait.value.value) in r.trace
  {
    AcceptingNeverRejects(onRecvdTextIO, codec, s);
    RunClientAsync(true, onRecvdTextIO, codec, s)
  }

  /**
   * With the accept flag set, an arrived request is accepted; since accept and
   * reject share a rank, the protocol order leaves no room for a reject.
   */
  lemma AcceptingNeverRejects(onRecvdTextIO: Option<TextTransform>, codec: Codec, s: Script)
    ensures var r := RunClientAsync(true, onRecvdTextIO, codec, s);
            && (forall a :: a in r.trace ==> !a.RejectRequest?)
            && (s.tokenSource.Ok? && s.wait.Ok? && s.wait.value.Some? ==> AcceptRequest(s.wait.value.value) in r.trace)
  {
    var r := RunClientAsync(true, onRecvdTextIO, codec, s);
    if s.tokenSource.Ok? && s.wait.Ok? && s.wait.value.Some? {
      var request := s.wait.value.value;
      var tail := AndThen(Decide(true, request, onRecvdTextIO, codec, s), Call(CloseClient, s.closeClient));
      assert r.trace == [WaitForRequest] + tail.trace;
      assert r.trace[1] == AcceptRequest(request);
      forall a | a in r.trace
        ensures !a.RejectRequest?
      {
        var i :| 0 <= i < |r.trace| && r.trace[i] == a;
        if i < 1 {
          assert a == WaitForRequest;
        } else if i > 1 {
          assert Rank(r.trace[1]) < Rank(r.trace[i]);
        }
      }
    }
  }

  /** Every call of the trace has a rank in `lo..hi`. */
  ghost predicate RanksWithin(trace: seq<Action>, lo: nat, hi: nat)
  {
    forall i :: 0 <= i < |trace| ==> lo <= Rank(trace[i]) <= hi
  }

  /** Two ordered traces, the second entirely above the first, concatenate to an ordered trace. */
  lemma OrderedConcat(a: seq<Action>, b: seq<Action>, lo: nat, mid: nat, hi: nat)
    requires lo <= mid < hi
    requires InProtocolOrder(a) && RanksWithin(a, lo, mid)
    requires InProtocolOrder(b) && RanksWithin(b, mid + 1, hi)
    ensures InProtocolOrder(a + b) && RanksWithin(a + b, lo, hi)
  {
    var c := a + b;
    forall i, j | 0 <= i < j < |c|
      ensures Rank(c[i]) < Rank(c[j])
    {
      if j < |a| {
        assert c[i] == a[i] && c[j] == a[j];
      } else if i >= |a| {
        assert c[i] == b[i - |a|] && c[j] == b[j - |a|];
      } else {
        assert c[i] == a[i] && c[j] == b[j - |a|];
      }
    }
    forall i | 0 <= i < |c|
      ensures lo <= Rank(c[i]) <= hi
    {
      if i < |a| {
        assert c[i] == a[i];
      } else {
        assert c[i] == b[i - |a|];
      }
    }
  }

  lemma ExchangeOrder(onRecvdTextIO: Option<TextTransform>, codec: Codec, s: Script)
    ensures var t := Exchange(onRecvdTextIO, codec, s).trace;
            InProtocolOrder(t) && RanksWithin(t, 4, 6)
  {
    if s.receive.Ok? {
      var sent := Call(Send(Payload(onRecvdTextIO, codec, s.receive.value)), s.send);
      var closed := Call(CloseSocket, s.closeSocket);
      if s.send.Ok? {
        OrderedConcat(sent.trace, closed.trace, 5, 5, 6);
      }
      OrderedConcat([Receive], AndThen(sent, closed).trace, 4, 4, 6);
    }
  }

  lemma UsingSocketOrder(request: StreamRequest, onRecvdTextIO: Option<TextTransform>, codec: Codec, s: Script)
    ensures var t := UsingSocket(request, onRecvdTextIO, codec, s).trace;
            InProtocolOrder(t) && RanksWithin(t, 3, 7)
  {
    if s.openSocket.Ok? {
      var body := Exchange(onRecvdTextIO, codec, s);
      ExchangeOrder(onRecvdTextIO, codec, s);
      OrderedConcat(body.trace, [DisposeSocket], 4, 6, 7);
      OrderedConcat([OpenSocket(request.url, request.authorizationToken)], body.trace + [DisposeSocket], 3, 3, 7);
      assert [OpenSocket(request.url, request.authorizationToken)] + body.trace + [DisposeSocket]
          == [OpenSocket(request.url, request.authorizationToken)] + (body.trace + [DisposeSocket]);
    }
  }

  lemma DecideOrder(acceptRequest: bool, request: StreamRequest, onRecvdTextIO: Option<TextTransform>, codec: Codec, s: Script)
    ensures var t := Decide(acceptRequest, request, onRecvdTextIO, codec, s).trace;
            InProtocolOrder(t) && RanksWithin(t, 2, 7)
  {
    if acceptRequest && s.accept.Ok? {
      UsingSocketOrder(request, onRecvdTextIO, codec, s);
      OrderedConcat([AcceptRequest(request)], UsingSocket(request, onRecvdTextIO, codec, s).trace, 2, 2, 7);
    }
  }

  /** The calls of the inner try block follow the protocol order. */
  lemma NegotiateOrder(acceptRequest: bool, onRecvdTextIO: Option<TextTransform>, codec: Codec, s: Script)
    ensures var t := NegotiateBody(acceptRequest, onRecvdTextIO, codec, s).trace;
            InProtocolOrder(t) && RanksWithin(t, 1, 8)
  {
    var decided := Decided(acceptRequest, onRecvdTextIO, codec, s);
    if s.wait.Ok? {
      if s.wait.value.Some? {
        DecideOrder(acceptRequest, s.wait.value.value, onRecvdTextIO, codec, s);
      }
      assert InProtocolOrder(decided.trace) && RanksWithin(decided.trace, 2, 7);
      var tail := AndThen(decided, Call(CloseClient, s.closeClient));
      if decided.thrown.None? {
        OrderedConcat(decided.trace, [CloseClient], 2, 7, 8);
      }
      assert InProtocolOrder(tail.trace) && RanksWithin(tail.trace, 2, 8);
      OrderedConcat([WaitForRequest], tail.trace, 1, 1, 8);
      assert NegotiateBody(acceptRequest, onRecvdTextIO, codec, s).trace == [WaitForRequest] + tail.trace;
    }
  }

  // ---------------------------------------------------------------------------
  // A failing call is the last call issued

  /** Every call of the trace got a normal reply from the script. */
  ghost predicate AllSucceed(trace: seq<Action>, s: Script)
  {
    forall i :: 0 <= i < |trace| ==> FailureOf(trace[i], s).None?
  }

  /**
   * The call at `k` threw, every call before it returned normally, and only
   * socket disposals (from a `using` block being left) come after it.
   */
  ghost predicate FailsAt(trace: seq<Action>, s: Script, k: int)
  {
    && 0 <= k < |trace|
    && FailureOf(trace[k], s).Some?
    && AllSucceed(trace[..k], s)
    && forall i :: k < i < |trace| ==> trace[i] == DisposeSocket
  }

  /** The exception in flight, if any, is the one thrown by the first failing call. */
  ghost predicate StopsAtFirstFailure(att: Attempt, s: Script)
  {
    match att.thrown
    case None => AllSucceed(att.trace, s)
    case Some(e) => exists k :: FailsAt(att.trace, s, k) && FailureOf(att.trace[k], s) == Some(e)
  }

  lemma CallStops<T>(a: Action, reply: Reply<T>, s: Script)
    requires FailureOf(a, s) == if reply.Throws? then Some(reply.exn) else None
    ensures StopsAtFirstFailure(Call(a, reply), s)
  {
    if reply.Throws? {
      assert FailsAt([a], s, 0);
    }
  }

  lemma AndThenStops(first: Attempt, next: Attempt, s: Script)
    requires StopsAtFirstFailure(first, s) && StopsAtFirstFailure(next, s)
    ensures StopsAtFirstFailure(AndThen(first, next), s)
  {
    if first.thrown.None? {
      var t := first.trace + next.trace;
      if next.thrown.Some? {
        var k :| FailsAt(next.trace, s, k) && FailureOf(next.trace[k], s) == next.thrown;
        assert t[|first.trace| + k] == next.trace[k];
        assert t[..|first.trace| + k] == first.trace + next.trace[..k];
        forall i | k + |first.trace| < i < |t|
          ensures t[i] == DisposeSocket
        {
          assert t[i] == next.trace[i - |first.trace|];
        }
        assert FailsAt(t, s, |first.trace| + k);
      } else {
        forall i | 0 <= i < |t|
          ensures FailureOf(t[i], s).None?
        {
          if i >= |first.trace| {
            assert t[i] == next.trace[i - |first.trace|];
          }
        }
      }
    }
  }

  /** Leaving a `using` block after its body adds a disposal, which never throws. */
  lemma DisposeStops(att: Attempt, s: Script)
    requires StopsAtFirstFailure(att, s)
    ensures StopsAtFirstFailure(Attempt(att.trace + [DisposeSocket], att.thrown), s)
  {
    var t := att.trace + [DisposeSocket];
    if att.thrown.Some? {
      var k :| FailsAt(att.trace, s, k) && FailureOf(att.trace[k], s) == att.thrown;
      assert t[..k] == att.trace[..k];
      assert FailsAt(t, s, k);
    } else {
      assert forall i :: 0 <= i < |att.trace| ==> t[i] == att.trace[i];
    }
  }

  lemma ExchangeStops(onRecvdTextIO: Option<TextTransform>, codec: Codec, s: Script)
    ensures StopsAtFirstFailure(Exchange(onRecvdTextIO, codec, s), s)
  {
    match s.receive
    case Throws(e) =>
      CallStops(Receive, s.receive, s);
    case Ok(frame) =>
      var sent := Call(Send(Payload(onRecvdTextIO, codec, frame)), s.send);
      var closed := Call(CloseSocket, s.closeSocket);
      CallStops(Send(Payload(onRecvdTextIO, codec, frame)), s.send, s);
      CallStops(CloseSocket, s.closeSocket, s);
      AndThenStops(sent, closed, s);
      CallStops(Receive, s.receive, s);
      AndThenStops(Attempt([Receive], None), AndThen(sent, closed), s);
  }

  lemma UsingSocketStops(request: StreamRequest, onRecvdTextIO: Option<TextTransform>, codec: Codec, s: Script)
    ensures StopsAtFirstFailure(UsingSocket(request, onRecvdTextIO, codec, s), s)
  {
    var open := OpenSocket(request.url, request.authorizationToken);
    CallStops(open, s.openSocket, s);
    if s.openSocket.Ok? {
      var body := Exchange(onRecvdTextIO, codec, s);
      ExchangeStops(onRecvdTextIO, codec, s);
      DisposeStops(body, s);
      var disposed := Attempt(body.trace + [DisposeSocket], body.thrown);
      AndThenStops(Call(open, s.openSocket), disposed, s);
      assert [open] + body.trace + [DisposeSocket] == [open] + (body.trace + [DisposeSocket]);
    }
  }

  lemma NegotiateStops(acceptRequest: bool, onRecvdTextIO: Option<TextTransform>, codec: Codec, s: Script)
    ensures StopsAtFirstFailure(NegotiateBody(acceptRequest, onRecvdTextIO, codec, s), s)
  {
    var decided := Decided(acceptRequest, onRecvdTextIO, codec, s);
    if s.wait.Ok? && s.wait.value.Some? {
      var request := s.wait.value.value;
      if acceptRequest {
        CallStops(AcceptRequest(request), s.accept, s);
        UsingSocketStops(request, onRecvdTextIO, codec, s);
        AndThenStops(Call(AcceptRequest(request), s.accept), UsingSocket(request, onRecvdTextIO, codec, s), s);
      } else {
        CallStops(RejectRequest(request), s.reject, s);
      }
    }
    assert StopsAtFirstFailure(decided, s);
    CallStops(CloseClient, s.closeClient, s);
    AndThenStops(decided, Call(CloseClient, s.closeClient), s);
    CallStops(WaitForRequest, s.wait, s);
    AndThenStops(Call(WaitForRequest, s.wait), AndThen(decided, Call(CloseClient, s.closeClient)), s);
  }

  /** Without a failure, the inner try block ends by closing the device client. */
  lemma NegotiateEndsWithClose(acceptRequest: bool, onRecvdTextIO: Option<TextTransform>, codec: Codec, s: Script)
    ensures var b := NegotiateBody(acceptRequest, onRecvdTextIO, codec, s);
            b.thrown.None? ==> |b.trace| > 0 && b.trace[|b.trace| - 1] == CloseClient
  {
  }

  // ---------------------------------------------------------------------------
  // Properties of RunClientAsync

  /** A null request: nothing is accepted, rejected or opened; only the device client is closed. */
  lemma NullRequestOnlyClosesClient(acceptRequest: bool, onRecvdTextIO: Option<TextTransform>, codec: Codec, s: Script)
    requires s.tokenSource.Ok? && s.wait == Ok(None)
    ensures var r := RunClientAsync(acceptRequest, onRecvdTextIO, codec, s);
            && r.trace == [WaitForRequest, CloseClient]
            && r.outcome == if s.closeClient.Ok? then Completed else Logged(LogLine(Site1, Classify(s.closeClient.exn)))
  {
    HandleAbsorbs(Site1, if s.closeClient.Ok? then None else Some(s.closeClient.exn));
  }

  /**
   * Rejecting: exactly one reject is issued and no accept, socket, receive or
   * send; the device client is closed only if the reject went through.
   */
  lemma RejectNeverOpensSocket(onRecvdTextIO: Option<TextTransform>, codec: Codec, s: Script, request: StreamRequest)
    requires s.tokenSource.Ok? && s.wait == Ok(Some(request))
    ensures var r := RunClientAsync(false, onRecvdTextIO, codec, s);
            && r.trace == [WaitForRequest, RejectRequest(request)] + (if s.reject.Ok? then [CloseClient] else [])
            && forall a :: a in r.trace ==> !a.AcceptRequest? && !a.OpenSocket? && !a.Receive? && !a.Send?
  {
  }

  /**
   * Accepting with every call succeeding: accept, open the socket at the
   * request's URL with its token, receive, send the answer, close and dispose
   * the socket, then close the device client.
   */
  lemma AcceptPathOrder(onRecvdTextIO: Option<TextTransform>, codec: Codec, s: Script, request: StreamRequest, frame: seq<byte>)
    requires s.tokenSource.Ok? && s.wait == Ok(Some(request)) && s.receive == Ok(frame)
    requires s.accept.Ok? && s.openSocket.Ok? && s.send.Ok? && s.closeSocket.Ok? && s.closeClient.Ok?
    ensures var r := RunClientAsync(true, onRecvdTextIO, codec, s);
            && r.outcome == Completed
            && r.trace == [WaitForRequest, AcceptRequest(request),
                           OpenSocket(request.url, request.authorizationToken), Receive,
                           Send(codec.encode(Answer(onRecvdTextIO, codec.decode(Consumed(frame))))),
                           CloseSocket, DisposeSocket, CloseClient]
  {
  }

  /**
   * What is sent is the callback's answer to the text decoded from the bytes
   * read, which are at most a buffer's worth; without a callback the text read
   * is sent back unchanged.
   */
  lemma SentPayload(acceptRequest: bool, onRecvdTextIO: Option<TextTransform>, codec: Codec, s: Script, payload: seq<byte>)
    requires Send(payload) in RunClientAsync(acceptRequest, onRecvdTextIO, codec, s).trace
    ensures acceptRequest && s.receive.Ok?
    ensures |Consumed(s.receive.value)| <= BufferSize
    ensures onRecvdTextIO.Some? ==> payload == codec.encode(onRecvdTextIO.value(codec.decode(Consumed(s.receive.value))))
    ensures onRecvdTextIO.None? ==> payload == codec.encode(codec.decode(Consumed(s.receive.value)))
  {
  }

  /** Only the call at the failing position threw. */
  lemma FailsAtUnique(trace: seq<Action>, s: Script, k: int)
    requires FailsAt(trace, s, k)
    ensures forall i :: 0 <= i < |trace| && i != k ==> FailureOf(trace[i], s).None?
  {
    forall i | 0 <= i < k
      ensures FailureOf(trace[i], s).None?
    {
      assert trace[..k][i] == trace[i];
    }
  }

  /**
   * A call that throws is the last call issued (only the socket's disposal
   * follows), and the run logs that exception's classification from site 1.
   */
  lemma FailureStopsLaterSteps(acceptRequest: bool, onRecvdTextIO: Option<TextTransform>, codec: Codec, s: Script)
    ensures var r := RunClientAsync(acceptRequest, onRecvdTextIO, codec, s);
            forall i :: 0 <= i < |r.trace| && FailureOf(r.trace[i], s).Some? ==>
              && (forall j :: i < j < |r.trace| ==> r.trace[j] == DisposeSocket)
              && r.outcome == Logged(LogLine(Site1, Classify(FailureOf(r.trace[i], s).value)))
  {
    var b := NegotiateBody(acceptRequest, onRecvdTextIO, codec, s);
    NegotiateStops(acceptRequest, onRecvdTextIO, codec, s);
    HandleAbsorbs(Site1, b.thrown);
    if b.thrown.Some? {
      var k :| FailsAt(b.trace, s, k) && FailureOf(b.trace[k], s) == b.thrown;
      FailsAtUnique(b.trace, s, k);
    }
  }

  /** A failure creating the cancellation token source is logged from site 2 before any call. */
  lemma TokenSourceFailure(acceptRequest: bool, onRecvdTextIO: Option<TextTransform>, codec: Codec, s: Script)
    requires s.tokenSource.Throws?
    ensures var r := RunClientAsync(acceptRequest, onRecvdTextIO, codec, s);
            r.trace == [] && r.outcome == Logged(LogLine(Site2, Classify(s.tokenSource.exn)))
  {
    HandleAbsorbs(Site2, Some(s.tokenSource.exn));
  }

  /** The run completes normally exactly when no call threw. */
  lemma CompletedIffNoFailure(acceptRequest: bool, onRecvdTextIO: Option<TextTransform>, codec: Codec, s: Script)
    ensures var r := RunClientAsync(acceptRequest, onRecvdTextIO, codec, s);
            r.outcome == Completed <==> s.tokenSource.Ok? && AllSucceed(r.trace, s)
  {
    if s.tokenSource.Ok? {
      var b := NegotiateBody(acceptRequest, onRecvdTextIO, codec, s);
      NegotiateStops(acceptRequest, onRecvdTextIO, codec, s);
      HandleAbsorbs(Site1, b.thrown);
      if b.thrown.Some? {
        var k :| FailsAt(b.trace, s, k) && FailureOf(b.trace[k], s) == b.thrown;
      }
    } else {
      HandleAbsorbs(Site2, Some(s.tokenSource.exn));
    }
  }

  /**
   * The device client is closed exactly when every other call issued before
   * it returned normally: a failure anywhere skips the close.
   */
  lemma CloseOnlyAfterSuccess(acceptRequest: bool, onRecvdTextIO: Option<TextTransform>, codec: Codec, s: Script)
    ensures var r := RunClientAsync(acceptRequest, onRecvdTextIO, codec, s);
            CloseClient in r.trace
            <==> s.tokenSource.Ok? && forall i :: 0 <= i < |r.trace| && r.trace[i] != CloseClient ==> FailureOf(r.trace[i], s).None?
  {
    if s.tokenSource.Ok? {
      var b := NegotiateBody(acceptRequest, onRecvdTextIO, codec, s);
      NegotiateStops(acceptRequest, onRecvdTextIO, codec, s);
      NegotiateEndsWithClose(acceptRequest, onRecvdTextIO, codec, s);
      if b.thrown.Some? {
        var k :| FailsAt(b.trace, s, k) && FailureOf(b.trace[k], s) == b.thrown;
        FailsAtUnique(b.trace, s, k);
        if b.trace[k] != CloseClient {
          NegotiateOrder(acceptRequest, onRecvdTextIO, codec, s);
          forall j | 0 <= j < |b.trace|
            ensures b.trace[j] != CloseClient
          {
            if j < k {
              assert Rank(b.trace[j]) < Rank(b.trace[k]) <= 8;
            }
          }
        }
      }
    }
  }

  /** Once the socket has been obtained it is disposed, whichever socket call fails. */
  lemma SocketAlwaysDisposed(acceptRequest: bool, onRecvdTextIO: Option<TextTransform>, codec: Codec, s: Script)
    ensures var r := RunClientAsync(acceptRequest, onRecvdTextIO, codec, s);
            (exists i :: 0 <= i < |r.trace| && r.trace[i].OpenSocket?) && s.openSocket.Ok? ==> DisposeSocket in r.trace
  {
  }

  // ---------------------------------------------------------------------------
  // RunClient

  /** `RunClientAsync` logs only from its own sites 1 and 2. */
  lemma SessionNeverLogsFromRunClient(acceptRequest: bool, onRecvdTextIO: Option<TextTransform>, codec: Codec, s: Script)
    ensures var o := RunClientAsync(acceptRequest, onRecvdTextIO, codec, s).outcome;
            o.Logged? ==> o.line.site == Site1 || o.line.site == Site2
  {
    if s.tokenSource.Ok? {
      HandleAbsorbs(Site1, NegotiateBody(acceptRequest, onRecvdTextIO, codec, s).thrown);
    } else {
      HandleAbsorbs(Site2, Some(s.tokenSource.exn));
    }
  }

  /** The scripted replies for `RunClient`: creating the device client, then the session. */
  datatype ClientScript = ClientScript(create: Reply<()>, session: Script)

  /**
   * `RunClient(device_cs, _OnRecvText)`: create the device client, run the
   * parameterless `RunClientAsync()` on it, and dispose the client when the
   * `using` block ends. Its two ladders log from sites 3 and 4.
   */
  function RunClient(deviceConnectionString: string, onRecvText: Option<TextTransform>, codec: Codec, s: ClientScript): (r: Run)
    ensures !r.outcome.Escaped?
    ensures r.outcome.Logged? ==> r.outcome.line.site != Site3
    ensures InProtocolOrder(r.trace)
  {
    var create := CreateClient(deviceConnectionString);
    match s.create
    case Throws(e) =>
      HandleAbsorbs(Site4, Some(e));
      Run([create], Handle(Site4, Some(e)))
    case Ok(_) =>
      var session := RunClientAsyncDefault(onRecvText, codec, s.session);
      assert session == RunClientAsync(true, onRecvText, codec, s.session);
      SessionNeverLogsFromRunClient(true, onRecvText, codec, s.session);
      OrderedConcat(session.trace, [DisposeClient], 1, 8, 9);
      OrderedConcat([create], session.trace + [DisposeClient], 0, 0, 9);
      assert [create] + session.trace + [DisposeClient] == [create] + (session.trace + [DisposeClient]);
      Run([create] + session.trace + [DisposeClient], Rethrow(Rethrow(session.outcome, Site3), Site4))
  }

  /**
   * Create, run, swallow: once the client exists, the run's calls and its
   * outcome are those of `RunClientAsync(true)`; a failure to create the
   * client is logged from site 4 and nothing else happens.
   */
  lemma RunClientIsAcceptingSession(deviceConnectionString: string, onRecvText: Option<TextTransform>, codec: Codec, s: ClientScript)
    ensures var r := RunClient(deviceConnectionString, onRecvText, codec, s);
            var session := RunClientAsync(true, onRecvText, codec, s.session);
            && (s.create.Throws? ==>
                  r.trace == [CreateClient(deviceConnectionString)]
                  && r.outcome == Logged(LogLine(Site4, Classify(s.create.exn))))
            && (s.create.Ok? ==>
                  r.trace == [CreateClient(deviceConnectionString)] + session.trace + [DisposeClient]
                  && r.outcome == session.outcome)
  {
    HandleAbsorbs(Site4, if s.create.Throws? then Some(s.create.exn) else None);
  }
}
