/**
 * The send path of RemoteSyslog5424Appender as functions of a state value:
 * the connect attempt of EnsureConnected, the peek/write/dequeue drain of
 * TrySendMessages, the classification of what the drain throws, Disconnect
 * and Dispose. The class in appender.dfy is proved to follow these functions
 * call by call; the lemmas here state what the functions guarantee about the
 * queue, the frames on the wire and the connection fields.
 */
module SenderSpec {
  import opened Wrappers

  // ---------------------------------------------------------------------------
  // Exceptions and how TrySendMessages handles them

  type Int32 = x: int | -0x8000_0000 <= x < 0x8000_0000

  /** SocketError.TimedOut, the value of `SocketErrorCode` for a socket time-out. */
  const TimedOutCode: Int32 := 10060

  /** The exception classes the handlers of TrySendMessages tell apart. */
  datatype Exception =
    /** `socketErrorCode` is the SocketError value of the exception's SocketErrorCode. */
    | SocketException(socketErrorCode: Int32)
    | IOException(hresult: Int32)
    | ObjectDisposedException
    | ThreadInterruptedException
    | ThreadAbortException
    | NullReferenceException
    /** Any other class, e.g. AuthenticationException from the TLS handshake. */
    | OtherException(typeName: string)

  /** C#'s unchecked `(uint)` conversion of a 32-bit HResult. */
  function AsUInt32(h: Int32): (u: nat)
    ensures u < 0x1_0000_0000
    ensures u % 0x1_0000_0000 == h % 0x1_0000_0000
  {
    if h < 0 then h + 0x1_0000_0000 else h
  }

  /** COR_E_IO, the HResult of a plain IOException. */
  const CorEIo: nat := 0x8013_1620

  /** What a caught exception leads to: a Disconnect, and a diagnostic log entry. */
  datatype Handling = Handling(disconnect: bool, log: bool)

  function Classify(e: Exception): (h: Handling)
    ensures h.disconnect <==> e.SocketException? || e.IOException?
    ensures e.SocketException? ==> (h.log <==> e.socketErrorCode != TimedOutCode)
    ensures e.IOException? ==> (h.log <==> e.hresult != CorEIo - 0x1_0000_0000)
    ensures e.ObjectDisposedException? || e.ThreadInterruptedException? || e.ThreadAbortException? ==> !h.log
    ensures e.NullReferenceException? || e.OtherException? ==> h.log
  {
    match e
    case SocketException(code) => Handling(true, code != TimedOutCode)
    case IOException(hresult) => Handling(true, AsUInt32(hresult) != CorEIo)
    case ObjectDisposedException => Handling(false, false)
    case ThreadInterruptedException => Handling(false, false)
    case ThreadAbortException => Handling(false, false)
    case NullReferenceException => Handling(false, true)
    case OtherException(_) => Handling(false, true)
  }

  // ---------------------------------------------------------------------------
  // Connection fields

  /** Which of `_socket`, `_stream` and `_writer` are non-null. */
  datatype Link = Link(socket: bool, stream: bool, writer: bool)

  const Closed: Link := Link(false, false, false)

  /** The fields are assigned in the order socket, stream, writer and cleared together. */
  predicate Ordered(l: Link) {
    (l.writer ==> l.stream) && (l.stream ==> l.socket)
  }

  /** How far a connect attempt got before it threw. */
  datatype ConnectStage =
    /** `new Socket(...)` threw: nothing was assigned. */
    | CreatingSocket
    /** Connect, NetworkStream or the SslStream constructor threw: `_socket` is set. */
    | Connecting
    /** Certificate loading, the TLS handshake or the StreamWriter threw: `_socket` and `_stream` are set. */
    | Authenticating

  /** The environment's answer to one connect attempt. */
  datatype ConnectOutcome = Connected | ConnectFailed(stage: ConnectStage, error: Exception)

  /** The environment's answer to one `Write` + `Flush` of a frame. */
  datatype IoOutcome = Sent | Failed(error: Exception)

  /** The fields after a connect attempt starting from `l`, which has no socket. */
  function AfterConnect(l: Link, o: ConnectOutcome): (r: Link)
    ensures o.Connected? ==> r == Link(true, true, true)
    ensures o.ConnectFailed? ==> r.writer == l.writer
    ensures o.ConnectFailed? && o.stage == CreatingSocket ==> r == l
    ensures o.ConnectFailed? && o.stage == Connecting ==> r == l.(socket := true)
    ensures o.ConnectFailed? && o.stage == Authenticating ==> r == l.(socket := true, stream := true)
    ensures Ordered(l) && !l.socket ==> Ordered(r)
  {
    match o
    case Connected => Link(true, true, true)
    case ConnectFailed(CreatingSocket, _) => l
    case ConnectFailed(Connecting, _) => l.(socket := true)
    case ConnectFailed(Authenticating, _) => l.(socket := true, stream := true)
  }

  /** EnsureConnected: refused once disposed, nothing to do while a socket exists, else one attempt. */
  function EnsureConnected(l: Link, disposed: bool, o: ConnectOutcome): (r: (Link, Option<Exception>))
    ensures disposed ==> r == (l, Some(ObjectDisposedException))
    ensures !disposed && l.socket ==> r == (l, None)
    ensures !disposed && !l.socket ==> r.0 == AfterConnect(l, o) && (r.1.None? <==> o.Connected?)
    ensures !disposed && !l.socket && o.ConnectFailed? ==> r.1 == Some(o.error)
    ensures r.1.None? ==> r.0.socket && (l.socket || r.0.writer)
  {
    if disposed then (l, Some(ObjectDisposedException))
    else if l.socket then (l, None)
    else match o
      case Connected => (AfterConnect(l, o), None)
      case ConnectFailed(_, e) => (AfterConnect(l, o), Some(e))
  }

  // ---------------------------------------------------------------------------
  // The drain loop

  datatype DrainResult = DrainResult(sent: nat, error: Option<Exception>)

  /**
   * The drain from attempt k on: while the queue has a frame at position k,
   * write it (a missing writer throws NullReferenceException); a failure ends
   * the drain with that frame still queued.
   */
  function DrainFrom(q: seq<string>, writer: bool, writes: nat -> IoOutcome, k: nat): (r: DrainResult)
    requires k <= |q|
    ensures k <= r.sent <= |q|
    ensures r.error.None? <==> r.sent == |q|
    ensures writer ==> forall j :: k <= j < r.sent ==> writes(j) == Sent
    ensures r.error.Some? && writer ==> writes(r.sent) == Failed(r.error.value)
    ensures r.error.Some? && !writer ==> r.sent == k && r.error.value == NullReferenceException
    ensures !writer && k < |q| ==> r == DrainResult(k, Some(NullReferenceException))
    decreases |q| - k
  {
    if k == |q| then DrainResult(k, None)
    else if !writer then DrainResult(k, Some(NullReferenceException))
    else match writes(k)
      case Failed(e) => DrainResult(k, Some(e))
      case Sent => DrainFrom(q, writer, writes, k + 1)
  }

  // ---------------------------------------------------------------------------
  // One TrySendMessages call

  /** The appender's send-side state. */
  datatype Sender = Sender(link: Link, disposed: bool, queue: seq<string>, wire: seq<string>)

  datatype SendResult = SendResult(after: Sender, logged: Option<Exception>)

  /** The handlers: Disconnect on socket and I/O errors, a log entry unless the error is benign. */
  function Handle(s: Sender, e: Exception): (r: SendResult)
    ensures r.after.queue == s.queue && r.after.wire == s.wire && r.after.disposed == s.disposed
    ensures r.after.link == if Classify(e).disconnect then Closed else s.link
    ensures r.logged == if Classify(e).log then Some(e) else None
  {
    var h := Classify(e);
    SendResult(if h.disconnect then s.(link := Closed) else s, if h.log then Some(e) else None)
  }

  /**
   * One TrySendMessages call: EnsureConnected, then the drain, and the
   * handlers for whatever either of them throws.
   */
  function TrySend(s: Sender, o: ConnectOutcome, writes: nat -> IoOutcome): (r: SendResult)
    ensures r.after.wire + r.after.queue == s.wire + s.queue
    ensures r.after.disposed == s.disposed
    ensures s.disposed ==> r == SendResult(s, None)
    ensures r.logged.Some? ==> Classify(r.logged.value).log
  {
    var (link, connectError) := EnsureConnected(s.link, s.disposed, o);
    var s1 := s.(link := link);
    match connectError
    case Some(e) => Handle(s1, e)
    case None =>
      var d := DrainFrom(s.queue, link.writer, writes, 0);
      var s2 := s1.(queue := s.queue[d.sent..], wire := s.wire + s.queue[..d.sent]);
      assert s.queue[..d.sent] + s.queue[d.sent..] == s.queue;
      match d.error
      case None => SendResult(s2, None)
      case Some(e) => Handle(s2, e)
  }

  /** Disconnect clears all three fields; on a cleared state it changes nothing. */
  function Disconnect(s: Sender): (r: Sender)
    ensures r.link == Closed && Ordered(r.link)
    ensures r.queue == s.queue && r.wire == s.wire && r.disposed == s.disposed
    ensures s.link == Closed ==> r == s
  {
    s.(link := Closed)
  }

  /**
   * Dispose: once `_closing` is set, the sender thread may make one last send
   * attempt (`final`) while Dispose waits for it. `stopThrew` says whether one
   * of the Join, Interrupt or Abort calls threw (a thread that was never
   * started, or a runtime without Abort): then `_disposed` is not set. The
   * connection is torn down either way.
   */
  function Dispose(s: Sender, final: Option<Attempt>, stopThrew: bool): (r: Sender)
    ensures r.link == Closed
    ensures r.disposed == (s.disposed || !stopThrew)
    ensures final.None? ==> r.queue == s.queue && r.wire == s.wire
  {
    var s1 := if final.Some? then TrySend(s, final.value.connect, final.value.writes).after else s;
    Disconnect(if stopThrew then s1 else s1.(disposed := true))
  }

  // ---------------------------------------------------------------------------
  // Properties of one call

  /** Nothing is lost or reordered: written frames followed by the queue are what they were before. */
  lemma TrySendKeepsFrames(s: Sender, o: ConnectOutcome, writes: nat -> IoOutcome)
    ensures var r := TrySend(s, o, writes).after;
            r.wire + r.queue == s.wire + s.queue
            && |s.wire| <= |r.wire| && r.wire[..|s.wire|] == s.wire
            && r.disposed == s.disposed
  {
  }

  /** When the connection comes up and every write succeeds, the queue ends up empty, all of it on the wire. */
  lemma TrySendDrainsAll(s: Sender, o: ConnectOutcome, writes: nat -> IoOutcome)
    requires !s.disposed && Ordered(s.link)
    requires s.link.writer || (!s.link.socket && o.Connected?)
    requires forall j :: 0 <= j < |s.queue| ==> writes(j) == Sent
    ensures TrySend(s, o, writes) == SendResult(s.(link := Link(true, true, true), queue := [], wire := s.wire + s.queue), None)
  {
  }

  /** A frame whose write fails stays at the front of the queue, and the frames before it are on the wire. */
  lemma TrySendFailureKeepsFront(s: Sender, o: ConnectOutcome, writes: nat -> IoOutcome, k: nat, e: Exception)
    requires !s.disposed && Ordered(s.link)
    requires s.link.writer || (!s.link.socket && o.Connected?)
    requires k < |s.queue| && writes(k) == Failed(e)
    requires forall j :: 0 <= j < k ==> writes(j) == Sent
    ensures var r := TrySend(s, o, writes);
            r.after.queue == s.queue[k..] && r.after.queue[0] == s.queue[k]
            && r.after.wire == s.wire + s.queue[..k]
            && r.logged == (if Classify(e).log then Some(e) else None)
            && r.after.link == (if Classify(e).disconnect then Closed else Link(true, true, true))
  {
  }

  /** Socket and I/O failures tear the connection down; every other failure leaves the fields as they were. */
  lemma TrySendTeardown(s: Sender, o: ConnectOutcome, writes: nat -> IoOutcome)
    requires !s.disposed
    ensures var r := TrySend(s, o, writes);
            var link := EnsureConnected(s.link, false, o).0;
            var d := DrainFrom(s.queue, link.writer, writes, 0);
            var error := if EnsureConnected(s.link, false, o).1.Some? then EnsureConnected(s.link, false, o).1
                         else d.error;
            (error.Some? && Classify(error.value).disconnect ==> r.after.link == Closed)
            && (error.None? || !Classify(error.value).disconnect ==> r.after.link == link)
  {
  }

  /** After a Dispose whose thread calls did not throw, a send attempt changes nothing and logs nothing. */
  lemma DisposedSendIsInert(s: Sender, final: Option<Attempt>, o: ConnectOutcome, writes: nat -> IoOutcome)
    ensures TrySend(Dispose(s, final, false), o, writes) == SendResult(Dispose(s, final, false), None)
  {
  }

  /**
   * After a Dispose whose thread calls threw, the appender is not marked
   * disposed: a later attempt that connects reopens the connection and sends
   * the queue.
   */
  lemma UnmarkedDisposeStillSends(s: Sender, final: Option<Attempt>, writes: nat -> IoOutcome)
    requires !s.disposed
    requires forall j :: 0 <= j < |Dispose(s, final, true).queue| ==> writes(j) == Sent
    ensures var d := Dispose(s, final, true);
            TrySend(d, Connected, writes)
              == SendResult(d.(link := Link(true, true, true), queue := [], wire := d.wire + d.queue), None)
  {
    TrySendDrainsAll(Dispose(s, final, true), Connected, writes);
  }

  /** Dispose loses no frame, and when the last attempt connects and every write succeeds it empties the queue. */
  lemma DisposeFlushes(s: Sender, final: Option<Attempt>, stopThrew: bool)
    ensures var r := Dispose(s, final, stopThrew);
            r.wire + r.queue == s.wire + s.queue && |s.wire| <= |r.wire| && r.wire[..|s.wire|] == s.wire
    ensures !s.disposed && Ordered(s.link) && final.Some?
            && (s.link.writer || (!s.link.socket && final.value.connect.Connected?))
            && (forall j :: 0 <= j < |s.queue| ==> final.value.writes(j) == Sent)
            ==> Dispose(s, final, stopThrew).queue == [] && Dispose(s, final, stopThrew).wire == s.wire + s.queue
  {
    if final.Some? {
      TrySendKeepsFrames(s, final.value.connect, final.value.writes);
      if !s.disposed && Ordered(s.link) && (s.link.writer || (!s.link.socket && final.value.connect.Connected?))
         && (forall j :: 0 <= j < |s.queue| ==> final.value.writes(j) == Sent) {
        TrySendDrainsAll(s, final.value.connect, final.value.writes);
      }
    }
  }

  /** Every call keeps the connection fields ordered (writer implies stream implies socket). */
  lemma TrySendKeepsOrdered(s: Sender, o: ConnectOutcome, writes: nat -> IoOutcome)
    requires Ordered(s.link)
    ensures Ordered(TrySend(s, o, writes).after.link)
  {
  }

  // ---------------------------------------------------------------------------
  // Runs of send attempts (the sender thread's periodic calls)

  datatype Attempt = Attempt(connect: ConnectOutcome, writes: nat -> IoOutcome)

  /** The TrySendMessages calls of the sender thread, one per attempt, in order. */
  function Run(s: Sender, attempts: seq<Attempt>): (r: Sender)
    ensures r.disposed == s.disposed
    ensures r.wire + r.queue == s.wire + s.queue
    ensures s.disposed ==> r == s
    decreases |attempts|
  {
    if attempts == [] then s
    else Run(TrySend(s, attempts[0].connect, attempts[0].writes).after, attempts[1..])
  }

  /** Over any run of attempts, frames reach the wire in queue order, none lost or duplicated. */
  lemma {:induction false} RunKeepsFrames(s: Sender, attempts: seq<Attempt>)
    decreases |attempts|
    ensures var r := Run(s, attempts);
            r.wire + r.queue == s.wire + s.queue && |s.wire| <= |r.wire| && r.wire[..|s.wire|] == s.wire
  {
    if attempts != [] {
      var s1 := TrySend(s, attempts[0].connect, attempts[0].writes).after;
      TrySendKeepsFrames(s, attempts[0].connect, attempts[0].writes);
      RunKeepsFrames(s1, attempts[1..]);
      var r := Run(s1, attempts[1..]);
      assert r.wire[..|s.wire|] == r.wire[..|s1.wire|][..|s.wire|];
    }
  }

  /**
   * A half-open connection (a socket but no writer, left by a connect that threw
   * neither a socket nor an I/O error) is never repaired: with frames queued,
   * every later attempt ends in a NullReferenceException, which is logged and
   * does not disconnect, so nothing is ever sent again.
   */
  lemma HalfOpenIsStuck(s: Sender, o: ConnectOutcome, writes: nat -> IoOutcome)
    requires !s.disposed && s.link.socket && !s.link.writer && s.queue != []
    ensures TrySend(s, o, writes) == SendResult(s, Some(NullReferenceException))
  {
  }

  lemma {:induction false} HalfOpenStaysStuck(s: Sender, attempts: seq<Attempt>)
    decreases |attempts|
    requires !s.disposed && s.link.socket && !s.link.writer && s.queue != []
    ensures Run(s, attempts) == s
  {
    if attempts != [] {
      HalfOpenIsStuck(s, attempts[0].connect, attempts[0].writes);
      HalfOpenStaysStuck(s, attempts[1..]);
    }
  }

  /**
   * Another way there: `Connect` throws a non-socket exception, such as the
   * ArgumentNullException of an unset `Server`. The socket is left set with
   * neither stream nor writer, and the half-open state is reached.
   */
  lemma UnsetServerLeavesHalfOpen(s: Sender, writes: nat -> IoOutcome)
    requires !s.disposed && s.link == Closed && s.queue != []
    ensures var r := TrySend(s, ConnectFailed(Connecting, OtherException("ArgumentNullException")), writes);
            r.after == s.(link := Link(true, false, false))
            && r.logged == Some(OtherException("ArgumentNullException"))
            && r.after.link.socket && !r.after.link.writer
  {
  }

  /** How a closed appender gets there: a handshake that throws a non-I/O exception. */
  lemma AuthenticationFailureLeavesHalfOpen(s: Sender, writes: nat -> IoOutcome)
    requires !s.disposed && s.link == Closed && s.queue != []
    ensures var r := TrySend(s, ConnectFailed(Authenticating, OtherException("AuthenticationException")), writes);
            r.after == s.(link := Link(true, true, false))
            && r.logged == Some(OtherException("AuthenticationException"))
  {
  }
}
