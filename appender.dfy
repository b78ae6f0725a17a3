/**
 * RemoteSyslog5424Appender as an object whose methods update its fields in
 * place: the configuration properties, the message queue, the three
 * connection fields and the disposed/closing flags. `wire` records the frames
 * that were written and flushed to the connection, in order. Every method is
 * tied to a function of SenderSpec or SyslogFormat that specifies it.
 */
module Appender {
  import opened Wrappers
  import opened SyslogFormat
  import opened SenderSpec

  class RemoteSyslog5424Appender {
    // Configuration properties
    var server: Option<string>
    var port: int
    var certificatePath: Option<string>
    var facility: Facility
    const version: nat
    var trailerChar: Option<char>
    var hostname: Option<string>
    var appName: Option<string>
    var procId: Option<string>
    var messageId: Option<string>

    // The queue of frames waiting to be sent
    var queue: seq<string>

    // Connection fields: true when the field is non-null
    var hasSocket: bool
    var hasStream: bool
    var hasWriter: bool

    var disposed: bool
    var closing: bool

    // Frames written and flushed to the connection, oldest first
    var wire: seq<string>

    // Every frame Append ever queued, oldest first
    ghost var appended: seq<string>

    ghost predicate Valid()
      reads this
    {
      version == 1 && Ordered(Conn()) && (disposed ==> closing) && wire + queue == appended
    }

    function Conn(): Link
      reads this
    {
      Link(hasSocket, hasStream, hasWriter)
    }

    /** The send-side state, as SenderSpec sees it. */
    function State(): Sender
      reads this
    {
      Sender(Conn(), disposed, queue, wire)
    }

    /** The parameterless constructor; `machineName` is what DNS reports for this host. */
    constructor (machineName: string)
      ensures Valid()
      ensures hostname == Some(machineName) && version == 1 && facility == UserFacility
      ensures trailerChar == Some('\n')
      ensures appName.None? && procId.None? && messageId.None?
      ensures server.None? && certificatePath.None?
      ensures State() == Sender(Closed, false, [], []) && !closing && appended == []
    {
      server, port, certificatePath := None, 0, None;
      hostname := Some(machineName);
      version := 1;
      facility := UserFacility;
      trailerChar := Some('\n');
      appName, procId, messageId := None, None, None;
      queue, wire, appended := [], [], [];
      hasSocket, hasStream, hasWriter := false, false, false;
      disposed, closing := false, false;
    }

    /** The constructor that also names the collector and the client certificate file. */
    constructor WithServer(machineName: string, server: string, port: int, certificatePath: string)
      ensures Valid()
      ensures hostname == Some(machineName) && version == 1 && facility == UserFacility
      ensures trailerChar == Some('\n')
      ensures appName.None? && procId.None? && messageId.None?
      ensures this.server == Some(server) && this.port == port
      ensures this.certificatePath == Some(certificatePath)
      ensures State() == Sender(Closed, false, [], []) && !closing && appended == []
    {
      this.server, this.port, this.certificatePath := Some(server), port, Some(certificatePath);
      hostname := Some(machineName);
      version := 1;
      facility := UserFacility;
      trailerChar := Some('\n');
      appName, procId, messageId := None, None, None;
      queue, wire, appended := [], [], [];
      hasSocket, hasStream, hasWriter := false, false, false;
      disposed, closing := false, false;
    }

    function Hostname(): string reads this { NilOr(hostname) }
    function AppName(): string reads this { NilOr(appName) }
    function ProcId(): string reads this { NilOr(procId) }
    function MessageId(): string reads this { NilOr(messageId) }

    /** Formats the event as a frame and appends it to the queue; nothing else changes. */
    method Append(level: Level, time: string, rendered: string)
      requires Valid()
      modifies this`queue, this`appended
      ensures Valid()
      ensures queue == old(queue) + [FormatFrame(facility, level, version, time, Hostname(), AppName(),
                                                 ProcId(), MessageId(), rendered, trailerChar)]
      ensures appended == old(appended) + [queue[|queue| - 1]]
    {
      var message := FormatMessage(GeneratePriority(facility, level), version, time, Hostname(),
                                   AppName(), ProcId(), MessageId(), rendered, trailerChar);
      var frame := Frame(message);
      queue := queue + [frame];
      appended := appended + [frame];
    }

    /** Connects unless disposed or already holding a socket; `outcome` is the network's answer. */
    method EnsureConnected(outcome: ConnectOutcome) returns (error: Option<Exception>)
      requires Valid()
      modifies this`hasSocket, this`hasStream, this`hasWriter
      ensures Valid()
      ensures (Conn(), error) == SenderSpec.EnsureConnected(old(Conn()), disposed, outcome)
    {
      if disposed {
        return Some(ObjectDisposedException);
      }
      if hasSocket {
        return None;
      }
      match outcome
      case Connected =>
        hasSocket := true;
        hasStream := true;
        hasWriter := true;
        error := None;
      case ConnectFailed(stage, e) =>
        if stage != CreatingSocket {
          hasSocket := true;
        }
        if stage == Authenticating {
          hasStream := true;
        }
        error := Some(e);
    }

    /**
     * The peek/write/flush/dequeue loop: a frame leaves the queue only after
     * its write succeeded; the first failure ends the loop.
     */
    method Drain(writes: nat -> IoOutcome) returns (error: Option<Exception>)
      requires Valid()
      modifies this`queue, this`wire
      ensures var d := DrainFrom(old(queue), hasWriter, writes, 0);
              error == d.error && queue == old(queue)[d.sent..] && wire == old(wire) + old(queue)[..d.sent]
      ensures Valid()
    {
      var k := 0;
      while true
        invariant k <= |old(queue)|
        invariant queue == old(queue)[k..]
        invariant wire == old(wire) + old(queue)[..k]
        invariant DrainFrom(old(queue), hasWriter, writes, k) == DrainFrom(old(queue), hasWriter, writes, 0)
        invariant Valid()
        decreases |queue|
      {
        if queue == [] {
          return None;
        }
        var frame := queue[0];
        if !hasWriter {
          return Some(NullReferenceException);
        }
        match writes(k)
        case Failed(e) =>
          return Some(e);
        case Sent =>
          wire := wire + [frame];
          queue := queue[1..];
          assert old(queue)[..k + 1] == old(queue)[..k] + [frame];
          k := k + 1;
      }
    }

    /** Releases the writer, the stream and the socket, in that order. */
    method Disconnect()
      requires Valid()
      modifies this`hasSocket, this`hasStream, this`hasWriter
      ensures Valid()
      ensures State() == SenderSpec.Disconnect(old(State()))
    {
      if hasWriter {
        hasWriter := false;
      }
      if hasStream {
        hasStream := false;
      }
      if hasSocket {
        hasSocket := false;
      }
    }

    /**
     * One send attempt: connect if needed, drain the queue, and on a socket or
     * I/O error tear the connection down. Returns the exception that was
     * logged, if any.
     */
    method TrySendMessages(outcome: ConnectOutcome, writes: nat -> IoOutcome) returns (logged: Option<Exception>)
      requires Valid()
      modifies this`hasSocket, this`hasStream, this`hasWriter, this`queue, this`wire
      ensures Valid()
      ensures SendResult(State(), logged) == TrySend(old(State()), outcome, writes)
    {
      var error := EnsureConnected(outcome);
      if error.None? {
        error := Drain(writes);
        if error.None? {
          return None;
        }
      }
      var e := error.value;
      var handling := Classify(e);
      if handling.disconnect {
        Disconnect();
      }
      logged := if handling.log then Some(e) else None;
    }

    /**
     * Sets `_closing`, lets the sender thread make its last send attempt
     * (`final`, absent when the thread does not run one), marks the appender
     * disposed unless one of the thread calls threw (`stopThrew`), and tears
     * down the connection.
     */
    method Dispose(final: Option<Attempt>, stopThrew: bool)
      requires Valid()
      modifies this`closing, this`disposed, this`hasSocket, this`hasStream, this`hasWriter, this`queue, this`wire
      ensures Valid() && closing
      ensures State() == SenderSpec.Dispose(old(State()), final, stopThrew)
    {
      closing := true;
      if final.Some? {
        var _ := TrySendMessages(final.value.connect, final.value.writes);
      }
      if !stopThrew {
        disposed := true;
      }
      Disconnect();
    }
  }
}
