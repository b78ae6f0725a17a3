# RemoteSyslog5424Appender, modelled in Dafny

This project models the core of log4net.Appenders.Contrib: the
`RemoteSyslog5424Appender`, a log4net appender that ships log events to a
syslog collector over TLS, and the `JsonFragmentPatternConverter` layout
converter.

- **Frame formatter** (`syslog_format.dfy`, `decimal.dfy`). It maps a log4net level
  to a syslog severity and computes PRI = facility × 8 + severity (section 6.2.1
  of RFC 5424). It renders identity fields that were never set as the NILVALUE
  `-` and builds `<PRI>1 TIME HOST APP PROCID MSGID MSG`. It then appends the
  optional trailer character and prefixes the message with its length and a
  space (octet-counting framing, section 3.4.1 of RFC 6587). The file also has
  a collector-side parser, so the framing can be proved as a round trip.
- **Send path** (`sender_spec.dfy`, `appender.dfy`). The class
  `RemoteSyslog5424Appender` holds these fields:
  - the configuration properties;
  - the message queue (`seq<string>`);
  - the three connection fields `_socket`, `_stream` and `_writer`, each a
    flag for "non-null";
  - the `disposed` and `closing` flags;
  - `wire`, the frames written and flushed to the connection, in order.

  A ghost field `appended` records every frame `Append` has enqueued, and the
  class invariant keeps the wire followed by the queue equal to it. `Append`
  follows `SyslogFormat.FormatFrame`. The methods `EnsureConnected`, `Drain`
  (the peek/write/flush/dequeue loop), `Disconnect`, `TrySendMessages` and
  `Dispose` each follow a function in `SenderSpec` over a state value. The
  lemmas about those functions give the FIFO, no-loss, teardown and disposal
  properties. The network's answers are
  parameters: a `ConnectOutcome` per connect attempt and an `IoOutcome` per
  `Write` + `Flush`.
- **End to end** (`delivery.dfy`). For any interleaving of logged events and
  send attempts, the frames flushed to the connection, back to back, decode to
  a prefix of the logged messages, in order.
- **JSON fragment** (`json_fragment.dfy`). The converter chooses what to
  serialise, calls the serialiser (a function parameter), and strips exactly
  one pair of outer braces.

Behaviour the code does not have:
- Section 4.3 of RFC 5425 asks for the octet count of the message as the
  frame's length prefix. The code writes `message.Length`, a count of
  characters. The writer encodes UTF-8, so the prefix equals the octet count
  only for ASCII text. The model follows the code.
- The queue is unbounded, and the code has no overflow warning.
- The send period is a fixed 5 seconds; there is no exponential backoff.
- The code writes no structured data and does no `$ENV` substitution.
- `Flush(name)` is called by the sample program but not defined by the
  appender.

A consequence of the code as written, proved in `SenderSpec.HalfOpenIsStuck`
and `SenderSpec.HalfOpenStaysStuck`:
- Suppose a connect attempt fails, after `_socket` was assigned, with an
  exception that is neither a `SocketException` nor an `IOException` (for
  example an `AuthenticationException` from the handshake).
- The connection is then left half open: `_socket` is set and `_writer` is null.
- From then on, `EnsureConnected` returns at once, and the write throws a
  `NullReferenceException`. That exception is logged without a `Disconnect`.
- So while frames are queued, no later attempt sends anything.
- Other exceptions thrown in the same window lead to the same state. Two
  examples: an unset `Server` (an `ArgumentNullException` from `Connect`,
  `SenderSpec.UnsetServerLeavesHalfOpen`), and an empty `CertificatePath` with
  no inline `Certificate` (a `NullReferenceException` while the certificate is
  built; the handshake stage of `SenderSpec.AfterConnect`).

## Model

| member | source | states |
|---|---|---|
| `SyslogFormat.GetSeverity` | src/log4net.Appenders.Contrib/RemoteSyslog5424Appender.cs:124-145 | the severity is Alert, Critical, Error, Warning, Notice, Informational or Debug exactly on the level bands [Alert,∞), [Critical,Alert), [Error,Critical), [Warn,Error), [Notice,Warn), [Info,Notice), below Info; Emergency is never produced |
| `SyslogFormat.SeverityMonotone` | src/log4net.Appenders.Contrib/RemoteSyslog5424Appender.cs:124-145 | a higher level never yields a numerically larger severity code |
| `SyslogFormat.Priority` | src/log4net.Appenders.Contrib/RemoteSyslog5424Appender.cs:119-122 | PRI is below 192, and PRI / 8 is the facility and PRI % 8 the severity code (PRI = facility × 8 + severity) |
| `SyslogFormat.GeneratePriority` | src/log4net.Appenders.Contrib/RemoteSyslog5424Appender.cs:119-122 | the PRI of an event decodes to the configured facility and to the severity of the event's level |
| `SyslogFormat.DefaultFacilityExamples` | src/log4net.Appenders.Contrib/RemoteSyslog5424Appender.cs:119-122 | with the default User facility, an Info event has PRI 14 and an Error event PRI 11 |
| `SyslogFormat.MessageStart` | src/log4net.Appenders.Contrib/RemoteSyslog5424Appender.cs:104-105 | every message begins with `<`, PRI in decimal, `>`, VERSION in decimal and a space |
| `SyslogFormat.InfoMessageStart` | src/log4net.Appenders.Contrib/RemoteSyslog5424Appender.cs:104-105 | with the default facility and version 1, an Info message begins `<14>1 ` |
| `SyslogFormat.ErrorMessageStart` | src/log4net.Appenders.Contrib/RemoteSyslog5424Appender.cs:104-105 | with the default facility and version 1, an Error message begins `<11>1 ` |
| `SyslogFormat.NilOr` | src/log4net.Appenders.Contrib/RemoteSyslog5424Appender.cs:59-89 | a Hostname/AppName/ProcId/MessageId field that was never set reads `-`; a set value, the empty string included, reads verbatim; the result is `-` exactly when the field is unset or holds `-` (the class's four getters are this function of their field) |
| `Decimal.Show` | src/log4net.Appenders.Contrib/RemoteSyslog5424Appender.cs:108 | the length is written as a non-empty run of decimal digits with no leading zero |
| `Decimal.ParseShow` | src/log4net.Appenders.Contrib/RemoteSyslog5424Appender.cs:108 | reading the digits of a written length gives the length back |
| `SyslogFormat.MessageHeader` | src/log4net.Appenders.Contrib/RemoteSyslog5424Appender.cs:104-107 | the message starts with `<PRI>` and a collector reads PRI back from it; with a trailer set, the message is the message without a trailer followed by exactly that one character; with none set, it ends with MSG |
| `SyslogFormat.MessageLayout` | src/log4net.Appenders.Contrib/RemoteSyslog5424Appender.cs:104-107 | every message opens with `<` and ends with MSG followed by the trailer character, if one is set |
| `SyslogFormat.FrameLayout` | src/log4net.Appenders.Contrib/RemoteSyslog5424Appender.cs:108 | a frame is the message's length as a non-empty run of digits that reads back as that length, one space, and the message unchanged |
| `SyslogFormat.FrameRoundTrip` | src/log4net.Appenders.Contrib/RemoteSyslog5424Appender.cs:106-108 | splitting a frame at its first space, reading the length and taking that many characters gives exactly the message (trailer included), whatever follows on the stream |
| `SyslogFormat.StreamRoundTrip` | src/log4net.Appenders.Contrib/RemoteSyslog5424Appender.cs:106-110 | frames sent back to back decode to the same messages in the same order |
| `SyslogFormat.FormatFrame` | src/log4net.Appenders.Contrib/RemoteSyslog5424Appender.cs:101-110 | the frame Append enqueues parses back to the message `<PRI>1 TIME HOST APP PROCID MSGID MSG[trailer]`, whose PRI comes from the facility and the level |
| `SenderSpec.AsUInt32` | src/log4net.Appenders.Contrib/RemoteSyslog5424Appender.cs:231 | the unchecked `(uint)` cast of a 32-bit HResult is the value modulo 2^32, in [0, 2^32) |
| `SenderSpec.Classify` | src/log4net.Appenders.Contrib/RemoteSyslog5424Appender.cs:224-249 | SocketException and IOException, and only they, lead to Disconnect; a SocketException with error code 10060 (time-out), an IOException with HResult 0x80131620, ObjectDisposed, ThreadInterrupted and ThreadAbort are not logged; any other exception, including a SocketException with any other code, is logged |
| `SenderSpec.AfterConnect` | src/log4net.Appenders.Contrib/RemoteSyslog5424Appender.cs:157-169 | a successful connect sets socket, stream and writer; a failure creating the socket sets nothing, one in `Connect`, `NetworkStream` or the `SslStream` constructor sets only the socket, and one in the handshake sets socket and stream; the writer is never set by a failure; the fields stay ordered |
| `SenderSpec.EnsureConnected` | src/log4net.Appenders.Contrib/RemoteSyslog5424Appender.cs:147-171 | it throws ObjectDisposedException when disposed and is a no-op while a socket is set; otherwise the fields are those the connect outcome leaves, it returns normally exactly when the connect completed, and a failed connect rethrows its own exception |
| `SenderSpec.DrainFrom` | src/log4net.Appenders.Contrib/RemoteSyslog5424Appender.cs:210-220 | the drain sends a prefix of the queue; it ends without error exactly when it sent the whole queue; every sent frame's write succeeded; on an error, the failing write is that of the first unsent frame; with no writer and frames left, it sends nothing more and throws NullReferenceException |
| `SenderSpec.Handle` | src/log4net.Appenders.Contrib/RemoteSyslog5424Appender.cs:224-235 | after a caught exception, the queue and wire are unchanged; the connection is cleared exactly for socket and I/O errors; the exception is reported exactly when it is logged |
| `SenderSpec.Disconnect` | src/log4net.Appenders.Contrib/RemoteSyslog5424Appender.cs:252-291 | writer, stream and socket are all cleared and nothing else changes; on an already cleared state it changes nothing |
| `SenderSpec.Dispose` | src/log4net.Appenders.Contrib/RemoteSyslog5424Appender.cs:293-321 | afterwards there is no connection; the appender is marked disposed unless it already was or the Join/Interrupt/Abort sequence threw; without a last send attempt by the sender thread, the queue and wire are untouched |
| `SenderSpec.TrySendKeepsFrames` | src/log4net.Appenders.Contrib/RemoteSyslog5424Appender.cs:210-222 | after a send attempt, written frames followed by the remaining queue equal the frames before it, and the wire only grows |
| `SenderSpec.TrySendDrainsAll` | src/log4net.Appenders.Contrib/RemoteSyslog5424Appender.cs:208-222 | with a connection (existing or newly made) and every write succeeding, the queue ends up empty, all of it appended to the wire in order, and nothing is logged |
| `SenderSpec.TrySendFailureKeepsFront` | src/log4net.Appenders.Contrib/RemoteSyslog5424Appender.cs:210-235 | when the write of frame k fails, frames 0..k-1 are on the wire, frame k is at the front of the queue, the connection is torn down for socket and I/O errors and kept otherwise |
| `SenderSpec.TrySendTeardown` | src/log4net.Appenders.Contrib/RemoteSyslog5424Appender.cs:224-235 | a socket or I/O error during connect or drain clears the connection; any other outcome leaves the fields as the connect step left them |
| `SenderSpec.DisposedSendIsInert` | src/log4net.Appenders.Contrib/RemoteSyslog5424Appender.cs:147-150 | after a Dispose whose Join/Interrupt/Abort sequence completed, a send attempt changes nothing and logs nothing |
| `SenderSpec.UnmarkedDisposeStillSends` | src/log4net.Appenders.Contrib/RemoteSyslog5424Appender.cs:293-321 | when Join/Interrupt/Abort throws, Dispose leaves the appender unmarked, so a later send attempt that connects and writes successfully sends the whole queue and leaves a live connection |
| `SenderSpec.DisposeFlushes` | src/log4net.Appenders.Contrib/RemoteSyslog5424Appender.cs:293-321 | Dispose loses and reorders no frame, whether or not the thread calls threw; when the sender thread's last attempt connects and every write succeeds, the queue is empty and all of it is on the wire |
| `SenderSpec.TrySendKeepsOrdered` | src/log4net.Appenders.Contrib/RemoteSyslog5424Appender.cs:147-171 | a send attempt keeps "writer set implies stream set implies socket set" |
| `SenderSpec.TrySend` | src/log4net.Appenders.Contrib/RemoteSyslog5424Appender.cs:202-250 | a send attempt keeps the wire followed by the queue unchanged and never changes `disposed`; when disposed it changes and logs nothing; an exception it reports is one the handlers log |
| `SenderSpec.Run` | src/log4net.Appenders.Contrib/RemoteSyslog5424Appender.cs:182-191 | over a run of attempts `disposed` is unchanged, the wire followed by the queue is unchanged, and a disposed appender is left as it was |
| `SenderSpec.RunKeepsFrames` | src/log4net.Appenders.Contrib/RemoteSyslog5424Appender.cs:182-191 | over any run of send attempts, frames reach the wire in queue order with none lost or duplicated |
| `SenderSpec.HalfOpenIsStuck` | src/log4net.Appenders.Contrib/RemoteSyslog5424Appender.cs:202-250 | with a socket but no writer and frames queued, a send attempt changes nothing and logs a NullReferenceException, whatever the network does |
| `SenderSpec.HalfOpenStaysStuck` | src/log4net.Appenders.Contrib/RemoteSyslog5424Appender.cs:182-191 | from such a half-open state no run of send attempts changes anything |
| `SenderSpec.AuthenticationFailureLeavesHalfOpen` | src/log4net.Appenders.Contrib/RemoteSyslog5424Appender.cs:157-169 | a handshake that throws a non-I/O exception leaves socket and stream set, the writer null, and logs the exception |
| `SenderSpec.UnsetServerLeavesHalfOpen` | src/log4net.Appenders.Contrib/RemoteSyslog5424Appender.cs:157-158 | a `Connect` that throws a non-socket exception (an unset `Server`) leaves only the socket set, no writer, and logs the exception: the half-open state |
| `Delivery.DeliveredInOrder` | src/log4net.Appenders.Contrib/RemoteSyslog5424Appender.cs:210-222 | when only Append's frames are queued, after any run of send attempts the wire carries the frames of a prefix of the logged messages, and the collector decodes the stream to exactly that prefix |
| `Delivery.RunEventsKeepsFrames` | src/log4net.Appenders.Contrib/RemoteSyslog5424Appender.cs:97-116 | over any interleaving of Append and send attempts, the wire followed by the queue is the frames of every message logged so far, in order, and the wire only grows |
| `Delivery.DeliveredInLoggedOrder` | src/log4net.Appenders.Contrib/RemoteSyslog5424Appender.cs:182-222 | from a fresh appender, after any interleaving of Append and send attempts the wire carries the frames of a prefix of the logged messages, and the collector decodes the stream to exactly that prefix |
| `Appender.RemoteSyslog5424Appender.constructor` | src/log4net.Appenders.Contrib/RemoteSyslog5424Appender.cs:31-39 | Hostname is the machine name, Version is 1, Facility is User, the trailer is `\n`, the other identity fields are unset, the queue is empty and there is no connection |
| `Appender.RemoteSyslog5424Appender.WithServer` | src/log4net.Appenders.Contrib/RemoteSyslog5424Appender.cs:41-47 | the same defaults, with the server, port and certificate path recorded |
| `Appender.RemoteSyslog5424Appender.Append` | src/log4net.Appenders.Contrib/RemoteSyslog5424Appender.cs:97-116 | exactly one frame, the formatted event, is added at the back of the queue and recorded as appended; nothing else changes, and the wire followed by the queue stays equal to every frame ever appended |
| `Appender.RemoteSyslog5424Appender.EnsureConnected` | src/log4net.Appenders.Contrib/RemoteSyslog5424Appender.cs:147-171 | the connection fields and the thrown exception are those of `SenderSpec.EnsureConnected`; the field order invariant is kept |
| `Appender.RemoteSyslog5424Appender.Drain` | src/log4net.Appenders.Contrib/RemoteSyslog5424Appender.cs:210-220 | the loop removes from the queue exactly the frames it appended to the wire, a prefix of the old queue, as `SenderSpec.DrainFrom` says, and keeps the wire followed by the queue equal to every frame appended |
| `Appender.RemoteSyslog5424Appender.Disconnect` | src/log4net.Appenders.Contrib/RemoteSyslog5424Appender.cs:252-291 | the state afterwards is `SenderSpec.Disconnect` of the state before |
| `Appender.RemoteSyslog5424Appender.TrySendMessages` | src/log4net.Appenders.Contrib/RemoteSyslog5424Appender.cs:202-250 | the new state and the logged exception are those of `SenderSpec.TrySend`, so the lemmas above apply to every call |
| `Appender.RemoteSyslog5424Appender.Dispose` | src/log4net.Appenders.Contrib/RemoteSyslog5424Appender.cs:293-321 | the appender is closing, and its state is `SenderSpec.Dispose` of the old state: the optional last send attempt, `disposed` set unless the thread calls threw, then the connection torn down |
| `JsonFragment.SelectPayload` | src/log4net.Appenders.Contrib/Converters/JsonFragmentPatternConverter.cs:19-45 | with an exception, the pair (rendered message, exception) is serialised whatever the message object; otherwise a null, string or SystemStringFormat object gives `{Message = rendered}`, and any other object is serialised itself |
| `JsonFragment.ExceptionHidesMessageObject` | src/log4net.Appenders.Contrib/Converters/JsonFragmentPatternConverter.cs:20-28 | when an exception is present, changing the message object does not change the output |
| `JsonFragment.StripOuterBraces` | src/log4net.Appenders.Contrib/Converters/JsonFragmentPatternConverter.cs:47-48 | text that starts with `{` and ends with `}` loses exactly its first and last characters (length − 2); any other text is unchanged |
| `JsonFragment.StripUnwraps` | src/log4net.Appenders.Contrib/Converters/JsonFragmentPatternConverter.cs:47-48 | stripping `{` + body + `}` gives the body back, for every body |
| `JsonFragment.StripOnce` | src/log4net.Appenders.Contrib/Converters/JsonFragmentPatternConverter.cs:47-48 | only one pair is stripped (`{{}}` becomes `{}`), and a one-character text is never changed |
| `JsonFragment.Convert` | src/log4net.Appenders.Contrib/Converters/JsonFragmentPatternConverter.cs:17-50 | the written text, wrapped back in braces, is the serialised JSON when that was braced; otherwise it is the JSON itself |

## Left out

- Connecting: socket creation and `Connect`, `NetworkStream`, `SslStream` and the
  TLS handshake, certificate loading, and the accept-all `VerifyServerCertificate`.
  These are network and crypto I/O. A connect attempt is a `ConnectOutcome`
  parameter that says how far it got and what it threw.
- Write and Flush failures are an `IoOutcome` per attempt. A failed write may
  already have put part of the frame on the old connection; `wire` records only
  frames whose `Write` and `Flush` both completed.
- The sender thread is not modelled: its 5-second wait loop, `Thread.Sleep`,
  `DateTime.UtcNow`, and `ActivateOptions` starting it. These are threads and
  wall-clock time. `SenderSpec.Run` models only the sequence of
  `TrySendMessages` calls the loop makes.
- `Dispose`'s `Join`, `Interrupt` and `Abort` calls are not modelled themselves.
  What the thread does while `Dispose` waits is one optional last send attempt.
  Whether that attempt happens, and whether it finishes within the 10-second
  join, is timing; it is a parameter. Whether one of the three calls throws
  (a thread never started, or `Abort` on runtimes that do not support it) is
  the parameter `stopThrew`; when it does, `_disposed` is not set.
- `ThreadAbortException` is treated as caught and silent. The re-raise at the end
  of its handler, which ends the sender thread, is not modelled.
- Concurrency is not modelled: `ConcurrentQueue`, the `_initSync` lock and the
  volatile flags. Every operation is one sequential step.
- The timestamp is an opaque string input. Its formatting and
  `Iso8601DatePatternConverter.cs` are not part of this model.
- The rendered message is an input. `RenderLoggingEvent` and the exception
  handler of `Append` around it are not part of this model.
- `LogError`'s routing to Trace or to the diagnostic logger is not modelled.
  A send attempt returns the exception it would log.
- `Disconnect` is modelled without its logging. Failures of `_writer.Dispose()` and
  `_socket.Disconnect()` are caught and change nothing else. An exception from
  `_stream.Dispose()`, which the code does not catch, is not modelled.
- `Delivery.DeliveredInLoggedOrder`: the wire is a sequence of characters. The
  UTF-8 encoding of the `StreamWriter`, and the byte-order mark it writes at the
  first flush of each new connection, are not modelled; the end-to-end claim is
  about the characters flushed, not about what the collector receives. A
  completed `Flush` is not an acknowledgement: the code reads none, so a frame
  flushed into a connection the collector has already closed can still be lost
  with that connection after it was dequeued. A partial frame left on the old
  connection by a failed write is not in `wire`; that connection's stream then
  ends in a truncated frame that does not decode.
- `SyslogFormat.FrameRoundTrip`: lengths are counted in Dafny characters (Unicode
  scalar values), while `message.Length` counts UTF-16 code units. The two agree
  except for characters outside the Basic Multilingual Plane.
- `SyslogFormat.Priority`: log4net's `RemoteSyslogAppender.GeneratePriority`
  range checks are not modelled; the model's facility is typed as 0..23. In the
  program the facility is an enum property that can hold any integer (from a
  numeric configuration value or a cast); log4net's `GeneratePriority` then
  throws `ArgumentException`, and `Append`'s catch logs it and drops the event.
- `JsonFragment.StripOuterBraces`: `StartsWith("{")` and `EndsWith("}")` are
  culture-sensitive in .NET and are modelled as ordinal character tests.
  Serialiser output never begins or ends with an ignorable character, which is
  the only case where the two could differ.
- `JsonConvert.SerializeObject` is a foreign library and is a function parameter.
  `JsonLayout.cs` is layout configuration and is not part of this model.
- `Server`, `Port` and `CertificatePath` are stored but only feed the connect
  step, which is left out. The inline `Certificate` property is not modelled.
- The `Level` objects are their integer values, with log4net's constants for Info,
  Notice, Warn, Error, Critical and Alert. A null level is not modelled.
