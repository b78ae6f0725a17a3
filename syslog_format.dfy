/**
 * The syslog frame formatter of RemoteSyslog5424Appender: mapping a log4net
 * level onto a syslog severity, the PRI value of section 6.2.1 of RFC 5424,
 * the message header with NILVALUE defaults (section 6.2 of RFC 5424), the
 * optional trailer character and the octet-counting frame of section 3.4.1 of
 * RFC 6587. The parsers at the end are what a collector does with the frames;
 * the formatter is proved against them (round trips).
 */
module SyslogFormat {
  import opened Wrappers
  import Decimal

  // ---------------------------------------------------------------------------
  // Levels and severities

  /** A log4net level is compared by its integer value; these are log4net's values. */
  type Level = int

  const InfoLevel: Level := 40000
  const NoticeLevel: Level := 50000
  const WarnLevel: Level := 60000
  const ErrorLevel: Level := 70000
  const CriticalLevel: Level := 90000
  const AlertLevel: Level := 100000

  /** The syslog severities of section 6.2.1 of RFC 5424, in code order. */
  datatype Severity = Emergency | Alert | Critical | Error | Warning | Notice | Informational | Debug

  function SeverityCode(s: Severity): (c: nat)
    ensures c < 8
  {
    match s
    case Emergency => 0
    case Alert => 1
    case Critical => 2
    case Error => 3
    case Warning => 4
    case Notice => 5
    case Informational => 6
    case Debug => 7
  }

  /** The level-to-severity if-chain: the first threshold the level reaches wins. */
  function GetSeverity(level: Level): (s: Severity)
    ensures s != Emergency
    ensures s == Alert <==> level >= AlertLevel
    ensures s == Critical <==> CriticalLevel <= level < AlertLevel
    ensures s == Error <==> ErrorLevel <= level < CriticalLevel
    ensures s == Warning <==> WarnLevel <= level < ErrorLevel
    ensures s == Notice <==> NoticeLevel <= level < WarnLevel
    ensures s == Informational <==> InfoLevel <= level < NoticeLevel
    ensures s == Debug <==> level < InfoLevel
  {
    if level >= AlertLevel then Alert
    else if level >= CriticalLevel then Critical
    else if level >= ErrorLevel then Error
    else if level >= WarnLevel then Warning
    else if level >= NoticeLevel then Notice
    else if level >= InfoLevel then Informational
    else Debug
  }

  /** A more important level never maps to a numerically larger severity. */
  lemma SeverityMonotone(lo: Level, hi: Level)
    requires lo <= hi
    ensures SeverityCode(GetSeverity(hi)) <= SeverityCode(GetSeverity(lo))
  {
  }

  // ---------------------------------------------------------------------------
  // Facility and PRI

  /** log4net's SyslogFacility enumeration: Kernel = 0, User = 1, ..., Local7 = 23. */
  type Facility = f: nat | f < 24

  const UserFacility: Facility := 1

  /** PRI = facility * 8 + severity; the two parts can be read back from it. */
  function Priority(facility: Facility, severity: Severity): (pri: nat)
    ensures pri < 192
    ensures pri / 8 == facility && pri % 8 == SeverityCode(severity)
  {
    facility * 8 + SeverityCode(severity)
  }

  function GeneratePriority(facility: Facility, level: Level): (pri: nat)
    ensures pri / 8 == facility
    ensures pri % 8 == SeverityCode(GetSeverity(level))
  {
    Priority(facility, GetSeverity(level))
  }

  /** With the default facility, an Info event has PRI 14 and an Error event PRI 11. */
  lemma DefaultFacilityExamples()
    ensures GeneratePriority(UserFacility, InfoLevel) == 14
    ensures GeneratePriority(UserFacility, ErrorLevel) == 11
  {
  }

  // ---------------------------------------------------------------------------
  // Identity fields

  const NilValue: string := "-"

  /** The getters of Hostname, AppName, ProcId and MessageId: a field never set reads as `-`. */
  function NilOr(field: Option<string>): (r: string)
    ensures field.None? ==> r == NilValue
    ensures field.Some? ==> r == field.value
    ensures r == NilValue <==> field in {None, Some(NilValue)}
  {
    field.GetOr(NilValue)
  }

  // ---------------------------------------------------------------------------
  // Message and frame

  function TrailerText(trailer: Option<char>): string {
    if trailer.Some? then [trailer.value] else []
  }

  /** `<PRI>VERSION TIME HOST APP PROCID MSGID MSG`, then the trailer character if one is set. */
  function FormatMessage(pri: nat, version: nat, time: string, host: string, app: string,
                         procId: string, msgId: string, msg: string, trailer: Option<char>): string
  {
    "<" + Decimal.Show(pri) + ">" + HeaderFields(version, time, host, app, procId, msgId, msg)
      + TrailerText(trailer)
  }

  /** Everything after `<PRI>` up to the end of MSG: the fields joined by single spaces. */
  function HeaderFields(version: nat, time: string, host: string, app: string, procId: string,
                        msgId: string, msg: string): string
  {
    Decimal.Show(version) + " " + FieldsAfterVersion(time, host, app, procId, msgId, msg)
  }

  function FieldsAfterVersion(time: string, host: string, app: string, procId: string, msgId: string,
                              msg: string): string
  {
    time + " " + host + " " + app + " " + procId + " " + msgId + " " + msg
  }

  /** Octet-counting framing: the message's length in characters, a space, the message. */
  function Frame(message: string): string {
    Decimal.Show(|message|) + " " + message
  }

  /**
   * A frame is the message's length as a non-empty run of digits, one space,
   * and the message itself, unchanged.
   */
  lemma FrameLayout(message: string)
    ensures var f := Frame(message);
            var n := |Decimal.Show(|message|)|;
            0 < n && |f| == n + 1 + |message| && Decimal.AllDigits(f[..n]) && f[n] == ' '
            && f[n + 1..] == message && Decimal.Parse(f[..n]) == |message|
  {
    var f := Frame(message);
    var d := Decimal.Show(|message|);
    assert f == d + [' '] + message;
    assert f[..|d|] == d;
    Decimal.ParseShow(|message|);
  }

  /**
   * A formatted message opens with `<` and closes with MSG followed by the
   * trailer text; the header fields sit between them.
   */
  lemma MessageLayout(pri: nat, version: nat, time: string, host: string, app: string,
                      procId: string, msgId: string, msg: string, trailer: Option<char>)
    ensures var r := FormatMessage(pri, version, time, host, app, procId, msgId, msg, trailer);
            r != [] && r[0] == '<' && EndsWith(r, msg + TrailerText(trailer))
  {
  }

  // ---------------------------------------------------------------------------
  // Collector side: reading frames and the PRI back

  /** Index of the first occurrence of c in s, if any. */
  function IndexOf(s: string, c: char): (r: Option<nat>)
    ensures r.Some? ==> r.value < |s| && s[r.value] == c && c !in s[..r.value]
    ensures r.None? ==> c !in s
  {
    if s == [] then None
    else if s[0] == c then Some(0)
    else match IndexOf(s[1..], c)
      case None => None
      case Some(i) => Some(i + 1)
  }

  lemma {:induction false} IndexOfAfter(a: string, c: char, b: string)
    requires c !in a
    ensures IndexOf(a + [c] + b, c) == Some(|a|)
  {
    if a != [] {
      assert (a + [c] + b)[1..] == a[1..] + [c] + b;
      IndexOfAfter(a[1..], c, b);
    }
  }

  /**
   * Reads one frame off the front of a stream: the digits before the first
   * space give the message length, and that many characters after the space
   * are the message. Returns the message and the rest of the stream.
   */
  function ParseFrame(s: string): (r: Option<(string, string)>)
    ensures r.Some? ==> |r.value.1| < |s|
  {
    match IndexOf(s, ' ')
    case None => None
    case Some(i) =>
      var prefix := s[..i];
      if prefix == [] || !Decimal.AllDigits(prefix) then None
      else
        var n := Decimal.Parse(prefix);
        if i + 1 + n > |s| then None
        else Some((s[i + 1..i + 1 + n], s[i + 1 + n..]))
  }

  /** Splits a whole stream into its messages; None if it is not a sequence of frames. */
  function DecodeStream(s: string): Option<seq<string>>
    decreases |s|
  {
    if s == [] then Some([])
    else match ParseFrame(s)
      case None => None
      case Some((m, rest)) =>
        match DecodeStream(rest)
        case None => None
        case Some(ms) => Some([m] + ms)
  }

  /** The frames of the messages, back to back, as they go out on one connection. */
  function ConcatFrames(ms: seq<string>): string {
    if ms == [] then "" else Frame(ms[0]) + ConcatFrames(ms[1..])
  }

  lemma DigitsHaveNo(s: string, c: char)
    requires Decimal.AllDigits(s) && !Decimal.IsDigit(c)
    ensures c !in s
  {
  }

  /** Round trip: the length prefix delimits exactly the message, whatever follows it. */
  lemma FrameRoundTrip(m: string, rest: string)
    ensures ParseFrame(Frame(m) + rest) == Some((m, rest))
  {
    var p := Decimal.Show(|m|);
    var s := Frame(m) + rest;
    assert s == p + [' '] + (m + rest);
    DigitsHaveNo(p, ' ');
    IndexOfAfter(p, ' ', m + rest);
    assert s[..|p|] == p;
    Decimal.ParseShow(|m|);
    assert s[|p| + 1..|p| + 1 + |m|] == m;
    assert s[|p| + 1 + |m|..] == rest;
  }

  /** Round trip for a stream: frames sent back to back decode to the same messages, in order. */
  lemma {:induction false} StreamRoundTrip(ms: seq<string>)
    ensures DecodeStream(ConcatFrames(ms)) == Some(ms)
  {
    if ms != [] {
      FrameRoundTrip(ms[0], ConcatFrames(ms[1..]));
      StreamRoundTrip(ms[1..]);
      assert [ms[0]] + ms[1..] == ms;
    }
  }

  /** The PRI of a message: the digits between a leading `<` and the first `>`. */
  function ParsePri(m: string): Option<nat> {
    if m == [] || m[0] != '<' then None
    else match IndexOf(m[1..], '>')
      case None => None
      case Some(j) =>
        if m[1..][..j] != [] && Decimal.AllDigits(m[1..][..j]) then Some(Decimal.Parse(m[1..][..j]))
        else None
  }

  /**
   * A formatted message announces its PRI in front, so facility and severity
   * can be read back; it ends with the trailer character exactly when one is set.
   */
  lemma MessageHeader(pri: nat, version: nat, time: string, host: string, app: string,
                      procId: string, msgId: string, msg: string, trailer: Option<char>)
    ensures ParsePri(FormatMessage(pri, version, time, host, app, procId, msgId, msg, trailer)) == Some(pri)
    ensures trailer.Some? ==> Last(FormatMessage(pri, version, time, host, app, procId, msgId, msg, trailer)) == trailer.value
    ensures trailer.None? ==> EndsWith(FormatMessage(pri, version, time, host, app, procId, msgId, msg, trailer), msg)
    ensures trailer.Some? ==> FormatMessage(pri, version, time, host, app, procId, msgId, msg, trailer)
                              == FormatMessage(pri, version, time, host, app, procId, msgId, msg, None) + [trailer.value]
  {
    var m := FormatMessage(pri, version, time, host, app, procId, msgId, msg, trailer);
    var p := Decimal.Show(pri);
    var fields := HeaderFields(version, time, host, app, procId, msgId, msg);
    var tail := fields + TrailerText(trailer);
    assert m == "<" + p + ">" + fields + TrailerText(trailer);
    assert m == ['<'] + (p + ['>'] + tail);
    assert m[1..] == p + ['>'] + tail;
    DigitsHaveNo(p, '>');
    IndexOfAfter(p, '>', tail);
    assert m[1..][..|p|] == p;
    Decimal.ParseShow(pri);
  }

  /** The first characters of a message are `<PRI>VERSION ` with both numbers in decimal. */
  lemma MessageStart(pri: nat, version: nat, time: string, host: string, app: string, procId: string,
                     msgId: string, msg: string, trailer: Option<char>)
    ensures var start := "<" + Decimal.Show(pri) + ">" + Decimal.Show(version) + " ";
            var m := FormatMessage(pri, version, time, host, app, procId, msgId, msg, trailer);
            |start| <= |m| && m[..|start|] == start
  {
    var start := "<" + Decimal.Show(pri) + ">" + Decimal.Show(version) + " ";
    var rest := FieldsAfterVersion(time, host, app, procId, msgId, msg) + TrailerText(trailer);
    assert FormatMessage(pri, version, time, host, app, procId, msgId, msg, trailer) == start + rest;
  }

  /** With the default facility and version 1, an Info message begins `<14>1 `. */
  lemma InfoMessageStart(time: string, host: string, app: string, procId: string, msgId: string,
                         msg: string, trailer: Option<char>)
    ensures FormatMessage(GeneratePriority(UserFacility, InfoLevel), 1, time, host, app, procId, msgId, msg,
                          trailer)[..6] == "<14>1 "
  {
    MessageStart(14, 1, time, host, app, procId, msgId, msg, trailer);
    assert Decimal.Show(14) == "14" && Decimal.Show(1) == "1";
  }

  /** With the default facility and version 1, an Error message begins `<11>1 `. */
  lemma ErrorMessageStart(time: string, host: string, app: string, procId: string, msgId: string,
                          msg: string, trailer: Option<char>)
    ensures FormatMessage(GeneratePriority(UserFacility, ErrorLevel), 1, time, host, app, procId, msgId, msg,
                          trailer)[..6] == "<11>1 "
  {
    MessageStart(11, 1, time, host, app, procId, msgId, msg, trailer);
    assert Decimal.Show(11) == "11" && Decimal.Show(1) == "1";
  }

  function Last(s: string): char
    requires s != []
  {
    s[|s| - 1]
  }

  predicate EndsWith(s: string, suffix: string) {
    |suffix| <= |s| && s[|s| - |suffix|..] == suffix
  }

  /**
   * What Append enqueues: the framed message. Its PRI decodes to the configured
   * facility and the level's severity, and its frame decodes back to the message.
   */
  function FormatFrame(facility: Facility, level: Level, version: nat, time: string, host: string,
                       app: string, procId: string, msgId: string, msg: string,
                       trailer: Option<char>): (frame: string)
    ensures ParseFrame(frame) == Some((FormatMessage(GeneratePriority(facility, level), version, time,
                                                     host, app, procId, msgId, msg, trailer), ""))
  {
    var message := FormatMessage(GeneratePriority(facility, level), version, time, host, app, procId,
                                 msgId, msg, trailer);
    FrameRoundTrip(message, "");
    assert Frame(message) + "" == Frame(message);
    Frame(message)
  }
}
