/**
 * End to end: for any interleaving of Append and TrySendMessages calls, the
 * frames flushed to the connection, back to back, decode to a prefix of the
 * logged messages, in the order they were logged.
 */
module Delivery {
  import opened Wrappers
  import SyslogFormat
  import opened SenderSpec

  function Frames(ms: seq<string>): (fs: seq<string>)
    ensures |fs| == |ms| && forall i :: 0 <= i < |ms| ==> fs[i] == SyslogFormat.Frame(ms[i])
  {
    if ms == [] then [] else [SyslogFormat.Frame(ms[0])] + Frames(ms[1..])
  }

  /** The characters of the written frames, back to back. */
  function Flatten(ss: seq<string>): string {
    if ss == [] then "" else ss[0] + Flatten(ss[1..])
  }

  lemma {:induction false} FlattenFrames(ms: seq<string>)
    ensures Flatten(Frames(ms)) == SyslogFormat.ConcatFrames(ms)
  {
    if ms != [] {
      assert Frames(ms)[1..] == Frames(ms[1..]);
      FlattenFrames(ms[1..]);
    }
  }

  /** A wire that, followed by the queue, makes up the frames of `ms` carries a prefix of `ms`. */
  lemma WirePrefixDecodes(ms: seq<string>, wire: seq<string>, queue: seq<string>)
    requires wire + queue == Frames(ms)
    ensures |wire| <= |ms| && wire == Frames(ms[..|wire|])
            && SyslogFormat.DecodeStream(Flatten(wire)) == Some(ms[..|wire|])
  {
    var n := |wire|;
    assert wire == Frames(ms)[..n];
    assert Frames(ms)[..n] == Frames(ms[..n]);
    FlattenFrames(ms[..n]);
    SyslogFormat.StreamRoundTrip(ms[..n]);
  }

  /**
   * Starting from an empty wire with the frames of `ms` queued, after any run
   * of send attempts the wire holds the frames of a prefix of `ms`, and the
   * collector decodes the stream to exactly that prefix.
   */
  lemma DeliveredInOrder(s: Sender, attempts: seq<Attempt>, ms: seq<string>)
    requires s.wire == [] && s.queue == Frames(ms)
    ensures var w := Run(s, attempts).wire;
            |w| <= |ms| && w == Frames(ms[..|w|])
            && SyslogFormat.DecodeStream(Flatten(w)) == Some(ms[..|w|])
  {
    var r := Run(s, attempts);
    RunKeepsFrames(s, attempts);
    WirePrefixDecodes(ms, r.wire, r.queue);
  }

  /** What happens to the appender over time: a message is logged, or the sender thread makes an attempt. */
  datatype Event = Logged(message: string) | Tick(attempt: Attempt)

  /** Append enqueues the frame of the formatted message; an attempt is one TrySendMessages call. */
  function RunEvents(s: Sender, evs: seq<Event>): (r: Sender)
    ensures r.disposed == s.disposed
    decreases |evs|
  {
    if evs == [] then s
    else
      var s1 := match evs[0]
        case Logged(m) => s.(queue := s.queue + [SyslogFormat.Frame(m)])
        case Tick(a) => TrySend(s, a.connect, a.writes).after;
      RunEvents(s1, evs[1..])
  }

  /** The messages logged by a run of events, in order. */
  function Messages(evs: seq<Event>): (ms: seq<string>)
    ensures |ms| <= |evs|
    decreases |evs|
  {
    if evs == [] then []
    else (if evs[0].Logged? then [evs[0].message] else []) + Messages(evs[1..])
  }

  lemma FramesAppend(ms: seq<string>, ns: seq<string>)
    ensures Frames(ms + ns) == Frames(ms) + Frames(ns)
  {
  }

  /**
   * Whatever interleaving of logging and sending, the wire followed by the
   * queue is always the frames of every message logged so far, in order, and
   * nothing already on the wire is ever taken back.
   */
  lemma {:induction false} RunEventsKeepsFrames(s: Sender, evs: seq<Event>, ms: seq<string>)
    requires s.wire + s.queue == Frames(ms)
    decreases |evs|
    ensures var r := RunEvents(s, evs);
            r.wire + r.queue == Frames(ms + Messages(evs))
            && |s.wire| <= |r.wire| && r.wire[..|s.wire|] == s.wire
  {
    if evs != [] {
      var s1 := match evs[0]
        case Logged(m) => s.(queue := s.queue + [SyslogFormat.Frame(m)])
        case Tick(a) => TrySend(s, a.connect, a.writes).after;
      var ms1 := if evs[0].Logged? then ms + [evs[0].message] else ms;
      assert Messages(evs) == (if evs[0].Logged? then [evs[0].message] else []) + Messages(evs[1..]);
      assert ms + Messages(evs) == ms1 + Messages(evs[1..]);
      match evs[0] {
        case Logged(m) =>
          FramesAppend(ms, [m]);
          assert s1.wire + s1.queue == Frames(ms1);
          assert s1.wire == s.wire;
        case Tick(a) =>
          TrySendKeepsFrames(s, a.connect, a.writes);
      }
      RunEventsKeepsFrames(s1, evs[1..], ms1);
      var r := RunEvents(s1, evs[1..]);
      assert r.wire[..|s.wire|] == r.wire[..|s1.wire|][..|s.wire|];
    }
  }

  /**
   * Starting from a fresh appender (nothing queued, nothing sent), after any
   * interleaving of logging and sending the wire holds the frames of a prefix
   * of the logged messages, and the collector decodes it to exactly that prefix.
   */
  lemma DeliveredInLoggedOrder(s: Sender, evs: seq<Event>)
    requires s.wire == [] && s.queue == []
    ensures var w := RunEvents(s, evs).wire;
            var ms := Messages(evs);
            |w| <= |ms| && w == Frames(ms[..|w|])
            && SyslogFormat.DecodeStream(Flatten(w)) == Some(ms[..|w|])
  {
    var ms := Messages(evs);
    var r := RunEvents(s, evs);
    assert [] + ms == ms;
    RunEventsKeepsFrames(s, evs, []);
    WirePrefixDecodes(ms, r.wire, r.queue);
  }
}
