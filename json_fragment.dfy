/**
 * JsonFragmentPatternConverter: serialises either the rendered message (with
 * the exception, when there is one) or the message object itself, then drops
 * one pair of outer braces so that the result can be spliced into an
 * enclosing JSON object. The serialiser is a foreign library and is passed in
 * as a function.
 */
module JsonFragment {
  import opened Wrappers

  /** The runtime type of a logging event's message object, as far as the converter looks at it. */
  datatype MessageObject =
    | NullObject
    | StringObject(text: string)
    /** log4net's SystemStringFormat, the message object of the `*Format` logging calls. */
    | StringFormatObject(format: string, args: seq<string>)
    /** Any other object; `id` stands for its identity. */
    | OtherObject(id: nat)

  /** An exception object; `id` stands for its identity. */
  datatype ExceptionObject = ExceptionObject(id: nat)

  datatype LoggingEvent = LoggingEvent(renderedMessage: string, messageObject: MessageObject,
                                       exceptionObject: Option<ExceptionObject>)

  /** What is handed to the serialiser: an anonymous object or the message object itself. */
  datatype Payload =
    | MessageWithException(message: string, exception: ExceptionObject)
    | MessageOnly(message: string)
    | Direct(obj: MessageObject)

  /** The first SerializeObject call passes no Formatting argument; the other two pass Formatting.None. */
  datatype Formatting = DefaultFormatting | NoFormatting

  /** Which object is serialised, and with which Formatting argument. */
  function SelectPayload(e: LoggingEvent): (r: (Payload, Formatting))
    ensures e.exceptionObject.Some? ==>
              r == (MessageWithException(e.renderedMessage, e.exceptionObject.value), DefaultFormatting)
    ensures e.exceptionObject.None? && !e.messageObject.OtherObject? ==>
              r == (MessageOnly(e.renderedMessage), NoFormatting)
    ensures e.exceptionObject.None? && e.messageObject.OtherObject? ==>
              r == (Direct(e.messageObject), NoFormatting)
    ensures r.0.Direct? ==> r.0.obj.OtherObject?
  {
    match e.exceptionObject
    case Some(x) => (MessageWithException(e.renderedMessage, x), DefaultFormatting)
    case None =>
      if e.messageObject.NullObject? || e.messageObject.StringObject? || e.messageObject.StringFormatObject?
      then (MessageOnly(e.renderedMessage), NoFormatting)
      else (Direct(e.messageObject), NoFormatting)
  }

  predicate Braced(json: string) {
    |json| >= 1 && json[0] == '{' && json[|json| - 1] == '}'
  }

  /** Drops the first and last character when the text starts with `{` and ends with `}`. */
  function StripOuterBraces(json: string): (r: string)
    ensures Braced(json) ==> |json| >= 2 && r == json[1..|json| - 1] && |r| == |json| - 2
    ensures !Braced(json) ==> r == json
  {
    if Braced(json) then json[1..|json| - 1] else json
  }

  /** Wrapping any text in braces and stripping gives the text back. */
  lemma StripUnwraps(body: string)
    ensures StripOuterBraces("{" + body + "}") == body
  {
  }

  /** Only one pair is removed, and a one-character text is never changed. */
  lemma StripOnce(c: char)
    ensures StripOuterBraces("{{}}") == "{}"
    ensures StripOuterBraces([c]) == [c]
  {
  }

  /** The converter: the text it writes for an event, given the serialiser. */
  function Convert(e: LoggingEvent, serialize: (Payload, Formatting) -> string): (r: string)
    ensures var json := serialize(SelectPayload(e).0, SelectPayload(e).1);
            (Braced(json) ==> "{" + r + "}" == json) && (!Braced(json) ==> r == json)
  {
    var (payload, formatting) := SelectPayload(e);
    var json := serialize(payload, formatting);
    StripOuterBraces(json)
  }

  /** With an exception present, the message object plays no part in the output. */
  lemma ExceptionHidesMessageObject(e: LoggingEvent, other: MessageObject,
                                    serialize: (Payload, Formatting) -> string)
    requires e.exceptionObject.Some?
    ensures Convert(e, serialize) == Convert(e.(messageObject := other), serialize)
  {
  }
}
