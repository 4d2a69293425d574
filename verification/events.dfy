/** The push events of kahla/websocket.go and `DecodeWebSocketEvent`, the
    two-pass decoder that reads the `type` discriminator first and then parses
    the frame again as the variant that type selects.

    JSON is abstract here: a frame is described by what each `json.Unmarshal`
    pass over it would produce. Go's `json.Unmarshal` may fill a struct partly
    and still return an error, so a failed pass carries its partial value. */
module Events {
  import opened Wrappers
  import Decimal

  const EventTypeNewMessage := 0
  const EventTypeNewFriendRequest := 1
  const EventTypeWereDeleted := 2
  const EventTypeFriendAccepted := 3

  /** The discriminators `DecodeWebSocketEvent` knows about. */
  predicate KnownEventType(t: int) {
    EventTypeNewMessage <= t <= EventTypeFriendAccepted
  }

  /** Result of one `json.Unmarshal` pass into a struct of type T. */
  datatype Parse<T> = Parsed(value: T) | ParseFailed(partial: T, cause: Cause) {
    function Value(): T {
      match this
      case Parsed(v) => v
      case ParseFailed(p, _) => p
    }
  }

  /** The `sender` object of a new-message event (its untyped `bio` and `sex` are left out). */
  datatype Sender = Sender(
    makeEmailPublic: bool,
    email: string,
    id: string,
    nickName: string,
    headImgFileKey: int,
    preferedLanguage: string,
    accountCreateTime: string,
    emailConfirmed: bool)

  /** The fields of `NewMessageEvent` besides the embedded type. */
  datatype NewMessageFields = NewMessageFields(
    conversationId: int,
    sender: Sender,
    content: string,
    aesKey: string,
    muted: bool,
    sentByMe: bool)

  /** One text frame, as the JSON decoder would see it on each pass.
      `envelope` is the first pass into `Event` (a missing `type` key parses as 0).
      `WereDeletedEvent` and `FriendAcceptedEvent` are `Event` under another
      name, so their second pass repeats the first and needs no field here. */
  datatype Frame = Frame(
    envelope: Parse<int>,
    asNewMessage: Parse<NewMessageFields>,
    asNewFriendRequest: Parse<string>)

  /** The dynamic value behind the decoder's `interface{}` result: the bare
      envelope `*Event` (returned with an envelope or type error) or one of
      the four event structs, each with its embedded `Type`. */
  datatype Value =
    | BareEvent(eventType: int)
    | NewMessageEvent(eventType: int, fields: NewMessageFields)
    | NewFriendRequestEvent(eventType: int, requesterId: string)
    | WereDeletedEvent(eventType: int)
    | FriendAcceptedEvent(eventType: int)

  /** The discriminator that selects each event struct. */
  function VariantType(v: Value): int {
    match v
    case BareEvent(t) => t
    case NewMessageEvent(_, _) => EventTypeNewMessage
    case NewFriendRequestEvent(_, _) => EventTypeNewFriendRequest
    case WereDeletedEvent(_) => EventTypeWereDeleted
    case FriendAcceptedEvent(_) => EventTypeFriendAccepted
  }

  /** An event struct whose embedded `Type` is the one that selects it. */
  predicate WellTyped(v: Value) {
    !v.BareEvent? && v.eventType == VariantType(v)
  }

  /** The errors the decoder returns: one from the JSON decoder, or `InvalidEventTypeError`. */
  datatype DecodeError = JsonError(cause: Cause) | InvalidEventTypeError(eventType: int) {
    /** The `Error()` text. */
    function Message(): string {
      match this
      case JsonError(c) => c.text
      case InvalidEventTypeError(t) => InvalidEventTypePrefix + Decimal.FormatInt(t)
    }
  }

  const InvalidEventTypePrefix := "invalid event type: "

  /** The pair `DecodeWebSocketEvent` returns. */
  datatype Decoded = Decoded(value: Value, err: Option<DecodeError>)

  /** `DecodeWebSocketEvent`: total over every frame; an unknown type is a
      returned error carrying that type, never a crash. */
  function DecodeWebSocketEvent(f: Frame): (r: Decoded)
    // the first pass failing wins before any variant is chosen
    ensures f.envelope.ParseFailed? ==>
      r.value == BareEvent(f.envelope.partial) && r.err == Some(JsonError(f.envelope.cause))
    // an unknown discriminator is reported with exactly that value
    ensures f.envelope.Parsed? && !KnownEventType(f.envelope.value) ==>
      r.value == BareEvent(f.envelope.value) && r.err == Some(InvalidEventTypeError(f.envelope.value))
    // a known discriminator always selects its own variant, whatever the second pass does
    ensures f.envelope.Parsed? && KnownEventType(f.envelope.value) ==>
      WellTyped(r.value) && r.value.eventType == f.envelope.value
    // the chosen variant carries what its second pass produced, and that pass's error
    ensures f.envelope == Parsed(EventTypeNewMessage) ==>
      r.value.fields == f.asNewMessage.Value() && r.err == SecondPassError(f.asNewMessage)
    ensures f.envelope == Parsed(EventTypeNewFriendRequest) ==>
      r.value.requesterId == f.asNewFriendRequest.Value() && r.err == SecondPassError(f.asNewFriendRequest)
    ensures r.value.BareEvent? <==> f.envelope.ParseFailed? || !KnownEventType(f.envelope.value)
    // an error comes back exactly when one of the passes failed or the type is unknown
    ensures r.err.None? <==> f.envelope.Parsed? && KnownEventType(f.envelope.value)
                              && (f.envelope.value == EventTypeNewMessage ==> f.asNewMessage.Parsed?)
                              && (f.envelope.value == EventTypeNewFriendRequest ==> f.asNewFriendRequest.Parsed?)
  {
    match f.envelope
    case ParseFailed(partial, cause) => Decoded(BareEvent(partial), Some(JsonError(cause)))
    case Parsed(t) =>
      if t == EventTypeNewMessage then
        Decoded(NewMessageEvent(t, f.asNewMessage.Value()), SecondPassError(f.asNewMessage))
      else if t == EventTypeNewFriendRequest then
        Decoded(NewFriendRequestEvent(t, f.asNewFriendRequest.Value()), SecondPassError(f.asNewFriendRequest))
      else if t == EventTypeWereDeleted then
        Decoded(WereDeletedEvent(t), None)
      else if t == EventTypeFriendAccepted then
        Decoded(FriendAcceptedEvent(t), None)
      else
        Decoded(BareEvent(t), Some(InvalidEventTypeError(t)))
  }

  /** The error of a second pass: the JSON decoder's own, or none. */
  function SecondPassError<T>(p: Parse<T>): Option<DecodeError> {
    match p
    case Parsed(_) => None
    case ParseFailed(_, cause) => Some(JsonError(cause))
  }

  /** The frame a well-behaved server sends for an event: both passes parse. */
  function Encode(v: Value): (f: Frame)
    requires WellTyped(v)
    ensures f.envelope == Parsed(v.eventType)
  {
    match v
    case NewMessageEvent(t, fields) =>
      Frame(Parsed(t), Parsed(fields), Parsed(""))
    case NewFriendRequestEvent(t, id) =>
      Frame(Parsed(t), Parsed(NewMessageFields(0, Sender(false, "", "", "", 0, "", "", false), "", "", false, false)), Parsed(id))
    case _ =>
      Frame(Parsed(v.eventType), Parsed(NewMessageFields(0, Sender(false, "", "", "", 0, "", "", false), "", "", false, false)), Parsed(""))
  }

  /** Decoding what was encoded gives back the event, without error. */
  lemma DecodeEncode(v: Value)
    requires WellTyped(v)
    ensures DecodeWebSocketEvent(Encode(v)) == Decoded(v, None)
  {
  }

  /** Reads the type back out of an `InvalidEventTypeError` message. */
  function InvalidEventTypeOfMessage(m: string): Option<int> {
    var n := |InvalidEventTypePrefix|;
    if |m| >= n && m[..n] == InvalidEventTypePrefix then Decimal.ParseInt(m[n..]) else None
  }

  /** The message of an `InvalidEventTypeError` names exactly its type. */
  lemma InvalidEventTypeMessageCarriesType(t: int)
    ensures InvalidEventTypeOfMessage(InvalidEventTypeError(t).Message()) == Some(t)
  {
    var m := InvalidEventTypeError(t).Message();
    assert m[|InvalidEventTypePrefix|..] == Decimal.FormatInt(t);
    Decimal.ParseFormatInt(t);
  }
}
