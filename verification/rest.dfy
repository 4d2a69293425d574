/** The response classification of `Client.Do` in kahla/kahla.go and its
    three error types. HTTP and JSON are abstract: a response is a status code
    and what the JSON decoder did to the caller's struct. */
module Rest {
  import opened Wrappers
  import Decimal

  /** The `Code` and `Message` fields that every response struct carries. */
  datatype Response = Response(code: int, message: string)

  /** What `json.NewDecoder(resp.Body).Decode(v)` did: the `code` and
      `message` keys it stored (None when absent or null, which Go leaves
      untouched), and the error it returned. */
  datatype BodyDecode = BodyDecode(code: Option<int>, message: Option<string>, err: Option<Cause>)

  /** The result of `c.client.Do(req)`. */
  datatype HttpOutcome = TransportFailed(cause: Cause) | HttpResponse(statusCode: int, body: BodyDecode)

  /** The errors `Do` returns: the HTTP client's own, or one of the three response errors. */
  datatype RestError =
    | TransportError(cause: Cause)
    | ResponseStatusCodeNot200(statusCode: int)
    | ResponseJsonDecodeError(message: string, err: Cause)
    | ResponseCodeNotZero(message: string)
  {
    /** The `Error()` text. */
    function Error(): string {
      match this
      case TransportError(c) => c.text
      case ResponseStatusCodeNot200(s) => StatusNot200Prefix + Decimal.FormatInt(s)
      case ResponseJsonDecodeError(m, e) => if m != "" then m else e.text
      case ResponseCodeNotZero(m) => CodeNotZeroPrefix + m
    }
  }

  const StatusNot200Prefix := "response status code not 200: "
  const CodeNotZeroPrefix := "response code not zero: "

  /** The value `initializeResponse` presets `Code` to. */
  const CodeUnset := -1

  /** The struct `v` after the call, and the error returned. */
  datatype DoResult = DoResult(v: Response, err: Option<RestError>)

  /** `initializeResponse`: only `Code` is touched. */
  function InitializeResponse(v: Response): (v': Response)
    ensures v'.code == CodeUnset && v'.message == v.message
  {
    v.(code := CodeUnset)
  }

  /** The decoder stores the keys it found and leaves the others alone. */
  function DecodeInto(v: Response, body: BodyDecode): (v': Response)
    ensures body.code.Some? ==> v'.code == body.code.value
    ensures body.code.None? ==> v'.code == v.code
    ensures body.message.Some? ==> v'.message == body.message.value
    ensures body.message.None? ==> v'.message == v.message
  {
    Response(body.code.GetOr(v.code), body.message.GetOr(v.message))
  }

  /** `Client.Do`: the status is checked first, then the decode error, then `Code`. */
  function Do(outcome: HttpOutcome, v: Response): (r: DoResult)
    // failures before the body is read leave v untouched
    ensures outcome.TransportFailed? ==> r == DoResult(v, Some(TransportError(outcome.cause)))
    ensures outcome.HttpResponse? && outcome.statusCode != 200 ==>
      r == DoResult(v, Some(ResponseStatusCodeNot200(outcome.statusCode)))
    // success exactly for status 200, a clean decode and a code of 0 actually sent
    ensures r.err.None? <==>
      outcome.HttpResponse? && outcome.statusCode == 200
      && outcome.body.err.None? && outcome.body.code == Some(0)
    // a decode error wins over the code check and carries the decoded message
    ensures outcome.HttpResponse? && outcome.statusCode == 200 && outcome.body.err.Some? ==>
      r.err == Some(ResponseJsonDecodeError(r.v.message, outcome.body.err.value))
    // a body without a code key is rejected, because Code was preset to -1
    ensures outcome.HttpResponse? && outcome.statusCode == 200 && outcome.body.err.None?
            && outcome.body.code.None? ==>
      r.v.code == CodeUnset && r.err == Some(ResponseCodeNotZero(r.v.message))
    // a clean decode with any code other than 0 is an application error carrying the message
    ensures outcome.HttpResponse? && outcome.statusCode == 200 && outcome.body.err.None? && r.v.code != 0 ==>
      r.err == Some(ResponseCodeNotZero(r.v.message))
    ensures outcome.HttpResponse? && outcome.statusCode == 200 ==>
      r.v.code == outcome.body.code.GetOr(CodeUnset) && r.v.message == outcome.body.message.GetOr(v.message)
  {
    match outcome
    case TransportFailed(c) => DoResult(v, Some(TransportError(c)))
    case HttpResponse(status, body) =>
      if status != 200 then DoResult(v, Some(ResponseStatusCodeNot200(status)))
      else
        var response := DecodeInto(InitializeResponse(v), body);
        if body.err.Some? then DoResult(response, Some(ResponseJsonDecodeError(response.message, body.err.value)))
        else if response.code != 0 then DoResult(response, Some(ResponseCodeNotZero(response.message)))
        else DoResult(response, None)
  }

  /** Reads the status code back out of a `ResponseStatusCodeNot200` text. */
  function StatusCodeOfError(text: string): Option<int> {
    var n := |StatusNot200Prefix|;
    if |text| >= n && text[..n] == StatusNot200Prefix then Decimal.ParseInt(text[n..]) else None
  }

  /** Reads the server's message back out of a `ResponseCodeNotZero` text. */
  function MessageOfCodeNotZero(text: string): Option<string> {
    var n := |CodeNotZeroPrefix|;
    if |text| >= n && text[..n] == CodeNotZeroPrefix then Some(text[n..]) else None
  }

  /** Each error text carries what its type holds: the status code, the
      server's message, or the decoder's own text when the message is empty. */
  lemma ErrorTextsCarryTheirData(status: int, message: string, inner: Cause)
    ensures StatusCodeOfError(ResponseStatusCodeNot200(status).Error()) == Some(status)
    ensures MessageOfCodeNotZero(ResponseCodeNotZero(message).Error()) == Some(message)
    ensures message != "" ==> ResponseJsonDecodeError(message, inner).Error() == message
    ensures message == "" ==> ResponseJsonDecodeError(message, inner).Error() == inner.text
  {
    var t := ResponseStatusCodeNot200(status).Error();
    assert t[|StatusNot200Prefix|..] == Decimal.FormatInt(status);
    Decimal.ParseFormatInt(status);
    var m := ResponseCodeNotZero(message).Error();
    assert m[|CodeNotZeroPrefix|..] == message;
  }
}
