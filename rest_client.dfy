/**
 * The authenticated transport: HMAC-signed POST payloads, unsigned GETs, and
 * the classification of every response into a body, a RequestError, or an
 * escaping built-in error.
 */
module Rest {
  import opened Wrappers
  import opened Decimal
  import opened Json
  import opened Http
  import opened Exceptions

  const EndpointPrefix: string := "https://api.quadrigacx.com/v2"

  /** The three payload names the transport writes into every POST. */
  const SigningFields: set<string> := {"key", "nonce", "signature"}

  /** The integers of Python's `range(lo, hi)`, as a set. */
  function Range(lo: int, hi: int): (r: set<int>)
    ensures forall k :: k in r <==> lo <= k < hi
    ensures lo <= hi ==> |r| == hi - lo
    decreases hi - lo
  {
    if lo >= hi then {} else {lo} + Range(lo + 1, hi)
  }

  /** The status codes taken as success. */
  function SuccessCodes(): (r: set<int>)
    ensures forall k :: k in r <==> 200 <= k < 210
  {
    Range(200, 210)
  }

  /** The band is ten codes wide and stops short of the rest of 2xx. */
  lemma SuccessCodesNotTwoHundredBand()
    ensures |SuccessCodes()| == 10
    ensures 199 !in SuccessCodes() && 210 !in SuccessCodes() && 299 !in SuccessCodes()
  {
  }

  /** The text that is signed: decimal nonce, client id, API key, in that order. */
  function SignedMessage(nonce: int, clientId: string, apiKey: string): (m: string)
    ensures |m| == |IntToString(nonce)| + |clientId| + |apiKey|
    ensures m[..|IntToString(nonce)|] == IntToString(nonce)
    ensures m[|IntToString(nonce)|..|m| - |apiKey|] == clientId
    ensures m[|m| - |apiKey|..] == apiKey
  {
    IntToString(nonce) + clientId + apiKey
  }

  /** The signed message splits back into the nonce and the credentials. */
  lemma SignedMessageSplits(nonce: int, clientId: string, apiKey: string)
    ensures |IntToString(nonce)| <= |SignedMessage(nonce, clientId, apiKey)|
    ensures ParseInt(SignedMessage(nonce, clientId, apiKey)[..|IntToString(nonce)|]) == Some(nonce)
    ensures SignedMessage(nonce, clientId, apiKey)[|IntToString(nonce)|..] == clientId + apiKey
  {
    var m := SignedMessage(nonce, clientId, apiKey);
    assert m[..|IntToString(nonce)|] == IntToString(nonce);
    ParseIntToString(nonce);
  }

  /** For fixed credentials, different nonces give different signed messages. */
  lemma SignedMessageInjective(n1: int, n2: int, clientId: string, apiKey: string)
    requires SignedMessage(n1, clientId, apiKey) == SignedMessage(n2, clientId, apiKey)
    ensures n1 == n2
  {
    var m := SignedMessage(n1, clientId, apiKey);
    var tail := clientId + apiKey;
    assert IntToString(n1) == m[..|m| - |tail|];
    assert IntToString(n2) == m[..|m| - |tail|];
    IntToStringInjective(n1, n2);
  }

  /** The message is not delimited: across client ids the nonce boundary is lost. */
  lemma SignedMessageUndelimited(apiKey: string)
    ensures SignedMessage(12, "3abc", apiKey) == SignedMessage(123, "abc", apiKey)
  {
    assert IntToString(12) == "12";
    assert IntToString(123) == "123";
  }

  /** The longest prefix of `s` that does not contain `stop`. */
  function UpTo(s: string, stop: char): string
  {
    if s == [] || s[0] == stop then [] else [s[0]] + UpTo(s[1..], stop)
  }

  lemma {:induction false} UpToStop(prefix: string, stop: char, rest: string)
    requires stop !in prefix
    ensures UpTo(prefix + [stop] + rest, stop) == prefix
  {
    if prefix != [] {
      assert (prefix + [stop] + rest)[1..] == prefix[1..] + [stop] + rest;
      UpToStop(prefix[1..], stop, rest);
    }
  }

  /** The status code written in a message that starts with "[HTTP <code>]". */
  function StatusInMessage(message: string): Option<int>
  {
    if |message| >= 6 && message[..6] == "[HTTP " then ParseInt(UpTo(message[6..], ']')) else None
  }

  /** "[HTTP <code>]", the tag that opens every RequestError message. */
  function HttpTag(code: int): string
  {
    "[HTTP " + IntToString(code) + "]"
  }

  lemma HttpTagNamesStatus(code: int, rest: string)
    ensures StatusInMessage(HttpTag(code) + rest) == Some(code)
  {
    var digits := IntToString(code);
    assert forall i :: 0 <= i < |digits| ==> digits[i] != ']';
    var m := HttpTag(code) + rest;
    assert m[..6] == "[HTTP ";
    assert m[6..] == digits + [']'] + rest;
    UpToStop(digits, ']', rest);
    ParseIntToString(code);
  }

  /** '[HTTP {}] {}' with the status code and the reason phrase. */
  function StatusMessage(code: int, reason: string): (m: string)
    ensures StatusInMessage(m) == Some(code)
    ensures |HttpTag(code)| <= |m| && m[|HttpTag(code)|..] == " " + reason
  {
    HttpTagNamesStatus(code, " " + reason);
    HttpTag(code) + (" " + reason)
  }

  /** '[HTTP {}] response body: {}' with the status code and the raw text. */
  function BodyMessage(code: int, text: string): (m: string)
    ensures StatusInMessage(m) == Some(code)
    ensures |HttpTag(code)| <= |m| && m[|HttpTag(code)|..] == " response body: " + text
  {
    HttpTagNamesStatus(code, " response body: " + text);
    HttpTag(code) + (" response body: " + text)
  }

  /** `error.get('code', '?')`: the code of an embedded error object, '?' when it has none. */
  function ErrorCode(err: map<string, Json>): (c: Json)
    ensures "code" in err ==> c == err["code"]
    ensures "code" !in err ==> c == JStr("?")
  {
    DictGet(err, "code", JStr("?"))
  }

  /**
   * The `error_code` a RequestError ends up holding.  A stored JSON null is
   * Python's None, which is also the value RequestError keeps when no code is
   * given, so an embedded `"code": null` leaves the error without a code.
   */
  function RaisedErrorCode(err: map<string, Json>): (r: Option<Json>)
    ensures r.None? <==> ("code" in err && err["code"] == JNull)
    ensures r.Some? ==> r.value == ErrorCode(err) && r.value != JNull
  {
    if ErrorCode(err) == JNull then None else Some(ErrorCode(err))
  }

  /** '[HTTP {}][ERR {}] {}' with the status code, the embedded code and the embedded message. */
  function ErrorMessage(code: int, err: map<string, Json>): (m: string)
    ensures StatusInMessage(m) == Some(code)
    ensures |HttpTag(code)| <= |m|
    ensures m[|HttpTag(code)|..] == "[ERR " + Str(ErrorCode(err)) + "] " + Str(DictGet(err, "message", JStr("no error message")))
  {
    HttpTagNamesStatus(code, "[ERR " + Str(ErrorCode(err)) + "] " + Str(DictGet(err, "message", JStr("no error message"))));
    HttpTag(code) + ("[ERR " + Str(ErrorCode(err)) + "] " + Str(DictGet(err, "message", JStr("no error message"))))
  }

  /**
   * The check of a decoded body (`'error' in body` and what follows): it raises
   * only for a dict whose `error` member is a dict, and otherwise returns the
   * body unchanged or lets a built-in error escape.
   */
  function CheckBody(response: Response, body: Json): (r: Outcome<Json>)
    ensures r.Returned? ==> r.value == body
    ensures r.Raised? ==> (body.JObj? && "error" in body.fields && body.fields["error"].JObj?
      && r.error == NewRequestError(response, ErrorMessage(response.statusCode, body.fields["error"].fields),
                                    RaisedErrorCode(body.fields["error"].fields)))
  {
    match Contains(body, "error")
    case None => Crashed(TypeError)
    case Some(false) => Returned(body)
    case Some(true) =>
      match body
      case JObj(fields) =>
        (match fields["error"]
         case JObj(err) =>
           Raised(NewRequestError(response, ErrorMessage(response.statusCode, err), RaisedErrorCode(err)))
         case _ => Crashed(AttributeError))
      case _ => Crashed(TypeError)
  }

  class RestClient {
    const apiKey: string
    /** The API secret; its UTF-8 encoding happens inside `hmacSha256Hex`. */
    const hmacKey: string
    const clientId: string
    const httpSuccess: set<int>
    /** Hex digest of HMAC-SHA256 under (key, message): a foreign library call, left uninterpreted. */
    const hmacSha256Hex: (string, string) -> string

    constructor(apiKey: string, apiSecret: string, clientId: string, hmacSha256Hex: (string, string) -> string)
      ensures this.apiKey == apiKey && hmacKey == apiSecret && this.clientId == clientId
      ensures this.hmacSha256Hex == hmacSha256Hex
      ensures httpSuccess == SuccessCodes()
    {
      this.apiKey := apiKey;
      hmacKey := apiSecret;
      this.clientId := clientId;
      this.hmacSha256Hex := hmacSha256Hex;
      httpSuccess := SuccessCodes();
    }

    /** `_compute_signature`: HMAC-SHA256 under the secret of decimal nonce, client id and API key. */
    function ComputeSignature(nonce: int): (s: string)
      ensures s == hmacSha256Hex(hmacKey, IntToString(nonce) + clientId + apiKey)
    {
      hmacSha256Hex(hmacKey, SignedMessage(nonce, clientId, apiKey))
    }

    /**
     * The caller's payload after `post` has written the signing fields: every
     * caller entry survives except those the three fields overwrite, and
     * nothing else is added.
     */
    function SignedPayload(caller: map<string, Json>, nonce: int): (p: map<string, Json>)
      ensures p.Keys == caller.Keys + SigningFields
      ensures forall k :: k in caller && k !in SigningFields ==> p[k] == caller[k]
      ensures p["key"] == JStr(apiKey)
      ensures p["nonce"] == JNum(nonce)
      ensures p["signature"] == JStr(ComputeSignature(nonce))
    {
      caller["key" := JStr(apiKey)]["nonce" := JNum(nonce)]["signature" := JStr(ComputeSignature(nonce))]
    }

    /**
     * `_handle_response`: status first, then JSON decoding, then an embedded
     * `error` member.  A body is returned only from a success status, and
     * unchanged; whatever is raised carries the response's context.
     */
    function HandleResponse(response: Response): (r: Outcome<Json>)
      ensures r.Returned? ==> response.statusCode in httpSuccess && response.json == Some(r.value)
      ensures r.Raised? ==> (r.error.RequestError? && r.error.url == response.url
        && r.error.body == response.text && r.error.headers == response.headers
        && r.error.httpCode == response.statusCode)
      ensures r.Raised? ==> r.error.errorCode != Some(JNull)
      ensures r.Raised? ==> (r.error.errorCode.Some? <==>
        (response.statusCode in httpSuccess && response.json.Some? && response.json.value.JObj?
         && "error" in response.json.value.fields && response.json.value.fields["error"].JObj?
         && ErrorCode(response.json.value.fields["error"].fields) != JNull))
    {
      var code := response.statusCode;
      if code !in httpSuccess then
        Raised(NewRequestError(response, StatusMessage(code, response.reason)))
      else
        match response.json
        case None => Raised(NewRequestError(response, BodyMessage(code, response.text)))
        case Some(body) => CheckBody(response, body)
    }
    /** `get`: an unsigned GET of the prefixed endpoint with the parameters as given. */
    method Get(network: Request -> Response, endpoint: string, params: Option<map<string, Json>> := None)
      returns (r: Outcome<Json>)
      ensures r == HandleResponse(network(GetRequest(EndpointPrefix + endpoint, params)))
    {
      var response := network(GetRequest(EndpointPrefix + endpoint, params));
      r := HandleResponse(response);
    }

    /**
     * `post`: signs `nonce`, writes the signing fields into the caller's dict
     * (or into a new one when there is none) and posts the result.
     */
    method Post(network: Request -> Response, nonce: int, endpoint: string, payload: Dict? := null)
      returns (r: Outcome<Json>)
      modifies payload
      ensures payload != null ==> payload.items == SignedPayload(old(payload.items), nonce)
      ensures r == HandleResponse(network(PostRequest(
        EndpointPrefix + endpoint,
        SignedPayload(if payload == null then map[] else old(payload.items), nonce))))
    {
      var signature := ComputeSignature(nonce);
      var target := payload;
      if target == null {
        target := new Dict(map[]);
      }
      target.items := target.items["key" := JStr(apiKey)];
      target.items := target.items["nonce" := JNum(nonce)];
      target.items := target.items["signature" := JStr(signature)];
      var response := network(PostRequest(EndpointPrefix + endpoint, target.items));
      r := HandleResponse(response);
    }
  }

  /** Two clients with the same secret, client id and API key sign a nonce alike. */
  lemma SignatureDeterministic(a: RestClient, b: RestClient, nonce: int)
    requires a.hmacKey == b.hmacKey && a.clientId == b.clientId && a.apiKey == b.apiKey
    requires a.hmacSha256Hex == b.hmacSha256Hex
    ensures a.ComputeSignature(nonce) == b.ComputeSignature(nonce)
  {
  }

  /** A status outside the success set raises "[HTTP <code>] <reason>" without reading the body. */
  lemma HandleFailedStatus(c: RestClient, response: Response)
    requires response.statusCode !in c.httpSuccess
    ensures c.HandleResponse(response)
      == Raised(NewRequestError(response, HttpTag(response.statusCode) + (" " + response.reason)))
  {
  }

  /** A success status with an undecodable body raises "[HTTP <code>] response body: <text>". */
  lemma HandleUndecodableBody(c: RestClient, response: Response)
    requires response.statusCode in c.httpSuccess && response.json.None?
    ensures c.HandleResponse(response)
      == Raised(NewRequestError(response, HttpTag(response.statusCode) + (" response body: " + response.text)))
  {
  }

  /**
   * A decoded dict with an `error` dict raises with the embedded code ('?' when
   * absent) both as the error code and in the message, followed by the embedded
   * message or 'no error message'.
   */
  lemma HandleEmbeddedError(c: RestClient, response: Response, fields: map<string, Json>, err: map<string, Json>)
    requires response.statusCode in c.httpSuccess && response.json == Some(JObj(fields))
    requires "error" in fields && fields["error"] == JObj(err)
    ensures var errorCode := DictGet(err, "code", JStr("?"));
      var text := Str(DictGet(err, "message", JStr("no error message")));
      c.HandleResponse(response) == Raised(NewRequestError(response,
        HttpTag(response.statusCode) + ("[ERR " + Str(errorCode) + "] " + text),
        if errorCode == JNull then None else Some(errorCode)))
  {
  }

  /** A decoded dict without `error` (or a list or string that does not contain it) is returned as it is. */
  lemma HandlePlainBody(c: RestClient, response: Response, body: Json)
    requires response.statusCode in c.httpSuccess && response.json == Some(body)
    requires body.JObj? || body.JArr? || body.JStr?
    ensures c.HandleResponse(response) == Returned(body) <==> Contains(body, "error") == Some(false)
  {
  }

  /**
   * Python errors the classifier does not catch: `in` on a decoded number,
   * boolean or null, indexing a list or string that contains "error", and
   * `.get` on an `error` member that is not a dict.
   */
  lemma HandleCrashes(c: RestClient, response: Response, body: Json)
    requires response.statusCode in c.httpSuccess && response.json == Some(body)
    ensures (body.JNull? || body.JBool? || body.JNum?) ==> c.HandleResponse(response) == Crashed(TypeError)
    ensures (body.JArr? || body.JStr?) && Contains(body, "error") == Some(true)
      ==> c.HandleResponse(response) == Crashed(TypeError)
    ensures body.JObj? && "error" in body.fields && !body.fields["error"].JObj?
      ==> c.HandleResponse(response) == Crashed(AttributeError)
  {
  }

  /** Exactly the responses with a success status and a clean decoded body come back as values. */
  lemma HandleReturnsIff(c: RestClient, response: Response)
    ensures c.HandleResponse(response).Returned? <==>
      response.statusCode in c.httpSuccess && response.json.Some?
      && Contains(response.json.value, "error") == Some(false)
  {
  }

  /** Every RequestError the classifier raises names the response's status in its message. */
  lemma RaisedMessageNamesStatus(c: RestClient, response: Response)
    requires c.HandleResponse(response).Raised?
    ensures StatusInMessage(c.HandleResponse(response).error.errorMsg) == Some(response.statusCode)
  {
    var code := response.statusCode;
    if code !in c.httpSuccess {
      HttpTagNamesStatus(code, " " + response.reason);
    } else if response.json.None? {
      HttpTagNamesStatus(code, " response body: " + response.text);
    } else {
      var err := response.json.value.fields["error"].fields;
      HttpTagNamesStatus(code, "[ERR " + Str(ErrorCode(err)) + "] " + Str(DictGet(err, "message", JStr("no error message"))));
    }
  }
}

/** The request fixtures of the client's own test suite, evaluated on the model. */
module RestFixtures {
  import opened Wrappers
  import opened Decimal
  import opened Json
  import opened Http
  import opened Exceptions
  import opened Rest

  lemma TwoHundred()
    ensures HttpTag(200) == "[HTTP 200]"
  {
    assert NatToString(2) == "2";
    assert NatToString(20) == "20";
    assert IntToString(200) == "200";
  }

  lemma FourHundred()
    ensures HttpTag(400) == "[HTTP 400]"
  {
    assert NatToString(4) == "4";
    assert NatToString(40) == "40";
    assert IntToString(400) == "400";
  }

  /** HTTP 200 whose body is {"error": {"code": "123", "message": "failed"}}. */
  lemma EmbeddedErrorFixture(c: RestClient, response: Response)
    requires c.httpSuccess == SuccessCodes() && response.statusCode == 200
    requires response.json == Some(JObj(map["error" := JObj(map["code" := JStr("123"), "message" := JStr("failed")])]))
    ensures c.HandleResponse(response).Raised?
    ensures c.HandleResponse(response).error.errorCode == Some(JStr("123"))
    ensures c.HandleResponse(response).error.errorMsg == "[HTTP 200][ERR 123] failed"
  {
    var err := map["code" := JStr("123"), "message" := JStr("failed")];
    var fields := map["error" := JObj(err)];
    assert 200 in c.httpSuccess;
    HandleEmbeddedError(c, response, fields, err);
    EmbeddedErrorText(response);
  }

  lemma EmbeddedErrorText(response: Response)
    requires response.statusCode == 200
    ensures NewRequestError(response, HttpTag(response.statusCode) + ("[ERR " + Str(JStr("123")) + "] " + Str(JStr("failed"))),
      Some(JStr("123"))).errorMsg == "[HTTP 200][ERR 123] failed"
  {
    TwoHundred();
  }

  /** HTTP 200 whose body is {"error": {"code": null}}: Python's None is no error code. */
  lemma NullErrorCodeFixture(c: RestClient, response: Response)
    requires c.httpSuccess == SuccessCodes() && response.statusCode == 200
    requires response.json == Some(JObj(map["error" := JObj(map["code" := JNull])]))
    ensures c.HandleResponse(response).Raised?
    ensures c.HandleResponse(response).error.errorCode == None
    ensures c.HandleResponse(response).error.errorMsg == "[HTTP 200][ERR None] no error message"
  {
    var err := map["code" := JNull];
    var fields := map["error" := JObj(err)];
    assert 200 in c.httpSuccess;
    HandleEmbeddedError(c, response, fields, err);
    NullErrorCodeText(response);
  }

  lemma NullErrorCodeText(response: Response)
    requires response.statusCode == 200
    ensures NewRequestError(response, HttpTag(response.statusCode) + ("[ERR " + Str(JNull) + "] " + Str(JStr("no error message"))),
      None).errorMsg == "[HTTP 200][ERR None] no error message"
  {
    TwoHundred();
    var tail := "[ERR " + Str(JNull) + "] " + Str(JStr("no error message"));
    assert tail == "[ERR None] no error message";
    assert "[HTTP 200]" + tail == "[HTTP 200][ERR None] no error message";
  }

  /** HTTP 400 with reason "test_reason": the body is not looked at. */
  lemma FailedStatusFixture(c: RestClient, response: Response)
    requires c.httpSuccess == SuccessCodes() && response.statusCode == 400 && response.reason == "test_reason"
    ensures c.HandleResponse(response).Raised?
    ensures c.HandleResponse(response).error.errorCode == None
    ensures c.HandleResponse(response).error.errorMsg == "[HTTP 400] test_reason"
  {
    assert 400 !in c.httpSuccess;
    HandleFailedStatus(c, response);
    FailedStatusText(response);
  }

  lemma FailedStatusText(response: Response)
    requires response.statusCode == 400 && response.reason == "test_reason"
    ensures NewRequestError(response, HttpTag(response.statusCode) + (" " + response.reason)).errorMsg
      == "[HTTP 400] test_reason"
  {
    FourHundred();
  }

  /** HTTP 200 whose text "foo" does not decode. */
  lemma UndecodableFixture(c: RestClient, response: Response)
    requires c.httpSuccess == SuccessCodes() && response.statusCode == 200
    requires response.json == None && response.text == "foo"
    ensures c.HandleResponse(response).Raised?
    ensures c.HandleResponse(response).error.errorCode == None
    ensures c.HandleResponse(response).error.errorMsg == "[HTTP 200] response body: foo"
  {
    assert 200 in c.httpSuccess;
    HandleUndecodableBody(c, response);
    UndecodableText(response);
  }

  lemma UndecodableText(response: Response)
    requires response.statusCode == 200 && response.text == "foo"
    ensures NewRequestError(response, HttpTag(response.statusCode) + (" response body: " + response.text)).errorMsg
      == "[HTTP 200] response body: foo"
  {
    TwoHundred();
  }

  lemma {:induction false} NatToStringStep(q: nat, d: nat)
    requires 0 < q && d < 10
    ensures NatToString(10 * q + d) == NatToString(q) + [DigitChar(d)]
  {
    assert (10 * q + d) / 10 == q && (10 * q + d) % 10 == d;
  }

  lemma FixtureNonceHead()
    ensures NatToString(1491481) == "1491481"
  {
    NatToStringStep(1, 4);
    assert NatToString(14) == "14";
    NatToStringStep(14, 9);
    assert NatToString(149) == "149";
    NatToStringStep(149, 1);
    assert NatToString(1491) == "1491";
    NatToStringStep(1491, 4);
    assert NatToString(14914) == "14914";
    NatToStringStep(14914, 8);
    assert NatToString(149148) == "149148";
    NatToStringStep(149148, 1);
  }

  lemma FixtureNonce()
    ensures IntToString(1491481256000) == "1491481256000"
  {
    FixtureNonceHead();
    NatToStringStep(1491481, 2);
    assert NatToString(14914812) == "14914812";
    NatToStringStep(14914812, 5);
    assert NatToString(149148125) == "149148125";
    NatToStringStep(149148125, 6);
    assert NatToString(1491481256) == "1491481256";
    NatToStringStep(1491481256, 0);
    assert NatToString(14914812560) == "14914812560";
    NatToStringStep(14914812560, 0);
    assert NatToString(149148125600) == "149148125600";
    NatToStringStep(149148125600, 0);
  }

  /** The signing fixture: nonce 1491481256000 for test_client_id / test_api_key. */
  lemma SignedMessageFixture()
    ensures SignedMessage(1491481256000, "test_client_id", "test_api_key")
      == "1491481256000test_client_idtest_api_key"
  {
    var digits := IntToString(1491481256000);
    FixtureNonce();
    assert digits + "test_client_id" + "test_api_key" == "1491481256000test_client_idtest_api_key";
  }
}
