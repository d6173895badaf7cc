/** `Utilities.process_http_response` and `EcobeeService.__process_http_response`:
    an HTTP response, given as its status code and parsed JSON body, is
    either decoded as the expected response class or turned into one of
    three exceptions. The two versions differ in the class the error body
    is decoded as (`EcobeeErrorResponse` and the older `ErrorResponse`) and
    in the debug message the first one builds for every 200 response, which
    calls `pretty_format()` on the decoded value: a body that decodes to a
    list has no such method and raises an AttributeError there, where the
    second version returns the list. Both are `Classify`, with the error
    class and whether that message is built as parameters. The request, the
    URL in the messages and the text of the log are not modelled. */
module Http {
  import opened Wire
  import opened Text
  import opened Registry
  import opened Objects
  import opened Decoder
  import opened Encoder
  import opened DecodeFacts

  /** `requests.codes.ok`. */
  const StatusOk := 200

  /** What handling a response returns or raises. */
  datatype Outcome =
    | Decoded(response: Value)                                          // the decoded response object
    | AuthorizationFailure(error: Value, description: Value, uri: Value) // EcobeeAuthorizationException
    | ApiFailure(code: Value, message: Value)                           // EcobeeApiException
    | HttpFailure(statusCode: int)                                      // EcobeeHttpException
    | DecodeFailure(reason: DecodeError)                                // an error escaping the decoder
    | PythonFailure                                                     // a TypeError or AttributeError escaping

  /** Python's `key in body`: key membership for a dict, element equality
      for a list, substring search for a string, and a TypeError (`None`)
      for a number, a boolean or `null`. */
  function PyIn(key: string, body: Json): (r: Option<bool>)
    ensures r.None? <==> IsScalar(body) && !body.JStr?
    ensures body.JObject? ==> r == Some(HasKey(body.members, key))
    ensures body.JArray? ==> r == Some(JStr(key) in body.items)
    ensures body.JStr? ==> r == Some(Contains(body.s, key))
  {
    match body
    case JObject(ms) => Some(HasKey(ms, key))
    case JArray(items) => Some(JStr(key) in items)
    case JStr(s) => Some(Contains(s, key))
    case _ => None
  }

  /** The fields read from a decoded error body. */
  function AuthorizationOf(v: Value): Outcome {
    if v.VObject? then
      AuthorizationFailure(FieldValue(v, "error"), FieldValue(v, "error_description"), FieldValue(v, "error_uri"))
    else PythonFailure
  }

  /** The fields read from a decoded `Status`. */
  function ApiOf(v: Value): Outcome {
    if v.VObject? then ApiFailure(FieldValue(v, "code"), FieldValue(v, "message")) else PythonFailure
  }

  /** Handling a response for `responseClass` whose error bodies are
      decoded as `errorClass`. A 200 response is decoded as the expected
      class; when `logs` holds (the `utilities.py` version) the decoded
      value must also be an object, whose `pretty_format()` the debug
      message calls. Any other response is an authorization failure when the body
      contains `'error'`, else an API failure carrying the decoded
      `body['status']` when it contains `'status'`, else a plain HTTP
      failure. */
  function Classify(reg: Registry, logs: bool, errorClass: string, responseClass: string, statusCode: int,
                    body: Json): (r: Outcome)
    requires responseClass in reg && errorClass in reg && "Status" in reg
    ensures r.Decoded? <==>
      statusCode == StatusOk && DecodeTop(reg, responseClass, body).Ok?
      && (logs ==> DecodeTop(reg, responseClass, body).value.VObject?)
    ensures r.Decoded? ==> r.response == DecodeTop(reg, responseClass, body).value
    ensures (logs && statusCode == StatusOk && DecodeTop(reg, responseClass, body).Ok?
             && !DecodeTop(reg, responseClass, body).value.VObject?) ==> r == PythonFailure
    ensures r.AuthorizationFailure? ==>
      statusCode != StatusOk && PyIn("error", body) == Some(true)
      && DecodeTop(reg, errorClass, body).Ok? && DecodeTop(reg, errorClass, body).value.VObject?
    ensures r.ApiFailure? ==>
      statusCode != StatusOk && body.JObject?
      && !HasKey(body.members, "error") && HasKey(body.members, "status")
    ensures r.HttpFailure? <==>
      statusCode != StatusOk && PyIn("error", body) == Some(false) && PyIn("status", body) == Some(false)
    ensures r.HttpFailure? ==> r.statusCode == statusCode
    ensures statusCode != StatusOk && IsScalar(body) && !body.JStr? ==> r == PythonFailure
  {
    if statusCode == StatusOk then
      match DecodeTop(reg, responseClass, body)
      case Ok(v) => if logs && !v.VObject? then PythonFailure else Decoded(v)
      case Err(e) => DecodeFailure(e)
    else
      match PyIn("error", body)
      case None => PythonFailure
      case Some(hasError) =>
        if hasError then
          match DecodeTop(reg, errorClass, body)
          case Ok(v) => AuthorizationOf(v)
          case Err(e) => DecodeFailure(e)
        else if PyIn("status", body) == Some(false) then HttpFailure(statusCode)
        else if !body.JObject? then PythonFailure
        else
          match DecodeTop(reg, "Status", Lookup(body.members, "status").value)
          case Ok(v) => ApiOf(v)
          case Err(e) => DecodeFailure(e)
  }

  /** For a non-200 response whose body is a JSON object, the three
      exceptions are decided by the body's keys alone: `error` wins over
      `status`, and a body with neither is a plain HTTP failure; the only
      other outcome is a failure to decode the error or status. */
  lemma ObjectBodyOutcome(reg: Registry, logs: bool, errorClass: string, responseClass: string, statusCode: int,
                          ms: seq<Member>)
    requires responseClass in reg && errorClass in reg && "Status" in reg
    requires statusCode != StatusOk
    ensures var r := Classify(reg, logs, errorClass, responseClass, statusCode, JObject(ms));
      (HasKey(ms, "error") ==> r.AuthorizationFailure? || r.DecodeFailure?)
      && (!HasKey(ms, "error") && HasKey(ms, "status") ==> r.ApiFailure? || r.DecodeFailure? || r == PythonFailure)
      && (!HasKey(ms, "error") && !HasKey(ms, "status") ==> r == HttpFailure(statusCode))
  {
  }

  /** The authorization failure carries the error body's `error`,
      `error_description` and `error_uri` values, when the error class reads
      each from the like-named key. */
  lemma AuthorizationCarriesBody(reg: Registry, logs: bool, errorClass: string, responseClass: string,
                                 statusCode: int, ms: seq<Member>, i: nat)
    requires responseClass in reg && errorClass in reg && "Status" in reg
    requires Capitalize(errorClass) == errorClass && WellFormed(reg[errorClass])
    requires Classify(reg, logs, errorClass, responseClass, statusCode, JObject(ms)).AuthorizationFailure?
    requires i < |ms| && IsScalar(ms[i].value)
    requires Renamed(reg[errorClass], ms[i].key, ms[i].key) && ms[i].key in Fields(reg[errorClass])
    ensures var r := Classify(reg, logs, errorClass, responseClass, statusCode, JObject(ms));
      (ms[i].key == "error" ==> r.error == ScalarValue(ms[i].value))
      && (ms[i].key == "error_description" ==> r.description == ScalarValue(ms[i].value))
      && (ms[i].key == "error_uri" ==> r.uri == ScalarValue(ms[i].value))
  {
    DecodedScalarField(reg, errorClass, ms, i);
  }

  /** The API failure carries the `code` and `message` of the body's
      `status` object, when `Status` reads each from the like-named key. */
  lemma ApiFailureCarriesStatus(reg: Registry, logs: bool, errorClass: string, responseClass: string,
                                statusCode: int, ms: seq<Member>, sm: seq<Member>, j: nat)
    requires responseClass in reg && errorClass in reg && "Status" in reg && WellFormed(reg["Status"])
    requires Classify(reg, logs, errorClass, responseClass, statusCode, JObject(ms)).ApiFailure?
    requires Lookup(ms, "status") == Some(JObject(sm))
    requires j < |sm| && IsScalar(sm[j].value)
    requires Renamed(reg["Status"], sm[j].key, sm[j].key) && sm[j].key in Fields(reg["Status"])
    ensures var r := Classify(reg, logs, errorClass, responseClass, statusCode, JObject(ms));
      (sm[j].key == "code" ==> r.code == ScalarValue(sm[j].value))
      && (sm[j].key == "message" ==> r.message == ScalarValue(sm[j].value))
  {
    assert Capitalize("Status") == "Status";
    DecodedScalarField(reg, "Status", sm, j);
  }

  /** A 200 response whose body is a list of instances of the response
      class: the older version returns the list, the `utilities.py` version
      fails while writing its debug message. */
  lemma ListBodyOutcome(reg: Registry, errorClass: string, responseClass: string, items: seq<Json>)
    requires responseClass in reg && errorClass in reg && "Status" in reg
    requires DecodeItems(reg, responseClass, items).Ok?
    ensures Classify(reg, false, errorClass, responseClass, StatusOk, JArray(items))
      == Decoded(VList(DecodeItems(reg, responseClass, items).value))
    ensures Classify(reg, true, errorClass, responseClass, StatusOk, JArray(items)) == PythonFailure
  {
    assert DecodeTop(reg, responseClass, JArray(items)) == Ok(VList(DecodeItems(reg, responseClass, items).value));
  }
}
