/** The state an `EcobeeService` keeps (`pyecobee/service.py`) and the three
    methods that change it: `authorize` stores the authorization code, and
    `request_tokens` and `refresh_tokens` store a new access and refresh
    token with the instants they expire. No request is sent here: each
    method returns the query parameters it would send, and takes the status
    code and parsed body the server answers with. Instants are seconds, and
    `now` stands for `datetime.now(pytz.utc)`. */
module Session {
  import opened Wire
  import opened Objects
  import opened Registry
  import opened Encoder
  import opened Http
  import opened Service
  import opened Calendar

  /** `Scope` of `pyecobee/enumerations.py`. */
  datatype Scope = Ems | SmartRead | SmartWrite

  function ScopeValue(s: Scope): string {
    match s
    case Ems => "ems"
    case SmartRead => "smartRead"
    case SmartWrite => "smartWrite"
  }

  /** `timedelta(days=365)`, in seconds. */
  const RefreshTokenLifetime := 365 * 86400

  /** `timedelta.max.days`: a `timedelta` spans fewer than this many days
      plus one either way. */
  const MaxTimedeltaDays := 999999999

  /** A query parameter as handed to `requests`. */
  datatype Param = Param(name: string, value: Value)

  /** Why a state-changing method raises. */
  datatype Failure =
    | Rejected(reason: Rejection)     // an argument check
    | Unsuccessful(outcome: Outcome)  // a response that yields no response object
    | ExpiresInNotANumber             // TypeError from timedelta(seconds=expires_in)
    | ExpiryOverflow                  // OverflowError from now_utc + timedelta(...)

  /** The response object the methods read fields from. A decoded list body
      has no fields to read (an AttributeError). */
  function ResponseObject(outcome: Outcome): (r: Result<Value, Failure>)
    ensures r.Ok? <==> outcome.Decoded? && outcome.response.VObject?
    ensures r.Ok? ==> r.value == outcome.response
    ensures outcome.Decoded? && r.Err? ==> r == Err(Unsuccessful(PythonFailure))
    ensures !outcome.Decoded? ==> r == Err(Unsuccessful(outcome))
  {
    if outcome.Decoded? && outcome.response.VObject? then Ok(outcome.response)
    else if outcome.Decoded? then Err(Unsuccessful(PythonFailure))
    else Err(Unsuccessful(outcome))
  }

  /** `timedelta(seconds=x)` of a decoded `expires_in`, in seconds: an int,
      or a bool read as 0 or 1; anything else raises a TypeError. */
  function Seconds(x: Value): (r: Option<int>)
    ensures r.Some? <==> x.VInt? || x.VBool?
    ensures x.VInt? ==> r == Some(x.i)
    ensures x.VBool? ==> r == Some(if x.b then 1 else 0)
  {
    match x
    case VInt(i) => Some(i)
    case VBool(b) => Some(if b then 1 else 0)
    case _ => None
  }

  /** `now_utc + timedelta(seconds=seconds)`, in seconds: an OverflowError
      when the `timedelta` itself is out of range, or when the sum falls
      outside the date-times Python can represent. */
  function Expiry(now: int, seconds: int): (r: Option<int>)
    ensures r.Some? <==> -MaxTimedeltaDays * 86400 <= seconds < (MaxTimedeltaDays + 1) * 86400
                         && MinInstant <= now + seconds <= MaxInstant
    ensures r.Some? ==> r.value == now + seconds
  {
    if -MaxTimedeltaDays * 86400 <= seconds < (MaxTimedeltaDays + 1) * 86400
       && MinInstant <= now + seconds <= MaxInstant
    then Some(now + seconds)
    else None
  }

  /** An `expires_in` of 10^12 seconds (about 31,700 years) overflows
      whatever the current date-time. */
  lemma FarExpiryOverflows(now: DateTime)
    requires Valid(now)
    ensures Expiry(Instant(now), 1000000000000).None?
  {
    InstantRange(now);
  }

  /** The refresh token's expiry a year ahead is representable from any
      date-time before the year 9999: only then can it overflow. */
  lemma RefreshExpiryFits(now: DateTime)
    requires Valid(now) && now.year < 9999
    ensures Expiry(Instant(now), RefreshTokenLifetime) == Some(Instant(now) + RefreshTokenLifetime)
  {
    InstantRange(now);
    OrdinalInYear(now);
    YearsAscend(now.year, 9999);
    LastYear();
    assert Ordinal(now) <= 3651694;
  }

  /** The query of `authorize`. */
  function AuthorizeQuery(applicationKey: string, scope: Scope): (q: seq<Param>)
    ensures |q| == 3 && q[0] == Param("client_id", VStr(applicationKey))
    ensures q[1] == Param("response_type", VStr("ecobeePin")) && q[2] == Param("scope", VStr(ScopeValue(scope)))
  {
    [Param("client_id", VStr(applicationKey)), Param("response_type", VStr("ecobeePin")),
     Param("scope", VStr(ScopeValue(scope)))]
  }

  /** The query of `request_tokens` (the authorization token as `code`) and
      of `refresh_tokens` (the refresh token as `code`). */
  function TokensQuery(applicationKey: string, code: Value, grantType: string): (q: seq<Param>)
    ensures |q| == 3 && q[0] == Param("client_id", VStr(applicationKey))
    ensures q[1] == Param("code", code) && q[2] == Param("grant_type", VStr(grantType))
  {
    [Param("client_id", VStr(applicationKey)), Param("code", code), Param("grant_type", VStr(grantType))]
  }

  class EcobeeService {
    var thermostatName: Value
    var applicationKey: string
    var authorizationToken: Value
    var accessToken: Value
    var refreshToken: Value
    var accessTokenExpiresOn: Option<int>
    var refreshTokenExpiresOn: Option<int>
    var scope: Scope

    /** The application key has the length `__init__` demands. */
    predicate Valid()
      reads this
    {
      |applicationKey| == ApplicationKeyLength
    }

    /** `__init__` once the application key has passed its checks. */
    constructor (thermostatName: Value, applicationKey: string, authorizationToken: Value, accessToken: Value,
                 refreshToken: Value, accessTokenExpiresOn: Option<int>, refreshTokenExpiresOn: Option<int>,
                 scope: Scope)
      requires |applicationKey| == ApplicationKeyLength
      ensures Valid()
      ensures this.thermostatName == thermostatName && this.applicationKey == applicationKey
      ensures this.authorizationToken == authorizationToken && this.accessToken == accessToken
      ensures this.refreshToken == refreshToken
      ensures this.accessTokenExpiresOn == accessTokenExpiresOn
      ensures this.refreshTokenExpiresOn == refreshTokenExpiresOn
      ensures this.scope == scope
    {
      this.thermostatName := thermostatName;
      this.applicationKey := applicationKey;
      this.authorizationToken := authorizationToken;
      this.accessToken := accessToken;
      this.refreshToken := refreshToken;
      this.accessTokenExpiresOn := accessTokenExpiresOn;
      this.refreshTokenExpiresOn := refreshTokenExpiresOn;
      this.scope := scope;
    }

    /** `EcobeeService(...)`: a new service when the application key is a
        string of 32 characters, else the error `__init__` raises. */
    static method Create(thermostatName: Value, applicationKey: Value, authorizationToken: Value,
                         accessToken: Value, refreshToken: Value, accessTokenExpiresOn: Option<int>,
                         refreshTokenExpiresOn: Option<int>, scope: Scope)
      returns (r: Result<EcobeeService, Rejection>)
      ensures r.Ok? <==> applicationKey.VStr? && |applicationKey.s| == ApplicationKeyLength
      ensures r.Err? ==> r.error == CheckApplicationKey(applicationKey).error
      ensures r.Ok? ==> fresh(r.value) && r.value.Valid() && r.value.applicationKey == applicationKey.s
      ensures r.Ok? ==> r.value.thermostatName == thermostatName && r.value.scope == scope
      ensures r.Ok? ==> r.value.authorizationToken == authorizationToken && r.value.accessToken == accessToken
      ensures r.Ok? ==> r.value.refreshToken == refreshToken
      ensures r.Ok? ==> r.value.accessTokenExpiresOn == accessTokenExpiresOn
      ensures r.Ok? ==> r.value.refreshTokenExpiresOn == refreshTokenExpiresOn
    {
      var key := CheckApplicationKey(applicationKey);
      if key.Err? {
        return Err(key.error);
      }
      var service := new EcobeeService(thermostatName, key.value, authorizationToken, accessToken, refreshToken,
                                       accessTokenExpiresOn, refreshTokenExpiresOn, scope);
      return Ok(service);
    }

    /** `authorize`: check the response type, ask for a PIN and store the
        authorization code of the answer. Nothing else changes, and nothing
        at all when the check or the response fails. */
    method Authorize(responseType: Value, reg: Registry, statusCode: int, body: Json)
      returns (sent: Option<seq<Param>>, r: Result<Value, Failure>)
      requires "AuthorizeResponse" in reg && "ErrorResponse" in reg && "Status" in reg
      modifies this
      ensures CheckResponseType(responseType).Err? ==>
        sent.None? && r == Err(Rejected(CheckResponseType(responseType).error))
      ensures CheckResponseType(responseType).Ok? ==>
        sent == Some(AuthorizeQuery(applicationKey, scope))
        && r == ResponseObject(Classify(reg, false, "ErrorResponse", "AuthorizeResponse", statusCode, body))
      ensures r.Ok? ==> r.value.VObject? && authorizationToken == FieldValue(r.value, "code")
      ensures r.Err? ==> authorizationToken == old(authorizationToken)
      ensures thermostatName == old(thermostatName) && applicationKey == old(applicationKey)
      ensures accessToken == old(accessToken) && refreshToken == old(refreshToken)
      ensures accessTokenExpiresOn == old(accessTokenExpiresOn)
      ensures refreshTokenExpiresOn == old(refreshTokenExpiresOn)
      ensures scope == old(scope)
      ensures Valid() == old(Valid())
    {
      var checked := CheckResponseType(responseType);
      if checked.Err? {
        return None, Err(Rejected(checked.error));
      }
      sent := Some(AuthorizeQuery(applicationKey, scope));
      r := ResponseObject(Classify(reg, false, "ErrorResponse", "AuthorizeResponse", statusCode, body));
      if r.Ok? {
        authorizationToken := FieldValue(r.value, "code");
      }
    }

    /** What a token response leaves behind, read in the order the source
        assigns: the access token, its expiry `now + expires_in`, the
        refresh token and its expiry a year after `now`. A non-numeric
        `expires_in` or an expiry out of range raises after the access
        token is already stored; a refresh expiry out of range raises after
        the access expiry and the refresh token are stored. A failed
        response changes nothing. The authorization token, key, name and
        scope never change. */
    twostate predicate TokensStored(handled: Result<Value, Failure>, now: int, new r: Result<Value, Failure>)
      reads this
    {
      && thermostatName == old(thermostatName) && applicationKey == old(applicationKey)
      && authorizationToken == old(authorizationToken) && scope == old(scope)
      && if handled.Err? || !handled.value.VObject? then
           r == handled && accessToken == old(accessToken) && accessTokenExpiresOn == old(accessTokenExpiresOn)
           && refreshToken == old(refreshToken) && refreshTokenExpiresOn == old(refreshTokenExpiresOn)
         else
           var v := handled.value;
           var seconds := Seconds(FieldValue(v, "expires_in"));
           accessToken == FieldValue(v, "access_token")
           && if seconds.None? then
                r == Err(ExpiresInNotANumber) && accessTokenExpiresOn == old(accessTokenExpiresOn)
                && refreshToken == old(refreshToken) && refreshTokenExpiresOn == old(refreshTokenExpiresOn)
              else if Expiry(now, seconds.value).None? then
                r == Err(ExpiryOverflow) && accessTokenExpiresOn == old(accessTokenExpiresOn)
                && refreshToken == old(refreshToken) && refreshTokenExpiresOn == old(refreshTokenExpiresOn)
              else
                accessTokenExpiresOn == Some(now + seconds.value)
                && refreshToken == FieldValue(v, "refresh_token")
                && if Expiry(now, RefreshTokenLifetime).None? then
                     r == Err(ExpiryOverflow) && refreshTokenExpiresOn == old(refreshTokenExpiresOn)
                   else
                     r == Ok(v) && refreshTokenExpiresOn == Some(now + RefreshTokenLifetime)
    }

    /** The assignments shared by `request_tokens` and `refresh_tokens`. */
    method StoreTokens(handled: Result<Value, Failure>, now: int) returns (r: Result<Value, Failure>)
      requires handled.Ok? ==> handled.value.VObject?
      modifies this
      ensures TokensStored(handled, now, r)
    {
      if handled.Err? {
        return handled;
      }
      var v := handled.value;
      accessToken := FieldValue(v, "access_token");
      var seconds := Seconds(FieldValue(v, "expires_in"));
      if seconds.None? {
        return Err(ExpiresInNotANumber);
      }
      var accessExpiry := Expiry(now, seconds.value);
      if accessExpiry.None? {
        return Err(ExpiryOverflow);
      }
      accessTokenExpiresOn := accessExpiry;
      refreshToken := FieldValue(v, "refresh_token");
      var refreshExpiry := Expiry(now, RefreshTokenLifetime);
      if refreshExpiry.None? {
        return Err(ExpiryOverflow);
      }
      refreshTokenExpiresOn := refreshExpiry;
      return Ok(v);
    }

    /** `request_tokens`: check the grant type, trade the authorization
        token for tokens and store them. */
    method RequestTokens(grantType: Value, reg: Registry, statusCode: int, body: Json, now: int)
      returns (sent: Option<seq<Param>>, r: Result<Value, Failure>)
      requires "TokensResponse" in reg && "ErrorResponse" in reg && "Status" in reg
      modifies this
      ensures CheckGrantType(grantType, "ecobeePin").Err? ==>
        sent.None? && r == Err(Rejected(CheckGrantType(grantType, "ecobeePin").error)) && unchanged(this)
      ensures CheckGrantType(grantType, "ecobeePin").Ok? ==>
        sent == Some(TokensQuery(old(applicationKey), old(authorizationToken), "ecobeePin"))
        && TokensStored(ResponseObject(Classify(reg, false, "ErrorResponse", "TokensResponse", statusCode, body)), now, r)
      ensures Valid() == old(Valid())
    {
      var checked := CheckGrantType(grantType, "ecobeePin");
      if checked.Err? {
        return None, Err(Rejected(checked.error));
      }
      sent := Some(TokensQuery(applicationKey, authorizationToken, "ecobeePin"));
      r := StoreTokens(ResponseObject(Classify(reg, false, "ErrorResponse", "TokensResponse", statusCode, body)), now);
    }

    /** `refresh_tokens`: check the grant type, trade the refresh token for
        new tokens and store them. */
    method RefreshTokens(grantType: Value, reg: Registry, statusCode: int, body: Json, now: int)
      returns (sent: Option<seq<Param>>, r: Result<Value, Failure>)
      requires "TokensResponse" in reg && "ErrorResponse" in reg && "Status" in reg
      modifies this
      ensures CheckGrantType(grantType, "refresh_token").Err? ==>
        sent.None? && r == Err(Rejected(CheckGrantType(grantType, "refresh_token").error)) && unchanged(this)
      ensures CheckGrantType(grantType, "refresh_token").Ok? ==>
        sent == Some(TokensQuery(old(applicationKey), old(refreshToken), "refresh_token"))
        && TokensStored(ResponseObject(Classify(reg, false, "ErrorResponse", "TokensResponse", statusCode, body)), now, r)
      ensures Valid() == old(Valid())
    {
      var checked := CheckGrantType(grantType, "refresh_token");
      if checked.Err? {
        return None, Err(Rejected(checked.error));
      }
      sent := Some(TokensQuery(applicationKey, refreshToken, "refresh_token"));
      r := StoreTokens(ResponseObject(Classify(reg, false, "ErrorResponse", "TokensResponse", statusCode, body)), now);
    }
  }
}
