/**
 The Verify service of the Nexmo client library (`gonexmo` `verify.go`):
 the field checks of `Send` and `Check`, the JSON objects the three calls
 post (credentials next to the public fields) and how their answers are read.
 */
module NexmoVerify {
  import opened Wrappers
  import opened NexmoClient

  /** The members the three request objects can hold. */
  datatype Field =
    | ApiKey | ApiSecret
    | Number | Brand | SenderId | Country | Language | CodeLength | PinExpiry | NextEventWait
    | RequestId | Code | IpAddress

  /** The member name of each field. */
  function FieldName(f: Field): (r: string)
    ensures f == ApiKey <==> r == "api_key"
    ensures f == ApiSecret <==> r == "api_secret"
  {
    match f
    case ApiKey => "api_key"
    case ApiSecret => "api_secret"
    case Number => "number"
    case Brand => "brand"
    case SenderId => "sender_id"
    case Country => "country"
    case Language => "lg"
    case CodeLength => "code_length"
    case PinExpiry => "pin_expiry"
    case NextEventWait => "next_event_wait"
    case RequestId => "request_id"
    case Code => "code"
    case IpAddress => "ip_address"
  }

  /** `VerifyMessageRequest`, without the key and secret `Send` fills in. */
  datatype VerifyRequest = VerifyRequest(
    number: string, brand: string, senderId: string, country: string, language: string,
    codeLength: int, pinExpiry: int, nextEventWait: int)

  /** `VerifyCheckRequest`, without the key and secret. */
  datatype CheckRequest = CheckRequest(requestId: string, code: string, ipAddress: string)

  /** `VerifySearchRequest`, without the key and secret. */
  datatype SearchRequest = SearchRequest(requestId: string)

  datatype VerifyResponse = VerifyResponse(status: int, requestId: string, errorText: string)
  datatype CheckResponse = CheckResponse(status: int, eventId: string, price: string, currency: string, errorText: string)
  datatype CheckRecord = CheckRecord(dateReceived: string, code: string, status: string, ipAddress: string)
  datatype SearchResponse = SearchResponse(
    requestId: string, accountId: string, number: string, senderId: string,
    dateSubmitted: string, dateFinalized: string, firstEventDate: string, lastEventDate: string,
    status: string, checks: seq<CheckRecord>, price: string, currency: string, errorText: string)

  const InvalidNumber: string := "Invalid Number field specified"
  const InvalidBrand: string := "Invalid Brand field specified"
  const InvalidRequestId: string := "Invalid RequestID field specified"
  const InvalidCode: string := "Invalid Code field specified"

  const VerifyPath: string := "/verify/json"
  const CheckPath: string := "/verify/check/json"
  const SearchPath: string := "/verify/search/json"

  /**
   The object a `Send` posts: the key and secret are always members (empty
   under OAuth), number and brand always, the rest only when not zero.
   */
  function VerifyObject(q: VerifyRequest, credentials: (string, string)): (r: JsonObject<Field>)
    ensures ApiKey in r && ApiSecret in r && Number in r && Brand in r
    ensures r[ApiKey] == JString(credentials.0) && r[ApiSecret] == JString(credentials.1)
    ensures r[Number] == JString(q.number) && r[Brand] == JString(q.brand)
    ensures SenderId in r <==> q.senderId != ""
    ensures Country in r <==> q.country != ""
    ensures Language in r <==> q.language != ""
    ensures CodeLength in r <==> q.codeLength != 0
    ensures PinExpiry in r <==> q.pinExpiry != 0
    ensures NextEventWait in r <==> q.nextEventWait != 0
    ensures RequestId !in r && Code !in r && IpAddress !in r
  {
    map f | f in {ApiKey, ApiSecret, Number, Brand, SenderId, Country, Language, CodeLength, PinExpiry, NextEventWait}
              && VerifyPresent(q, f)
          :: VerifyValue(q, credentials, f)
  }

  predicate VerifyPresent(q: VerifyRequest, f: Field)
  {
    match f
    case SenderId => q.senderId != ""
    case Country => q.country != ""
    case Language => q.language != ""
    case CodeLength => q.codeLength != 0
    case PinExpiry => q.pinExpiry != 0
    case NextEventWait => q.nextEventWait != 0
    case _ => true
  }

  function VerifyValue(q: VerifyRequest, credentials: (string, string), f: Field): JsonValue
  {
    match f
    case ApiKey => JString(credentials.0)
    case ApiSecret => JString(credentials.1)
    case Number => JString(q.number)
    case Brand => JString(q.brand)
    case SenderId => JString(q.senderId)
    case Country => JString(q.country)
    case Language => JString(q.language)
    case CodeLength => JInt(q.codeLength)
    case PinExpiry => JInt(q.pinExpiry)
    case _ => JInt(q.nextEventWait)
  }

  /** The object a `Check` posts: credentials, request id and code, and the IP address when set. */
  function CheckObject(q: CheckRequest, credentials: (string, string)): (r: JsonObject<Field>)
    ensures r.Keys == {ApiKey, ApiSecret, RequestId, Code} + (if q.ipAddress != "" then {IpAddress} else {})
    ensures r[ApiKey] == JString(credentials.0) && r[ApiSecret] == JString(credentials.1)
    ensures r[RequestId] == JString(q.requestId) && r[Code] == JString(q.code)
    ensures q.ipAddress != "" ==> r[IpAddress] == JString(q.ipAddress)
  {
    var base := map[ApiKey := JString(credentials.0), ApiSecret := JString(credentials.1),
                     RequestId := JString(q.requestId), Code := JString(q.code)];
    if q.ipAddress != "" then base[IpAddress := JString(q.ipAddress)] else base
  }

  /** The object a `Search` posts: credentials, and the request id only when set. */
  function SearchObject(q: SearchRequest, credentials: (string, string)): (r: JsonObject<Field>)
    ensures r.Keys == {ApiKey, ApiSecret} + (if q.requestId != "" then {RequestId} else {})
    ensures r[ApiKey] == JString(credentials.0) && r[ApiSecret] == JString(credentials.1)
    ensures q.requestId != "" ==> r[RequestId] == JString(q.requestId)
  {
    var base := map[ApiKey := JString(credentials.0), ApiSecret := JString(credentials.1)];
    if q.requestId != "" then base[RequestId := JString(q.requestId)] else base
  }

  /**
   The exchange the three calls share: the HTTP client's error, then the
   error reading the body, is returned as it is; otherwise the body is decoded.
   */
  function Post<T>(url: string, obj: JsonObject<Field>, exchange: Request<JsonObject<Field>> -> Answer,
                   decode: string -> Result<T>): (r: Result<T>)
    ensures !exchange(Request(url, JsonContentType, obj)).Responded? ==>
              r == Err(exchange(Request(url, JsonContentType, obj)).error)
    ensures exchange(Request(url, JsonContentType, obj)).Responded? ==>
              var a := exchange(Request(url, JsonContentType, obj));
              r == if a.readError.Some? then Err(a.readError.value) else decode(a.body)
  {
    var a := exchange(Request(url, JsonContentType, obj));
    if !a.Responded? then Err(a.error)
    else if a.readError.Some? then Err(a.readError.value)
    else decode(a.body)
  }

  /** `Verification.Send`: number first, then brand; then the request to the v2 host. */
  function Send(c: Client, q: VerifyRequest, exchange: Request<JsonObject<Field>> -> Answer,
                decode: string -> Result<VerifyResponse>): (r: Result<VerifyResponse>)
    ensures q.number == "" ==> r == Err(InvalidNumber)
    ensures q.number != "" && q.brand == "" ==> r == Err(InvalidBrand)
    ensures q.number != "" && q.brand != "" ==>
              r == Post(ApiRootV2 + VerifyPath, VerifyObject(q, Credentials(c)), exchange, decode)
  {
    if |q.number| == 0 then Err(InvalidNumber)
    else if |q.brand| == 0 then Err(InvalidBrand)
    else Post(ApiRootV2 + VerifyPath, VerifyObject(q, Credentials(c)), exchange, decode)
  }

  /** `Verification.Check`: request id first, then code; then the request to the v2 host. */
  function Check(c: Client, q: CheckRequest, exchange: Request<JsonObject<Field>> -> Answer,
                 decode: string -> Result<CheckResponse>): (r: Result<CheckResponse>)
    ensures q.requestId == "" ==> r == Err(InvalidRequestId)
    ensures q.requestId != "" && q.code == "" ==> r == Err(InvalidCode)
    ensures q.requestId != "" && q.code != "" ==>
              r == Post(ApiRootV2 + CheckPath, CheckObject(q, Credentials(c)), exchange, decode)
  {
    if |q.requestId| == 0 then Err(InvalidRequestId)
    else if |q.code| == 0 then Err(InvalidCode)
    else Post(ApiRootV2 + CheckPath, CheckObject(q, Credentials(c)), exchange, decode)
  }

  /** `Verification.Search`: no field is checked; every request goes out. */
  function Search(c: Client, q: SearchRequest, exchange: Request<JsonObject<Field>> -> Answer,
                  decode: string -> Result<SearchResponse>): (r: Result<SearchResponse>)
    ensures r == Post(ApiRootV2 + SearchPath, SearchObject(q, Credentials(c)), exchange, decode)
  {
    Post(ApiRootV2 + SearchPath, SearchObject(q, Credentials(c)), exchange, decode)
  }

  /**
   A failed check never reaches the HTTP client: whatever it would answer,
   `Send` and `Check` give the same result; `Search` always reaches it.
   */
  lemma FailedChecksSendNothing(c: Client, q: VerifyRequest, k: CheckRequest,
                                e1: Request<JsonObject<Field>> -> Answer, e2: Request<JsonObject<Field>> -> Answer,
                                dv: string -> Result<VerifyResponse>, dc: string -> Result<CheckResponse>)
    ensures q.number == "" || q.brand == "" ==> Send(c, q, e1, dv) == Send(c, q, e2, dv)
    ensures k.requestId == "" || k.code == "" ==> Check(c, k, e1, dc) == Check(c, k, e2, dc)
  {
  }

  /** With OAuth off, every object carries the client's own key and secret. */
  lemma CredentialsInjected(c: Client, q: VerifyRequest, k: CheckRequest, s: SearchRequest)
    requires !c.useOauth
    ensures VerifyObject(q, Credentials(c))[ApiKey] == JString(c.apiKey)
    ensures CheckObject(k, Credentials(c))[ApiSecret] == JString(c.apiSecret)
    ensures SearchObject(s, Credentials(c))[ApiKey] == JString(c.apiKey)
  {
  }
}
