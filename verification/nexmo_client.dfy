/**
 The Nexmo client library (`njern/gonexmo`): the client and its credentials,
 the byte length Go's `len` gives a string, and the request and answer shapes
 the SMS, USSD and Verify services share. The HTTP exchange is a parameter of
 each service.
 */
module NexmoClient {
  import opened Wrappers
  import opened UrlValues
  import Utf8

  const ApiRoot: string := "https://rest.nexmo.com"
  const ApiRootV2: string := "https://api.nexmo.com"

  const EmptyKey: string := "apiKey can not be empty"
  const EmptySecret: string := "apiSecret can not be empty"

  /**
   The client the services hang off. Only `NewClientFromAPI` makes one, and it
   never turns OAuth on; a service given a client reads its credentials from it.
   */
  datatype Client = Client(apiKey: string, apiSecret: string, useOauth: bool)

  /** `NewClientFromAPI`: the key is checked first, then the secret; both are kept as given. */
  function NewClientFromApi(apiKey: string, apiSecret: string): (r: Result<Client>)
    ensures r.Ok? <==> apiKey != "" && apiSecret != ""
    ensures apiKey == "" ==> r == Err(EmptyKey)
    ensures apiKey != "" && apiSecret == "" ==> r == Err(EmptySecret)
    ensures r.Ok? ==> !r.value.useOauth && r.value.apiKey == apiKey && r.value.apiSecret == apiSecret
  {
    if apiKey == "" then Err(EmptyKey)
    else if apiSecret == "" then Err(EmptySecret)
    else Ok(Client(apiKey, apiSecret, false))
  }

  /**
   The key and secret a request carries: the client's own without OAuth, the
   zero strings with it (the request fields are simply left unset).
   */
  function Credentials(c: Client): (r: (string, string))
    ensures !c.useOauth ==> r == (c.apiKey, c.apiSecret)
    ensures c.useOauth ==> r == ("", "")
  {
    if c.useOauth then ("", "") else (c.apiKey, c.apiSecret)
  }

  /** A client made by `NewClientFromAPI` always hands its own, non-empty credentials to requests. */
  lemma NewClientInjectsCredentials(apiKey: string, apiSecret: string)
    requires NewClientFromApi(apiKey, apiSecret).Ok?
    ensures Credentials(NewClientFromApi(apiKey, apiSecret).value) == (apiKey, apiSecret)
    ensures Credentials(NewClientFromApi(apiKey, apiSecret).value).0 != ""
  {
  }

  // ---------------------------------------------------------------------
  // Go's len on strings
  // ---------------------------------------------------------------------

  /** `len(s)`: the length of the UTF-8 encoding, not the number of characters. */
  function ByteLength(s: string): (n: nat)
    ensures |s| <= n <= 4 * |s|
    ensures n == 0 <==> s == ""
  {
    |Utf8.Encode(s)|
  }

  /** For ASCII text the byte length is the character count. */
  lemma AsciiByteLength(s: string)
    requires forall i :: 0 <= i < |s| ==> s[i] as int < 0x80
    ensures ByteLength(s) == |s|
  {
    Utf8.AsciiEncode(s);
  }

  /** The longest client reference the SMS and USSD services accept, in bytes. */
  const MaxClientReference: nat := 40

  // ---------------------------------------------------------------------
  // Requests and answers
  // ---------------------------------------------------------------------

  /** A JSON member value as `encoding/json` writes it for these structs. */
  datatype JsonValue = JString(s: string) | JInt(n: int) | JBytes(b: seq<bv8>)

  /**
   A JSON object, its members keyed by the struct field they come from; the
   member names are given per struct, so that a misspelt tag stays visible.
   */
  type JsonObject<F> = map<F, JsonValue>

  /** A POST the library makes (every one asks for a JSON answer), carrying payload `P`. */
  datatype Request<P> = Request(url: string, contentType: string, payload: P)

  const JsonContentType: string := "application/json"
  const FormContentType: string := "application/x-www-form-urlencoded"

  /**
   What the HTTP client gave back: an error with no response; an error with
   a response whose body is already closed (what `Client.Do` returns when its
   redirect policy refuses to go on, after ten redirects by default); or a
   body and the error reading it stopped on.
   */
  datatype Answer = NoResponse(error: string)
                  | ClosedResponse(error: string)
                  | Responded(body: string, readError: Option<string>)

  /** One report per message part in Nexmo's answer to a send. */
  datatype MessageReport = MessageReport(
    status: int, messageId: string, to: string, clientReference: string,
    remainingBalance: string, messagePrice: string, network: string, errorText: string)

  datatype MessageResponse = MessageResponse(messageCount: int, messages: seq<MessageReport>)
}
