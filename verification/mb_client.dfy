/**
 `Client.Request` of the MessageBird REST client
 (`github.com/messagebird/go-rest-api/client.go`): where a path is sent,
 how the request body and its content type are chosen, and how the
 response status decides the outcome. The transport and the JSON decoder
 are parameters.
 */
module MessageBirdClient {
  import opened Wrappers

  const Endpoint: string := "https://rest.messagebird.com"
  const ErrUnexpectedResponse: string := "The MessageBird API is currently unavailable"

  predicate HasPrefix(s: string, p: string)
  {
    |p| <= |s| && s[..|p|] == p
  }

  /** A relative path is placed under the endpoint; a full `http(s)://` URL is used as it is. */
  function RequestUrl(path: string): (r: string)
    ensures HasPrefix(path, "https://") || HasPrefix(path, "http://") ==> r == path
    ensures !(HasPrefix(path, "https://") || HasPrefix(path, "http://")) ==> r == Endpoint + "/" + path
  {
    if HasPrefix(path, "https://") || HasPrefix(path, "http://") then path else Endpoint + "/" + path
  }

  /** A URL that has been placed under the endpoint is not placed again. */
  lemma RequestUrlIdempotent(path: string)
    ensures RequestUrl(RequestUrl(path)) == RequestUrl(path)
  {
    if !(HasPrefix(path, "https://") || HasPrefix(path, "http://")) {
      assert (Endpoint + "/" + path)[..8] == "https://";
    }
  }

  /**
   The dynamic type of the request data: nil, a string (already form
   encoded), or any other value, given by the outcome of JSON-encoding it.
   */
  datatype RequestData = NoData | FormData(form: string) | OtherData(json: Result<string>)

  datatype ContentType = ContentEmpty | ContentForm | ContentJson
  {
    /** The header value; empty for `contentTypeEmpty`. */
    function Text(): string
    {
      match this
      case ContentEmpty => ""
      case ContentForm => "application/x-www-form-urlencoded"
      case ContentJson => "application/json"
    }
  }

  /** A request body (`None` for a nil body) and its content type. */
  datatype Body = Body(bytes: Option<string>, contentType: ContentType)

  /**
   `prepareRequestBody`: nil sends no body and no content type, a string
   is sent verbatim as a form, anything else as JSON, or fails when it
   cannot be encoded.
   */
  function PrepareRequestBody(data: RequestData): (r: Result<Body>)
    ensures data.NoData? ==> r == Ok(Body(None, ContentEmpty))
    ensures data.FormData? ==> r == Ok(Body(Some(data.form), ContentForm))
    ensures data.OtherData? && data.json.Ok? ==> r == Ok(Body(Some(data.json.value), ContentJson))
    ensures r.Err? <==> data.OtherData? && data.json.Err?
    ensures r.Ok? ==> (r.value.bytes.None? <==> r.value.contentType.ContentEmpty?)
  {
    match data
    case NoData => Ok(Body(None, ContentEmpty))
    case FormData(s) => Ok(Body(Some(s), ContentForm))
    case OtherData(j) => if j.Ok? then Ok(Body(Some(j.value), ContentJson)) else Err(j.error)
  }

  /** The Content-Type header is sent only for a non-empty content type. */
  function ContentTypeHeader(ct: ContentType): (r: Option<string>)
    ensures r.None? <==> ct.ContentEmpty?
    ensures r.Some? ==> r.value == ct.Text() && r.value != ""
  {
    if ct.Text() == "" then None else Some(ct.Text())
  }

  /**
   The status switch. `decode` parses the body into the caller's value and
   `decodeError` into an `ErrorResponse`, each giving the error text on
   failure (`None`, or `Ok` with the response's own error text, on success).
   */
  function ClassifyResponse(status: int, body: string, decode: string -> Option<string>,
                            decodeError: string -> Result<string>): (r: Status)
    ensures (status == 200 || status == 201) ==>
              (r.None? <==> decode(body).None?)
    ensures (status == 200 || status == 201) && decode(body).Some? ==>
              r == Some("could not decode response JSON, " + body + ": " + decode(body).value)
    ensures status == 204 ==> r.None?
    ensures status == 500 ==> r == Some(ErrUnexpectedResponse)
    ensures status !in {200, 201, 204, 500} ==> r.Some?
  {
    if status == 200 || status == 201 then
      match decode(body)
      case None => None
      case Some(e) => Some("could not decode response JSON, " + body + ": " + e)
    else if status == 204 then None
    else if status == 500 then Some(ErrUnexpectedResponse)
    else
      match decodeError(body)
      case Ok(text) => Some(text)
      case Err(e) => Some(e)
  }

  /** The request succeeds exactly on 204, or on 200 and 201 with a body that decodes. */
  lemma ClassifySucceedsIff(status: int, body: string, decode: string -> Option<string>,
                            decodeError: string -> Result<string>)
    ensures ClassifyResponse(status, body, decode, decodeError).None?
            <==> status == 204 || ((status == 200 || status == 201) && decode(body).None?)
  {
  }

  /** What the transport was asked to send. */
  datatype Sent = Sent(verb: string, url: string, body: Option<string>, contentType: Option<string>)

  /**
   `Client.Request` end to end: place the path, build the body, hand the
   request to `transport` (which answers a status and a body, or fails),
   then classify the answer.
   */
  function Request(verb: string, path: string, data: RequestData,
                   transport: Sent -> Result<(int, string)>,
                   decode: string -> Option<string>, decodeError: string -> Result<string>): (r: Status)
    ensures data.OtherData? && data.json.Err? ==> r == Some(data.json.error)
    ensures !(data.OtherData? && data.json.Err?) ==>
              var sent := Sent(verb, RequestUrl(path), PrepareRequestBody(data).value.bytes,
                               ContentTypeHeader(PrepareRequestBody(data).value.contentType));
              && (transport(sent).Err? ==> r == Some(transport(sent).error))
              && (transport(sent).Ok? ==>
                    (r.None? <==> transport(sent).value.0 == 204
                                  || (transport(sent).value.0 in {200, 201} && decode(transport(sent).value.1).None?)))
  {
    match PrepareRequestBody(data)
    case Err(e) => Some(e)
    case Ok(b) =>
      var sent := Sent(verb, RequestUrl(path), b.bytes, ContentTypeHeader(b.contentType));
      match transport(sent)
      case Err(e) => Some(e)
      case Ok(reply) => ClassifyResponse(reply.0, reply.1, decode, decodeError)
  }
}
