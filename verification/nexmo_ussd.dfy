/**
 The USSD service of the Nexmo client library (`gonexmo` `ussd.go`): the
 field checks `Send` makes, the form it posts, the endpoint a prompt or a
 push goes to, and what happens when the HTTP client fails.
 */
module NexmoUssd {
  import opened Wrappers
  import opened UrlValues
  import opened NexmoClient

  /** `USSDMessage`. */
  datatype UssdMessage = UssdMessage(
    from: string,
    to: string,
    text: string,
    statusReportRequired: bool,
    clientReference: string,
    networkCode: string,
    prompt: bool)

  const InvalidFrom: string := "Invalid From field specified"
  const InvalidTo: string := "Invalid To field specified"
  const ReferenceTooLong: string := "Client reference too long"
  const InvalidText: string := "Invalid message text"

  const PromptPath: string := "/ussd-prompt/json"
  const PushPath: string := "/ussd/json"

  /** The checks before anything is sent, in order: sender, recipient, reference length in bytes, text. */
  function Validate(m: UssdMessage): (r: Status)
    ensures r.None? <==> m.from != "" && m.to != "" && ByteLength(m.clientReference) <= MaxClientReference && m.text != ""
    ensures m.from == "" ==> r == Some(InvalidFrom)
    ensures m.from != "" && m.to == "" ==> r == Some(InvalidTo)
    ensures m.from != "" && m.to != "" && ByteLength(m.clientReference) > MaxClientReference ==> r == Some(ReferenceTooLong)
    ensures m.from != "" && m.to != "" && ByteLength(m.clientReference) <= MaxClientReference && m.text == "" ==>
              r == Some(InvalidText)
  {
    if ByteLength(m.from) <= 0 then Some(InvalidFrom)
    else if ByteLength(m.to) <= 0 then Some(InvalidTo)
    else if ByteLength(m.clientReference) > MaxClientReference then Some(ReferenceTooLong)
    else if ByteLength(m.text) <= 0 then Some(InvalidText)
    else None
  }

  /**
   The form posted: the text, the credentials unless OAuth is in use, the
   status-report flag only when asked for, the reference and network code only
   when set, and always the recipient and sender.
   */
  function Form(c: Client, m: UssdMessage): (r: Values)
    ensures SingleValued(r)
    ensures Get(r, "text") == m.text && Get(r, "to") == m.to && Get(r, "from") == m.from
    ensures ("api_key" in r) <==> !c.useOauth
    ensures !c.useOauth ==> Get(r, "api_key") == c.apiKey && Get(r, "api_secret") == c.apiSecret
    ensures ("status_report_req" in r) <==> m.statusReportRequired
    ensures m.statusReportRequired ==> Get(r, "status_report_req") == "1"
    ensures ("client_ref" in r) <==> m.clientReference != ""
    ensures m.clientReference != "" ==> Get(r, "client_ref") == m.clientReference
    ensures ("network-code" in r) <==> m.networkCode != ""
    ensures m.networkCode != "" ==> Get(r, "network-code") == m.networkCode
  {
    var r := FormMap(c, m);
    FormEntry(c, m, TextParam); FormEntry(c, m, ToParam); FormEntry(c, m, FromParam);
    FormEntry(c, m, ApiKey); FormEntry(c, m, ApiSecret); FormEntry(c, m, StatusReportReq);
    FormEntry(c, m, ClientRef); FormEntry(c, m, NetworkCode);
    r
  }

  /** The form as one map: each parameter `Send` sets, under its name. */
  function FormMap(c: Client, m: UssdMessage): Values
  {
    map p | p in AllParams && Has(c, m, p) :: ParamName(p) := [ParamValue(c, m, p)]
  }

  /** A parameter's name is in the form exactly when `Send` sets it, and then holds its one value. */
  lemma FormEntry(c: Client, m: UssdMessage, p: Param)
    ensures SingleValued(FormMap(c, m))
    ensures ParamName(p) in FormMap(c, m) <==> Has(c, m, p)
    ensures Has(c, m, p) ==> FormMap(c, m)[ParamName(p)] == [ParamValue(c, m, p)]
  {
    if ParamName(p) in FormMap(c, m) {
      var q :| q in AllParams && Has(c, m, q) && ParamName(q) == ParamName(p);
      ParamNameInjective(p, q);
    }
  }

  /** No two parameters share a name. */
  lemma ParamNameInjective(p: Param, q: Param)
    requires ParamName(p) == ParamName(q)
    ensures p == q
  {
  }

  /** The form parameters `Send` can set. */
  datatype Param = TextParam | ApiKey | ApiSecret | StatusReportReq | ClientRef | NetworkCode | ToParam | FromParam

  const AllParams: set<Param> := {TextParam, ApiKey, ApiSecret, StatusReportReq, ClientRef, NetworkCode, ToParam, FromParam}

  function ParamName(p: Param): (r: string)
    ensures |r| >= 2
  {
    match p
    case TextParam => "text"
    case ApiKey => "api_key"
    case ApiSecret => "api_secret"
    case StatusReportReq => "status_report_req"
    case ClientRef => "client_ref"
    case NetworkCode => "network-code"
    case ToParam => "to"
    case FromParam => "from"
  }

  /** Whether `Send` sets a parameter. */
  predicate Has(c: Client, m: UssdMessage, p: Param)
  {
    match p
    case TextParam | ToParam | FromParam => true
    case ApiKey | ApiSecret => !c.useOauth
    case StatusReportReq => m.statusReportRequired
    case ClientRef => m.clientReference != ""
    case NetworkCode => m.networkCode != ""
  }

  /** The value `Send` sets a parameter to. */
  function ParamValue(c: Client, m: UssdMessage, p: Param): string
  {
    match p
    case TextParam => m.text
    case ApiKey => c.apiKey
    case ApiSecret => c.apiSecret
    case StatusReportReq => "1"
    case ClientRef => m.clientReference
    case NetworkCode => m.networkCode
    case ToParam => m.to
    case FromParam => m.from
  }

  /** A prompt goes to the prompt endpoint, a push to the plain one. */
  function Endpoint(m: UssdMessage): (r: string)
    ensures m.prompt <==> r == ApiRoot + PromptPath
    ensures !m.prompt <==> r == ApiRoot + PushPath
  {
    assert PromptPath != PushPath by { assert |PromptPath| != |PushPath|; }
    if m.prompt then ApiRoot + PromptPath else ApiRoot + PushPath
  }

  /** The request `Send` posts, or the check that stopped it. */
  function UssdRequest(c: Client, m: UssdMessage): (r: Result<Request<Values>>)
    ensures r.Err? <==> Validate(m).Some?
    ensures r.Err? ==> r.error == Validate(m).value
    ensures r.Ok? ==> r.value == Request(Endpoint(m), FormContentType, Form(c, m))
  {
    match Validate(m)
    case Some(e) => Err(e)
    case None => Ok(Request(Endpoint(m), FormContentType, Form(c, m)))
  }

  /** The end of a send: an answer decoded, or a Go panic. */
  datatype Sent = Replied(result: Result<MessageResponse>) | Panicked

  /**
   `USSD.Send` as written: `defer resp.Body.Close()` comes before the error
   check, and the deferred call is evaluated on the spot, so when the HTTP
   client fails and returns no response the send panics on a nil response
   instead of returning the error. An error that comes with a (closed)
   response passes the deferred call and is returned.
   */
  function SendAsWritten(c: Client, m: UssdMessage, exchange: Request<Values> -> Answer,
                         decode: string -> Result<MessageResponse>): (r: Sent)
    ensures Validate(m).Some? ==> r == Replied(Err(Validate(m).value))
    ensures Validate(m).None? ==> (r.Panicked? <==> exchange(UssdRequest(c, m).value).NoResponse?)
    ensures Validate(m).None? && exchange(UssdRequest(c, m).value).ClosedResponse? ==>
              r == Replied(Err(exchange(UssdRequest(c, m).value).error))
    ensures Validate(m).None? && exchange(UssdRequest(c, m).value).Responded? ==>
              r == Replied(decode(exchange(UssdRequest(c, m).value).body))
  {
    match UssdRequest(c, m)
    case Err(e) => Replied(Err(e))
    case Ok(request) =>
      match exchange(request)
      case NoResponse(_) => Panicked
      case ClosedResponse(e) => Replied(Err(e))
      case Responded(body, _) => Replied(decode(body))
  }

  /** `USSD.Send` with the error checked before the body is touched, as the SMS service does. */
  function Send(c: Client, m: UssdMessage, exchange: Request<Values> -> Answer,
                decode: string -> Result<MessageResponse>): (r: Result<MessageResponse>)
    ensures Validate(m).Some? ==> r == Err(Validate(m).value)
    ensures Validate(m).None? && !exchange(UssdRequest(c, m).value).Responded? ==>
              r == Err(exchange(UssdRequest(c, m).value).error)
    ensures Validate(m).None? && exchange(UssdRequest(c, m).value).Responded? ==>
              r == decode(exchange(UssdRequest(c, m).value).body)
  {
    var request :- UssdRequest(c, m);
    var a := exchange(request);
    if a.Responded? then decode(a.body) else Err(a.error)
  }

  /**
   The two agree whenever the HTTP client hands back a response, even with an
   error; they differ exactly when it fails with none, where the written code
   panics and the corrected one returns the error.
   */
  lemma SendMatchesAsWrittenUnlessNoResponse(c: Client, m: UssdMessage, exchange: Request<Values> -> Answer,
                                            decode: string -> Result<MessageResponse>)
    ensures SendAsWritten(c, m, exchange, decode) == Replied(Send(c, m, exchange, decode)) <==>
            Validate(m).Some? || !exchange(UssdRequest(c, m).value).NoResponse?
  {
  }

  /** A concrete failing send: valid message, HTTP client down. */
  lemma NilResponsePanics(c: Client, exchange: Request<Values> -> Answer, decode: string -> Result<MessageResponse>)
    requires forall q :: exchange(q) == NoResponse("dial tcp: connection refused")
    ensures SendAsWritten(c, UssdMessage("sender", "447700900000", "hello", false, "", "", false), exchange, decode) == Panicked
    ensures Send(c, UssdMessage("sender", "447700900000", "hello", false, "", "", false), exchange, decode) ==
            Err("dial tcp: connection refused")
  {
    var m := UssdMessage("sender", "447700900000", "hello", false, "", "", false);
    assert Validate(m).None?;
  }

  /**
   A valid message whose HTTP client stops following redirects: the error
   comes with a response, so the deferred close is safe and the code as
   written returns the error, as the corrected code does.
   */
  lemma RedirectFailureReturnsError(c: Client, exchange: Request<Values> -> Answer,
                                    decode: string -> Result<MessageResponse>)
    requires forall q :: exchange(q) == ClosedResponse("stopped after 10 redirects")
    ensures SendAsWritten(c, UssdMessage("sender", "447700900000", "hello", false, "", "", false), exchange, decode) ==
            Replied(Err("stopped after 10 redirects"))
    ensures Send(c, UssdMessage("sender", "447700900000", "hello", false, "", "", false), exchange, decode) ==
            Err("stopped after 10 redirects")
  {
    var m := UssdMessage("sender", "447700900000", "hello", false, "", "", false);
    assert Validate(m).None?;
  }
}
