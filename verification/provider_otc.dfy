/**
 The Open Telekom Cloud provider (`provider/otc/otc.go`): a session that
 logs in lazily, learns the notification endpoint from the login answer's
 service catalog, and retries a request after a 401 by logging in again.
 Each exchange with the identity service and with the notification
 service is answered by a parameter, keyed by the attempt it belongs to.
 */
module OtcProvider {
  import opened Wrappers
  import Decimal

  datatype Config = Config(identityEndpoint: string, domainName: string, projectName: string,
                           userName: string, password: string, projectId: string, insecure: bool)

  /** What the provider keeps between calls: the auth token and the endpoint base URL. */
  datatype Session = Session(token: string, baseUrl: string)

  /** `NewOTC`: no token and no endpoint yet. */
  function New(c: Config): (r: Session)
    ensures r.token == "" && r.baseUrl == ""
  {
    Session("", "")
  }

  /** One service of the catalog a login answers with: its type and its endpoint URLs. */
  datatype CatalogEntry = CatalogEntry(kind: string, urls: seq<string>)

  /** An entry the endpoint loop takes a URL from. */
  predicate Provides(e: CatalogEntry)
  {
    e.kind == "smn" && |e.urls| > 0
  }

  /**
   The endpoint loop of `loginRequest`: every URL of every `"smn"` entry
   overwrites the base URL in turn, so the last URL of the last such entry
   wins; without one, the base URL keeps its previous value.
   */
  function SmnBase(catalog: seq<CatalogEntry>, projectId: string, prior: string): (r: string)
    ensures (forall i :: 0 <= i < |catalog| ==> !Provides(catalog[i])) ==> r == prior
    decreases |catalog|
  {
    if |catalog| == 0 then prior
    else
      var e := catalog[0];
      var next := if Provides(e) then e.urls[|e.urls| - 1] + projectId else prior;
      assert forall i :: 1 <= i < |catalog| ==> catalog[i] == catalog[1..][i - 1];
      SmnBase(catalog[1..], projectId, next)
  }

  /**
   With some entry providing an endpoint, the base URL is the last URL of
   the last such entry followed by the project ID, whatever came before.
   */
  lemma {:induction false} SmnBaseIsLast(catalog: seq<CatalogEntry>, projectId: string, prior: string, i: nat)
    requires i < |catalog| && Provides(catalog[i])
    requires forall j :: i < j < |catalog| ==> !Provides(catalog[j])
    ensures SmnBase(catalog, projectId, prior) == catalog[i].urls[|catalog[i].urls| - 1] + projectId
    decreases i
  {
    var e := catalog[0];
    var next := if Provides(e) then e.urls[|e.urls| - 1] + projectId else prior;
    var rest := catalog[1..];
    forall j | i - 1 < j < |rest|
      ensures !Provides(rest[j])
    {
      assert rest[j] == catalog[j + 1];
    }
    if i > 0 {
      assert rest[i - 1] == catalog[i];
      SmnBaseIsLast(rest, projectId, next, i - 1);
    }
  }

  /**
   What the identity service did with a login: no answer (the request could
   not be built or sent), or an answer with its status, its
   `X-Subject-Token` header and the catalog its body decodes to.
   */
  datatype LoginAnswer = LoginFailed(error: string)
                       | LoginReplied(status: int, token: string, catalog: Result<seq<CatalogEntry>>)

  datatype LoginOutcome = LoginOutcome(session: Session, error: Status)

  /**
   `loginRequest`: a status of 400 or more fails; otherwise the token is
   taken from the header (and kept even when the rest fails), an empty token
   fails, and the catalog decides the endpoint, without which it fails.
   */
  function Login(c: Config, s: Session, answer: LoginAnswer): (r: LoginOutcome)
    ensures r.error.None? <==>
              && answer.LoginReplied? && answer.status < 400 && answer.token != "" && answer.catalog.Ok?
              && SmnBase(answer.catalog.value, c.projectId, s.baseUrl) != ""
    ensures r.error.None? ==> r.session == Session(answer.token, SmnBase(answer.catalog.value, c.projectId, s.baseUrl))
    ensures answer.LoginFailed? || answer.status >= 400 ==> r.session == s
    ensures answer.LoginReplied? && answer.status >= 400 ==>
              r.error == Some("OTC API request failed with HTTP status code " + Decimal.FormatInt(answer.status))
    ensures answer.LoginReplied? && answer.status < 400 ==> r.session.token == answer.token
    ensures answer.LoginReplied? && answer.status < 400 && answer.token == "" ==> r.error == Some("unable to get auth token")
  {
    match answer
    case LoginFailed(e) => LoginOutcome(s, Some(e))
    case LoginReplied(status, token, catalog) =>
      if status >= 400 then
        LoginOutcome(s, Some("OTC API request failed with HTTP status code " + Decimal.FormatInt(status)))
      else
        var s1 := s.(token := token);
        if token == "" then LoginOutcome(s1, Some("unable to get auth token"))
        else
          match catalog
          case Err(e) => LoginOutcome(s1, Some(e))
          case Ok(entries) =>
            var base := SmnBase(entries, c.projectId, s.baseUrl);
            if base == "" then LoginOutcome(s1.(baseUrl := base), Some("unable to find snm endpoint"))
            else LoginOutcome(s1.(baseUrl := base), None)
  }

  /** `smsRequest`: the recipient and the text. */
  datatype SmsRequest = SmsRequest(endpoint: string, message: string)

  /** A request to the notification service. */
  datatype ApiRequest = ApiRequest(verb: string, url: string, token: string, payload: SmsRequest)

  /** What the notification service did with a request: no answer, or a status and the body as read. */
  datatype PostAnswer = PostFailed(error: string) | PostReplied(status: int, body: Result<string>)

  /** The two services, each answering the exchange of a given attempt. */
  datatype Exchange = Exchange(login: (int, SmsRequest) -> LoginAnswer, post: (int, ApiRequest) -> PostAnswer)

  /** One exchange `SendRequest` made, in order. */
  datatype Call = LoginCall | PostCall(request: ApiRequest)

  /**
   What `SendRequest` returns: the answer body, an error, or, as Go allows,
   neither.
   */
  datatype Reply = Answered(body: string) | Failed(error: string) | Nothing

  datatype Step = Step(session: Session, reply: Reply, trace: seq<Call>)

  /** The error for a status of 400 or more. */
  function StatusError(url: string, status: int): string
  {
    "OTC API request " + url + " failed with HTTP status code " + Decimal.FormatInt(status)
  }

  function PostCount(trace: seq<Call>): (n: nat)
    ensures n <= |trace|
  {
    if |trace| == 0 then 0 else (if trace[0].PostCall? then 1 else 0) + PostCount(trace[1..])
  }

  lemma {:induction false} PostCountConcat(a: seq<Call>, b: seq<Call>)
    ensures PostCount(a + b) == PostCount(a) + PostCount(b)
    decreases |a|
  {
    if |a| > 0 {
      assert (a + b)[1..] == a[1..] + b;
      assert (a + b)[0] == a[0];
      PostCountConcat(a[1..], b);
    } else {
      assert a + b == b;
    }
  }

  /**
   `SendRequest`, with what it returns once a 401 has used up the attempts
   left as the parameter `exhausted` (given the URL): log in first when
   there is no token; send; on 401 forget the token and, while attempts
   remain, start over; any other status of 400 or more is an error naming
   the URL; otherwise the body is the answer.
   */
  function SendRequestWith(c: Config, s: Session, verb: string, resource: string, payload: SmsRequest,
                           attempts: int, ex: Exchange, exhausted: string -> Reply): (r: Step)
    ensures |r.trace| > 0
    ensures r.trace[0] == LoginCall <==> s.token == ""
    ensures PostCount(r.trace) <= if attempts > 1 then attempts else 1
    decreases if attempts > 0 then attempts else 0
  {
    var login := Login(c, s, ex.login(attempts, payload));
    if s.token == "" && login.error.Some? then Step(login.session, Failed(login.error.value), [LoginCall])
    else
      var s1 := if s.token == "" then login.session else s;
      var pre := if s.token == "" then [LoginCall] else [];
      var url := s1.baseUrl + "/" + resource;
      var req := ApiRequest(verb, url, s1.token, payload);
      var trace := pre + [PostCall(req)];
      assert PostCount(trace) == 1 by {
        PostCountConcat(pre, [PostCall(req)]);
        assert PostCount([PostCall(req)]) == 1;
      }
      match ex.post(attempts, req)
      case PostFailed(e) => Step(s1, Failed(e), trace)
      case PostReplied(status, body) =>
        if status == 401 then
          var cleared := s1.(token := "");
          if attempts - 1 > 0 then
            var rest := SendRequestWith(c, cleared, verb, resource, payload, attempts - 1, ex, exhausted);
            PostCountConcat(trace, rest.trace);
            Step(rest.session, rest.reply, trace + rest.trace)
          else Step(cleared, exhausted(url), trace)
        else if status >= 400 then Step(s1, Failed(StatusError(url, status)), trace)
        else
          match body
          case Err(e) => Step(s1, Failed(e), trace)
          case Ok(text) => Step(s1, Answered(text), trace)
  }

  /** What the code as written returns when the attempts run out on a 401: `nil, nil`. */
  function GiveUpAsWritten(url: string): Reply
  {
    Nothing
  }

  /** What is evidently meant there: the error any other status of 400 or more gets. */
  function GiveUp(url: string): Reply
  {
    Failed(StatusError(url, 401))
  }

  /** `SendRequest` as written: when the attempts run out on a 401, neither a body nor an error. */
  function SendRequestAsWritten(c: Config, s: Session, verb: string, resource: string, payload: SmsRequest,
                                attempts: int, ex: Exchange): (r: Step)
    ensures |r.trace| > 0 && r.trace[0] == LoginCall <==> s.token == ""
    ensures PostCount(r.trace) <= if attempts > 1 then attempts else 1
  {
    SendRequestWith(c, s, verb, resource, payload, attempts, ex, GiveUpAsWritten)
  }

  /** `SendRequest` as intended: running out of attempts on a 401 is an error like any other status of 400 or more. */
  function SendRequest(c: Config, s: Session, verb: string, resource: string, payload: SmsRequest,
                       attempts: int, ex: Exchange): (r: Step)
    ensures |r.trace| > 0 && r.trace[0] == LoginCall <==> s.token == ""
    ensures PostCount(r.trace) <= if attempts > 1 then attempts else 1
  {
    SendRequestWith(c, s, verb, resource, payload, attempts, ex, GiveUp)
  }

  /** The intended version never answers with neither a body nor an error. */
  lemma {:induction false} SendRequestAlwaysDecides(c: Config, s: Session, verb: string, resource: string,
                                                    payload: SmsRequest, attempts: int, ex: Exchange)
    ensures !SendRequest(c, s, verb, resource, payload, attempts, ex).reply.Nothing?
    decreases if attempts > 0 then attempts else 0
  {
    var login := Login(c, s, ex.login(attempts, payload));
    if !(s.token == "" && login.error.Some?) {
      var s1 := if s.token == "" then login.session else s;
      var req := ApiRequest(verb, s1.baseUrl + "/" + resource, s1.token, payload);
      var answer := ex.post(attempts, req);
      if answer.PostReplied? && answer.status == 401 && attempts - 1 > 0 {
        SendRequestAlwaysDecides(c, s1.(token := ""), verb, resource, payload, attempts - 1, ex);
      }
    }
  }

  /**
   The two versions differ only where the attempts run out on a 401: there
   the code as written returns neither a body nor an error, and the
   intended version the 401 error; everywhere else they agree.
   */
  lemma {:induction false} VersionsDifferOnlyOnExhausted401(c: Config, s: Session, verb: string, resource: string,
                                                            payload: SmsRequest, attempts: int, ex: Exchange)
    ensures var w := SendRequestAsWritten(c, s, verb, resource, payload, attempts, ex);
            var f := SendRequest(c, s, verb, resource, payload, attempts, ex);
            && w.session == f.session && w.trace == f.trace
            && (w.reply != f.reply ==> w.reply.Nothing? && f.reply.Failed?)
            && (w.reply.Nothing? ==> f.reply.Failed?)
    decreases if attempts > 0 then attempts else 0
  {
    var login := Login(c, s, ex.login(attempts, payload));
    if !(s.token == "" && login.error.Some?) {
      var s1 := if s.token == "" then login.session else s;
      var req := ApiRequest(verb, s1.baseUrl + "/" + resource, s1.token, payload);
      var answer := ex.post(attempts, req);
      if answer.PostReplied? && answer.status == 401 && attempts - 1 > 0 {
        VersionsDifferOnlyOnExhausted401(c, s1.(token := ""), verb, resource, payload, attempts - 1, ex);
      }
    }
  }

  /** The request `SendRequest` sends from a session. */
  function RequestFrom(s: Session, verb: string, resource: string, payload: SmsRequest): ApiRequest
  {
    ApiRequest(verb, s.baseUrl + "/" + resource, s.token, payload)
  }

  /** A 401 with attempts left: the token is dropped and the request starts over. */
  lemma RetryOn401(c: Config, s: Session, verb: string, resource: string, payload: SmsRequest,
                   attempts: int, ex: Exchange, exhausted: string -> Reply)
    requires s.token != "" && attempts > 1
    requires ex.post(attempts, RequestFrom(s, verb, resource, payload)).PostReplied?
    requires ex.post(attempts, RequestFrom(s, verb, resource, payload)).status == 401
    ensures SendRequestWith(c, s, verb, resource, payload, attempts, ex, exhausted).reply
            == SendRequestWith(c, s.(token := ""), verb, resource, payload, attempts - 1, ex, exhausted).reply
  {
  }

  /** A 401 on the last attempt: what is returned when the attempts run out. */
  lemma GiveUpOn401(c: Config, s: Session, verb: string, resource: string, payload: SmsRequest,
                    attempts: int, ex: Exchange, exhausted: string -> Reply)
    requires s.token != "" && attempts <= 1
    requires ex.post(attempts, RequestFrom(s, verb, resource, payload)).PostReplied?
    requires ex.post(attempts, RequestFrom(s, verb, resource, payload)).status == 401
    ensures SendRequestWith(c, s, verb, resource, payload, attempts, ex, exhausted).reply
            == exhausted(s.baseUrl + "/" + resource)
  {
  }

  /** Without a token, a successful login comes first and the request goes out with its session. */
  lemma LoginFirst(c: Config, s: Session, verb: string, resource: string, payload: SmsRequest,
                   attempts: int, ex: Exchange, exhausted: string -> Reply)
    requires s.token == ""
    requires Login(c, s, ex.login(attempts, payload)).error.None?
    ensures var s1 := Login(c, s, ex.login(attempts, payload)).session;
            SendRequestWith(c, s, verb, resource, payload, attempts, ex, exhausted).trace[1]
            == PostCall(RequestFrom(s1, verb, resource, payload))
    ensures var s1 := Login(c, s, ex.login(attempts, payload)).session;
            s1.token != "" &&
            (ex.post(attempts, RequestFrom(s1, verb, resource, payload)).PostReplied? &&
             ex.post(attempts, RequestFrom(s1, verb, resource, payload)).status == 401 && attempts <= 1 ==>
             SendRequestWith(c, s, verb, resource, payload, attempts, ex, exhausted).reply
             == exhausted(s1.baseUrl + "/" + resource))
  {
  }

  /**
   The discrepancy on one input: with a token, one attempt left and a 401
   answer, the code as written returns neither a body nor an error, so its
   caller sees success.
   */
  lemma Rejected401LooksLikeSuccess(c: Config, s: Session, payload: SmsRequest, ex: Exchange)
    requires s.token != ""
    requires ex.post(1, RequestFrom(s, "POST", SmsResource, payload)) == PostReplied(401, Ok(""))
    ensures SendRequestAsWritten(c, s, "POST", SmsResource, payload, 1, ex).reply == Nothing
  {
    GiveUpOn401(c, s, "POST", SmsResource, payload, 1, ex, GiveUpAsWritten);
  }

  /** On the same input the intended version reports the 401. */
  lemma Rejected401Reported(c: Config, s: Session, payload: SmsRequest, ex: Exchange)
    requires s.token != ""
    requires ex.post(1, RequestFrom(s, "POST", SmsResource, payload)) == PostReplied(401, Ok(""))
    ensures SendRequest(c, s, "POST", SmsResource, payload, 1, ex).reply
            == Failed(StatusError(s.baseUrl + "/" + SmsResource, 401))
  {
    GiveUpOn401(c, s, "POST", SmsResource, payload, 1, ex, GiveUp);
  }

  /** A request is made with the token it holds; without one, the login comes first. */
  lemma ExistingTokenIsUsed(c: Config, s: Session, verb: string, resource: string, payload: SmsRequest,
                            attempts: int, ex: Exchange)
    requires s.token != ""
    ensures SendRequest(c, s, verb, resource, payload, attempts, ex).trace[0]
            == PostCall(ApiRequest(verb, s.baseUrl + "/" + resource, s.token, payload))
  {
  }

  /** What `Send` did: the session after it, its error, and the recipients it got to. */
  datatype Outcome = Outcome(session: Session, error: Status, attempted: seq<string>)

  /** The resource `Send` posts each message to, below the project's base URL. */
  const SmsResource: string := "notifications/sms"

  /** How many attempts `Send` gives each request. */
  const Attempts: int := 2

  /** Whether a reply counts as a failure for `Send`: only an error does. */
  function ErrorOf(reply: Reply): (r: Status)
    ensures r.Some? <==> reply.Failed?
  {
    if reply.Failed? then Some(reply.error) else None
  }

  /**
   The session each recipient's request starts from when every request is
   made in turn: `r[i]` before the request to `to[i]`, and `r[|to|]` after
   the last one.
   */
  function Sessions(s: Session, to: seq<string>, text: string,
                    send: (Session, SmsRequest) -> Step): (r: seq<Session>)
    ensures |r| == |to| + 1 && r[0] == s
    ensures forall i :: 0 <= i < |to| ==> r[i + 1] == send(r[i], SmsRequest(to[i], text)).session
    decreases |to|
  {
    if |to| == 0 then [s]
    else
      var rest := Sessions(send(s, SmsRequest(to[0], text)).session, to[1..], text, send);
      assert forall i :: 1 <= i < |to| ==> to[i] == to[1..][i - 1];
      [s] + rest
  }

  /** The request to `to[i]` as the loop makes it, from the session the earlier requests left. */
  function StepAt(s: Session, to: seq<string>, text: string, send: (Session, SmsRequest) -> Step, i: nat): Step
    requires i < |to|
  {
    send(Sessions(s, to, text, send)[i], SmsRequest(to[i], text))
  }

  /**
   `OTC.Send` over the request function `send`: one request per recipient
   with two attempts, the session carried from one to the next; the first
   error ends the loop. SendWithStopsAtFirstFailure says which request
   that is and what it left behind.
   */
  function SendWith(c: Config, s: Session, to: seq<string>, text: string,
                    send: (Session, SmsRequest) -> Step): (r: Outcome)
    ensures r.attempted <= to
    ensures r.error.None? ==> r.attempted == to
    ensures r.error.Some? ==> |r.attempted| > 0
    decreases |to|
  {
    if |to| == 0 then Outcome(s, None, [])
    else
      var step := send(s, SmsRequest(to[0], text));
      if step.reply.Failed? then Outcome(step.session, Some(step.reply.error), [to[0]])
      else
        var rest := SendWith(c, step.session, to[1..], text, send);
        assert to == [to[0]] + to[1..];
        Outcome(rest.session, rest.error, [to[0]] + rest.attempted)
  }

  /**
   The loop follows the chain of sessions: every request before the last
   one made did not fail (and, on success, neither did the last); on
   failure the error is the last request's, and the session is the one
   that request left; on success it is the one the whole run left.
   */
  lemma {:induction false} SendWithStopsAtFirstFailure(c: Config, s: Session, to: seq<string>, text: string,
                                                       send: (Session, SmsRequest) -> Step)
    ensures var r := SendWith(c, s, to, text, send);
            && (r.error.None? ==> r.session == Sessions(s, to, text, send)[|to|])
            && (forall j :: 0 <= j < |r.attempted| && (r.error.None? || j < |r.attempted| - 1) ==>
                  !StepAt(s, to, text, send, j).reply.Failed?)
            && (r.error.Some? ==>
                  var last := StepAt(s, to, text, send, |r.attempted| - 1);
                  last.reply.Failed? && r.error == Some(last.reply.error) && r.session == last.session)
    decreases |to|
  {
    if |to| > 0 {
      var step := send(s, SmsRequest(to[0], text));
      assert StepAt(s, to, text, send, 0) == step;
      if !step.reply.Failed? {
        var r := SendWith(c, s, to, text, send);
        var rest := SendWith(c, step.session, to[1..], text, send);
        assert r == Outcome(rest.session, rest.error, [to[0]] + rest.attempted);
        SendWithStopsAtFirstFailure(c, step.session, to[1..], text, send);
        ShiftSteps(s, to, text, send);
        forall j | 0 < j < |r.attempted| && (r.error.None? || j < |r.attempted| - 1)
          ensures !StepAt(s, to, text, send, j).reply.Failed?
        {
          assert StepAt(s, to, text, send, j) == StepAt(step.session, to[1..], text, send, j - 1);
        }
        if r.error.Some? {
          assert StepAt(s, to, text, send, |r.attempted| - 1)
              == StepAt(step.session, to[1..], text, send, |rest.attempted| - 1);
        }
      }
    }
  }

  /** After a first request, the later requests are the requests of the rest of the list. */
  lemma ShiftSteps(s: Session, to: seq<string>, text: string, send: (Session, SmsRequest) -> Step)
    requires |to| > 0
    ensures var next := send(s, SmsRequest(to[0], text)).session;
            && Sessions(s, to, text, send)[|to|] == Sessions(next, to[1..], text, send)[|to| - 1]
            && forall j :: 0 < j < |to| ==> StepAt(s, to, text, send, j) == StepAt(next, to[1..], text, send, j - 1)
  {
    var next := send(s, SmsRequest(to[0], text)).session;
    assert Sessions(s, to, text, send) == [s] + Sessions(next, to[1..], text, send);
  }

  /** The loop reports success exactly when no request, made in turn, fails. */
  lemma SendWithSucceedsIff(c: Config, s: Session, to: seq<string>, text: string,
                            send: (Session, SmsRequest) -> Step)
    ensures SendWith(c, s, to, text, send).error.None? <==>
              forall j :: 0 <= j < |to| ==> !StepAt(s, to, text, send, j).reply.Failed?
  {
    var r := SendWith(c, s, to, text, send);
    SendWithStopsAtFirstFailure(c, s, to, text, send);
    if r.error.Some? {
      var k := |r.attempted| - 1;
      assert k < |to| && StepAt(s, to, text, send, k).reply.Failed?;
    }
  }

  /** One recipient's request as `Send` makes it with `SendRequest` as written. */
  function AsWrittenRequest(c: Config, ex: Exchange): (Session, SmsRequest) -> Step
  {
    (s: Session, p: SmsRequest) => SendRequestAsWritten(c, s, "POST", SmsResource, p, Attempts, ex)
  }

  /** One recipient's request as `Send` makes it with `SendRequest` as intended. */
  function IntendedRequest(c: Config, ex: Exchange): (Session, SmsRequest) -> Step
  {
    (s: Session, p: SmsRequest) => SendRequest(c, s, "POST", SmsResource, p, Attempts, ex)
  }

  /**
   `Send` with `SendRequest` as written: it succeeds exactly when no
   request, made in turn from the session the earlier ones left, fails;
   otherwise it stops at the first failure and returns it.
   */
  function SendAsWritten(c: Config, s: Session, to: seq<string>, text: string, ex: Exchange): (r: Outcome)
    ensures r.attempted <= to
    ensures r.error.None? ==> r.attempted == to
    ensures r.error.None? <==> forall j :: 0 <= j < |to| ==>
              !StepAt(s, to, text, AsWrittenRequest(c, ex), j).reply.Failed?
    ensures forall j :: 0 <= j < |r.attempted| - 1 ==>
              !StepAt(s, to, text, AsWrittenRequest(c, ex), j).reply.Failed?
    ensures r.error.Some? ==> |r.attempted| > 0
    ensures r.error.Some? ==>
              var last := StepAt(s, to, text, AsWrittenRequest(c, ex), |r.attempted| - 1);
              last.reply.Failed? && r.error == Some(last.reply.error)
  {
    SendWithSucceedsIff(c, s, to, text, AsWrittenRequest(c, ex));
    SendWithStopsAtFirstFailure(c, s, to, text, AsWrittenRequest(c, ex));
    SendWith(c, s, to, text, AsWrittenRequest(c, ex))
  }

  /**
   `Send` with `SendRequest` as intended: the same loop, stopping at the
   first request that fails and returning its error.
   */
  function Send(c: Config, s: Session, to: seq<string>, text: string, ex: Exchange): (r: Outcome)
    ensures r.attempted <= to
    ensures r.error.None? ==> r.attempted == to
    ensures r.error.None? <==> forall j :: 0 <= j < |to| ==>
              !StepAt(s, to, text, IntendedRequest(c, ex), j).reply.Failed?
    ensures forall j :: 0 <= j < |r.attempted| - 1 ==>
              !StepAt(s, to, text, IntendedRequest(c, ex), j).reply.Failed?
    ensures r.error.Some? ==> |r.attempted| > 0
    ensures r.error.Some? ==>
              var last := StepAt(s, to, text, IntendedRequest(c, ex), |r.attempted| - 1);
              last.reply.Failed? && r.error == Some(last.reply.error)
  {
    SendWithSucceedsIff(c, s, to, text, IntendedRequest(c, ex));
    SendWithStopsAtFirstFailure(c, s, to, text, IntendedRequest(c, ex));
    SendWith(c, s, to, text, IntendedRequest(c, ex))
  }

  /**
   A recipient whose request is refused with 401 on both attempts, with a
   successful login in between: as written the send reports success; as
   intended it fails.
   */
  lemma RefusedRecipientReportedAsSent(c: Config, s: Session, to: string, text: string, ex: Exchange)
    requires s.token != "" && s.baseUrl != ""
    requires forall attempt: int, req: ApiRequest :: ex.post(attempt, req) == PostReplied(401, Ok(""))
    requires ex.login(1, SmsRequest(to, text)) == LoginReplied(201, "fresh", Ok([CatalogEntry("smn", [s.baseUrl])]))
    ensures SendAsWritten(c, s, [to], text, ex).error.None?
    ensures Send(c, s, [to], text, ex).error.Some?
  {
    var p := SmsRequest(to, text);
    RetryOn401(c, s, "POST", SmsResource, p, Attempts, ex, GiveUpAsWritten);
    var cleared := s.(token := "");
    assert Login(c, cleared, ex.login(1, p)).error.None? by {
      assert Provides(CatalogEntry("smn", [s.baseUrl]));
    }
    LoginFirst(c, cleared, "POST", SmsResource, p, 1, ex, GiveUpAsWritten);
    var w := SendRequestAsWritten(c, s, "POST", SmsResource, p, Attempts, ex);
    assert w.reply == Nothing;
    SendRequestAlwaysDecides(c, s, "POST", SmsResource, p, Attempts, ex);
    VersionsDifferOnlyOnExhausted401(c, s, "POST", SmsResource, p, Attempts, ex);
    assert [to][1..] == [];
  }
}
