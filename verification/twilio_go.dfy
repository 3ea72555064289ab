/**
 The Twilio client library the Twilio provider calls (`carlosdp/twiliogo`):
 how a request URL is built from the account root, how an HTTP answer is
 classified into a body and an error, how `NewMessage` validates and folds
 its optional parameters, and how the library's two error types render.
 The HTTP exchange and JSON decoding are parameters.
 */
module TwilioGo {
  import opened Wrappers
  import opened UrlValues
  import Decimal
  import Text

  const Root: string := "https://api.twilio.com"
  const Version: string := "2010-04-01"

  datatype Client = Client(accountSid: string, authToken: string, rootUrl: string)

  /** `NewClient`: the root URL names the API version and the account. */
  function NewClient(accountSid: string, authToken: string): (c: Client)
    ensures c.accountSid == accountSid && c.authToken == authToken
    ensures Root + "/" <= c.rootUrl
    ensures |accountSid| <= |c.rootUrl| && c.rootUrl[|c.rootUrl| - |accountSid|..] == accountSid
  {
    Client(accountSid, authToken, Root + "/" + Version + "/Accounts/" + accountSid)
  }

  // ---------------------------------------------------------------------
  // URL building
  // ---------------------------------------------------------------------

  /** Leading `/` characters removed. */
  function TrimLeftSlash(s: string): (r: string)
    ensures |r| <= |s| && r == s[|s| - |r|..]
    ensures |r| > 0 ==> r[0] != '/'
    ensures forall i :: 0 <= i < |s| - |r| ==> s[i] == '/'
  {
    if |s| > 0 && s[0] == '/' then TrimLeftSlash(s[1..]) else s
  }

  /** Trailing `/` characters removed. */
  function TrimRightSlash(s: string): (r: string)
    ensures |r| <= |s| && r == s[..|r|]
    ensures |r| > 0 ==> r[|r| - 1] != '/'
    ensures forall i :: |r| <= i < |s| ==> s[i] == '/'
  {
    if |s| > 0 && s[|s| - 1] == '/' then TrimRightSlash(s[..|s| - 1]) else s
  }

  /** `strings.Trim(p, "/")`. */
  function Trim(s: string): (r: string)
  {
    TrimRightSlash(TrimLeftSlash(s))
  }

  /** No `/` at either end. */
  predicate Unpadded(s: string)
  {
    |s| == 0 || (s[0] != '/' && s[|s| - 1] != '/')
  }

  /** `Trim` leaves no slash at either end, and removes nothing but slashes from the ends. */
  lemma TrimShape(s: string)
    ensures Unpadded(Trim(s))
    ensures Trim(s) == "" <==> forall i :: 0 <= i < |s| ==> s[i] == '/'
    ensures Unpadded(s) ==> Trim(s) == s
  {
    var l := TrimLeftSlash(s);
    var r := TrimRightSlash(l);
    if |r| > 0 {
      assert r[0] == l[0];
    }
    if r == "" {
      assert |l| == 0;
    }
  }

  /** A slash in front of a part makes no difference to it. */
  lemma TrimLeadingSlash(s: string)
    ensures Trim("/" + s) == Trim(s)
  {
    assert ("/" + s)[1..] == s;
  }

  /** A slash after a part makes no difference to it. */
  lemma TrimTrailingSlash(s: string)
    ensures Trim(s + "/") == Trim(s)
  {
    TrimLeftSnoc(s);
    var l := TrimLeftSlash(s);
    if l != "" {
      assert (l + "/")[..|l|] == l;
      assert TrimRightSlash(l + "/") == TrimRightSlash(l);
    }
  }

  /** A trailing slash survives the left trim unless everything was slashes. */
  lemma {:induction false} TrimLeftSnoc(s: string)
    ensures TrimLeftSlash(s + "/") == if TrimLeftSlash(s) == "" then "" else TrimLeftSlash(s) + "/"
  {
    if |s| > 0 && s[0] == '/' {
      assert (s + "/")[1..] == s[1..] + "/";
      TrimLeftSnoc(s[1..]);
    } else if |s| == 0 {
      assert s + "/" == "/";
      assert "/"[1..] == "";
    }
  }

  /** Trimming twice is trimming once. */
  lemma TrimIdempotent(s: string)
    ensures Trim(Trim(s)) == Trim(s)
  {
    TrimShape(s);
    TrimShape(Trim(s));
  }

  /** The trimmed, non-empty parts, in order. */
  function Segments(parts: seq<string>): (r: seq<string>)
    ensures |r| <= |parts|
    ensures Clean(r)
  {
    if |parts| == 0 then []
    else
      var p := Trim(parts[0]);
      var rest := Segments(parts[1..]);
      TrimShape(parts[0]);
      if p == "" then rest
      else
        CleanCons(p, rest);
        [p] + rest
  }

  /** A clean segment in front of clean segments keeps them clean. */
  lemma CleanCons(p: string, rest: seq<string>)
    requires p != "" && Unpadded(p) && Clean(rest)
    ensures Clean([p] + rest)
  {
    assert forall i :: 1 <= i < |[p] + rest| ==> ([p] + rest)[i] == rest[i - 1];
  }

  /** Every segment is non-empty with no slash at either end. */
  predicate Clean(segments: seq<string>)
  {
    forall i :: 0 <= i < |segments| ==> segments[i] != "" && Unpadded(segments[i])
  }

  /** `strings.HasPrefix(s, "http")`. */
  predicate IsAbsolute(s: string)
  {
    "http" <= s
  }

  /**
   `buildUri`: no parts give the empty URL; otherwise the account root (unless
   the first part, untrimmed, is already an absolute URL) and the trimmed,
   non-empty parts, joined with single slashes.
   */
  function BuildUri(c: Client, parts: seq<string>): (r: string)
    ensures |parts| == 0 ==> r == ""
    ensures |parts| > 0 && !IsAbsolute(parts[0]) ==> c.rootUrl <= r
  {
    if |parts| == 0 then ""
    else Text.Join((if IsAbsolute(parts[0]) then [] else [c.rootUrl]) + Segments(parts), "/")
  }

  /** The one-part form every caller uses: the root, a slash, the trimmed part. */
  lemma {:induction false} BuildUriOnePart(c: Client, p: string)
    requires !IsAbsolute(p) && Trim(p) != ""
    ensures BuildUri(c, [p]) == c.rootUrl + "/" + Trim(p)
  {
    assert [p][1..] == [];
    assert Segments([p]) == [Trim(p)];
    assert [c.rootUrl] + [Trim(p)] == [c.rootUrl, Trim(p)];
    assert BuildUri(c, [p]) == Text.Join([c.rootUrl] + [Trim(p)], "/");
    Text.JoinCons(c.rootUrl, [Trim(p)], "/");
  }

  /** A part that is only slashes (or empty) leaves the root alone. */
  lemma {:induction false} BuildUriBlankPart(c: Client, p: string)
    requires !IsAbsolute(p) && Trim(p) == ""
    ensures BuildUri(c, [p]) == c.rootUrl
  {
    assert [p][1..] == [];
    assert Segments([p]) == [];
    assert [c.rootUrl] + [] == [c.rootUrl];
  }

  /** An absolute URL without a trailing slash is used as it is. */
  lemma {:induction false} BuildUriAbsolute(c: Client, u: string)
    requires IsAbsolute(u) && u[|u| - 1] != '/'
    ensures BuildUri(c, [u]) == u
  {
    assert u[0] == 'h';
    TrimShape(u);
    assert [u][1..] == [];
    assert Segments([u]) == [u];
    assert [] + [u] == [u];
  }

  /** `TestBuildUri`: the account root followed by the part. */
  lemma BuildUriExample()
    ensures BuildUri(NewClient("abc", ""), ["qzx"]) == Root + "/" + Version + "/Accounts/abc/qzx"
  {
    var sid, p := "abc", "qzx";
    ExampleParts(sid, p);
    BuildUriUnderAccount(sid, p);
    Regroup(Root + "/" + Version, "/Accounts/", sid, "/", p);
  }

  lemma ExampleParts(sid: string, p: string)
    requires sid == "abc" && p == "qzx"
    ensures p != "" && !IsAbsolute(p) && Unpadded(p)
    ensures "/Accounts/" + sid + "/" + p == "/Accounts/abc/qzx"
  {
    assert p[0] != "http"[0] && p[0] != '/' && p[2] != '/';
  }

  /** Concatenation regrouped: the last four pieces taken together. */
  lemma Regroup(x: string, a: string, b: string, c: string, d: string)
    ensures x + a + b + c + d == x + (a + b + c + d)
  {
  }

  /** A relative, unpadded part lands directly below the account root. */
  lemma BuildUriUnderAccount(sid: string, p: string)
    requires p != "" && !IsAbsolute(p) && Unpadded(p)
    ensures BuildUri(NewClient(sid, ""), [p]) == Root + "/" + Version + "/Accounts/" + sid + "/" + p
  {
    TrimShape(p);
    BuildUriOnePart(NewClient(sid, ""), p);
  }

  /** The message endpoint sits directly below the account root. */
  lemma MessagesUri(c: Client)
    ensures BuildUri(c, [MessagesPath]) == c.rootUrl + MessagesPath
  {
    var t := "Messages.json";
    assert Unpadded(t) by { assert t[0] == 'M' && t[|t| - 1] == 'n'; }
    assert MessagesPath == "/" + t;
    SlashPathUri(c, t);
  }

  /** A path written as a slash and one clean segment is appended to the root as written. */
  lemma SlashPathUri(c: Client, t: string)
    requires t != "" && Unpadded(t)
    ensures BuildUri(c, ["/" + t]) == c.rootUrl + ("/" + t)
  {
    var p := "/" + t;
    assert !IsAbsolute(p) by { assert p[0] == '/'; }
    TrimRelative(t);
    BuildUriOnePart(c, p);
  }

  /** A relative path written with a leading slash trims to the path. */
  lemma TrimRelative(p: string)
    requires Unpadded(p)
    ensures Trim("/" + p) == p
  {
    TrimLeadingSlash(p);
    TrimShape(p);
  }

  // ---------------------------------------------------------------------
  // HTTP: post, get, delete
  // ---------------------------------------------------------------------

  /** The request handed to the HTTP client: basic auth is always the account credentials. */
  datatype Request = Request(
    verb: string,
    url: string,
    user: string,
    password: string,
    body: Values,
    contentType: Option<string>)

  /**
   What the HTTP client gave back: no response (the request could not be made
   or sent), or a status and whatever body was read, with the read error if
   reading stopped early.
   */
  datatype Answer =
    | NoResponse(error: string)
    | Responded(status: int, body: string, readError: Option<string>)

  /** The JSON error document Twilio sends with a failing status. */
  datatype TwilioError = TwilioError(status: int, message: string, code: int, moreInfo: string)

  /** The error values the library returns. */
  datatype Failure =
    | Plain(description: string)   // `Error{...}`
    | Api(twilio: TwilioError)     // `*TwilioError`
    | Foreign(text: string)        // an error from the HTTP client or `fmt.Errorf`

  /** A `([]byte, error)` result of `post` or `get`. */
  datatype Reply = Reply(body: Option<string>, error: Option<Failure>)

  const ServerError: string := "Server Error"
  const FormContentType: string := "application/x-www-form-urlencoded"

  /**
   The status handling shared by `post` and `get`: 200 and 201 succeed, 500 is
   a plain "Server Error", any other status is the decoded Twilio error
   document (a decoding failure is ignored and leaves the zero document).
   */
  function Classify(a: Answer, decodeError: string -> TwilioError): (r: Reply)
    ensures r.error.None? <==> a.Responded? && a.readError.None? && (a.status == 200 || a.status == 201)
    ensures a.NoResponse? ==> r == Reply(None, Some(Foreign(a.error)))
    ensures a.Responded? ==> r.body == Some(a.body)
    ensures a.Responded? && a.readError.Some? ==> r.error == Some(Foreign(a.readError.value))
    ensures a.Responded? && a.readError.None? && a.status == 500 ==> r.error == Some(Plain(ServerError))
    ensures a.Responded? && a.readError.None? && a.status !in {200, 201, 500} ==>
              r.error == Some(Api(decodeError(a.body)))
  {
    match a
    case NoResponse(e) => Reply(None, Some(Foreign(e)))
    case Responded(status, body, readError) =>
      if readError.Some? then Reply(Some(body), Some(Foreign(readError.value)))
      else if status == 200 || status == 201 then Reply(Some(body), None)
      else if status == 500 then Reply(Some(body), Some(Plain(ServerError)))
      else Reply(Some(body), Some(Api(decodeError(body))))
  }

  /** `post`: a form-encoded request to the built URL. */
  function Post(c: Client, values: Values, uri: string, exchange: Request -> Answer,
                decodeError: string -> TwilioError): (r: Reply)
    ensures r == Classify(exchange(Request("POST", BuildUri(c, [uri]), c.accountSid, c.authToken,
                                          values, Some(FormContentType))), decodeError)
  {
    Classify(exchange(Request("POST", BuildUri(c, [uri]), c.accountSid, c.authToken, values, Some(FormContentType))),
             decodeError)
  }

  /** `get`: the parameters travel in the request body, with no content type; nil parameters are empty. */
  function Get(c: Client, query: Option<Values>, uri: string, exchange: Request -> Answer,
               decodeError: string -> TwilioError): (r: Reply)
    ensures r == Classify(exchange(Request("GET", BuildUri(c, [uri]), c.accountSid, c.authToken,
                                          query.GetOr(Empty), None)), decodeError)
  {
    Classify(exchange(Request("GET", BuildUri(c, [uri]), c.accountSid, c.authToken, query.GetOr(Empty), None)),
             decodeError)
  }

  const Non204Prefix: string := "Non-204 returned from server for DELETE: "

  /** `delete`: only 204 succeeds; the body is never read. */
  function Delete(c: Client, uri: string, exchange: Request -> Answer): (r: Option<Failure>)
    ensures r.None? <==> exchange(Request("DELETE", BuildUri(c, [uri]), c.accountSid, c.authToken, Empty, None)).Responded?
                         && exchange(Request("DELETE", BuildUri(c, [uri]), c.accountSid, c.authToken, Empty, None)).status == 204
    ensures var a := exchange(Request("DELETE", BuildUri(c, [uri]), c.accountSid, c.authToken, Empty, None));
            a.Responded? && a.status != 204 ==> r == Some(Foreign(Non204Prefix + Decimal.FormatInt(a.status)))
  {
    match exchange(Request("DELETE", BuildUri(c, [uri]), c.accountSid, c.authToken, Empty, None))
    case NoResponse(e) => Some(Foreign(e))
    case Responded(status, _, _) =>
      if status == 204 then None else Some(Foreign(Non204Prefix + Decimal.FormatInt(status)))
  }

  /** Different failing statuses give different `delete` errors. */
  lemma DeleteNamesStatus(a: int, b: int)
    requires a != b
    ensures Non204Prefix + Decimal.FormatInt(a) != Non204Prefix + Decimal.FormatInt(b)
  {
    if Non204Prefix + Decimal.FormatInt(a) == Non204Prefix + Decimal.FormatInt(b) {
      assert (Non204Prefix + Decimal.FormatInt(a))[|Non204Prefix|..] == Decimal.FormatInt(a);
      assert (Non204Prefix + Decimal.FormatInt(b))[|Non204Prefix|..] == Decimal.FormatInt(b);
      Decimal.FormatIntInjective(a, b);
    }
  }

  // ---------------------------------------------------------------------
  // Optional parameters
  // ---------------------------------------------------------------------

  /** The optional-parameter types of the library. */
  datatype Kind =
    | Callback | ApplicationSid | Method | FallbackUrl | FallbackMethod
    | StatusCallback | StatusCallbackMethod | SendDigits | IfMachine | Timeout
    | Record | To | From | Status | StartTime | ParentCallSid | DateSent
    | Body | MediaUrl | FriendlyName | PhoneNumber | AreaCode | MessagingServiceSid

  /** A value of one of those types: a string tagged with its type. */
  datatype Optional = Optional(kind: Kind, value: string)

  /** The parameter name a type writes to: its own name, except `Callback`, which writes `Url`. */
  function ParamName(k: Kind): (r: string)
    ensures k == Callback <==> r == "Url"
    ensures k == Body <==> r == "Body"
    ensures k == MediaUrl <==> r == "MediaUrl"
    ensures k == StatusCallback <==> r == "StatusCallback"
    ensures k == ApplicationSid <==> r == "ApplicationSid"
    ensures k == MessagingServiceSid <==> r == "MessagingServiceSid"
    ensures k == PhoneNumber <==> r == "PhoneNumber"
  {
    match k
    case Callback => "Url"
    case ApplicationSid => "ApplicationSid"
    case Method => "Method"
    case FallbackUrl => "FallbackUrl"
    case FallbackMethod => "FallbackMethod"
    case StatusCallback => "StatusCallback"
    case StatusCallbackMethod => "StatusCallbackMethod"
    case SendDigits => "SendDigits"
    case IfMachine => "IfMachine"
    case Timeout => "Timeout"
    case Record => "Record"
    case To => "To"
    case From => "From"
    case Status => "Status"
    case StartTime => "StartTime"
    case ParentCallSid => "ParentCallSid"
    case DateSent => "DateSent"
    case Body => "Body"
    case MediaUrl => "MediaUrl"
    case FriendlyName => "FriendlyName"
    case PhoneNumber => "PhoneNumber"
    case AreaCode => "AreaCode"
    case MessagingServiceSid => "MessagingServiceSid"
  }

  /** `GetParam`: the type's parameter name and the value, unchanged. */
  function GetParam(o: Optional): (r: (string, string))
    ensures r.1 == o.value
    ensures r.0 == ParamName(o.kind)
  {
    (ParamName(o.kind), o.value)
  }

  // ---------------------------------------------------------------------
  // NewMessage
  // ---------------------------------------------------------------------

  const MessagesPath: string := "/Messages.json"
  const OnlyAllowedParams: string := "Only allowed params are Body, MediaUrl, StatusCallback, ApplicationSid, MessagingServiceSid"
  const NeedsContent: string := "Must have at least a Body or MediaUrl"

  /** The parameter names `NewMessage` accepts from its optionals. */
  predicate AllowedForMessage(name: string)
  {
    name == "Body" || name == "MediaUrl" || name == "StatusCallback" || name == "ApplicationSid" || name == "MessagingServiceSid"
  }

  /** Exactly five optional types are accepted by `NewMessage`. */
  lemma AllowedKinds(k: Kind)
    ensures AllowedForMessage(ParamName(k)) <==> k in {Body, MediaUrl, StatusCallback, ApplicationSid, MessagingServiceSid}
  {
  }

  /**
   The loop over the optionals: each is `Set` in turn; the first one whose
   name is not accepted stops the loop with an error.
   */
  function ApplyOptionals(params: Values, content: seq<Optional>): (r: Result<Values>)
    ensures r.Ok? <==> forall i :: 0 <= i < |content| ==> AllowedForMessage(ParamName(content[i].kind))
    ensures r.Err? ==> r.error == OnlyAllowedParams
    decreases |content|
  {
    if |content| == 0 then Ok(params)
    else
      var (name, value) := GetParam(content[0]);
      if !AllowedForMessage(name) then Err(OnlyAllowedParams)
      else
        var r := ApplyOptionals(Set(params, name, value), content[1..]);
        assert forall i :: 1 <= i < |content| ==> content[i] == content[1..][i - 1];
        r
  }

  /** The value the last optional named `name` carries, or `fallback` when none is. */
  function LastValue(content: seq<Optional>, name: string, fallback: string): (r: string)
  {
    if |content| == 0 then fallback
    else if ParamName(content[|content| - 1].kind) == name then content[|content| - 1].value
    else LastValue(content[..|content| - 1], name, fallback)
  }

  /** `ApplyOptionals` on the first optional, then on the rest, in that order. */
  lemma {:induction false} ApplyOptionalsSnoc(params: Values, content: seq<Optional>, o: Optional)
    requires ApplyOptionals(params, content).Ok?
    ensures ApplyOptionals(params, content + [o]) ==
            if AllowedForMessage(ParamName(o.kind))
            then Ok(Set(ApplyOptionals(params, content).value, ParamName(o.kind), o.value))
            else Err(OnlyAllowedParams)
    decreases |content|
  {
    if |content| == 0 {
      assert content + [o] == [o];
    } else {
      assert (content + [o])[0] == content[0];
      assert (content + [o])[1..] == content[1..] + [o];
      ApplyOptionalsSnoc(Set(params, ParamName(content[0].kind), content[0].value), content[1..], o);
    }
  }

  /**
   A later optional with the same name overwrites an earlier one: after the
   loop each name reads as the last value written to it, or as before the
   loop when no optional names it.
   */
  lemma {:induction false} ApplyOptionalsLastWins(params: Values, content: seq<Optional>, name: string)
    requires SingleValued(params)
    requires ApplyOptionals(params, content).Ok?
    ensures SingleValued(ApplyOptionals(params, content).value)
    ensures UrlValues.Get(ApplyOptionals(params, content).value, name) == LastValue(content, name, UrlValues.Get(params, name))
    decreases |content|
  {
    if |content| > 0 {
      var init := content[..|content| - 1];
      var o := content[|content| - 1];
      InitOk(params, content);
      ApplyOptionalsLastWins(params, init, name);
      var before := ApplyOptionals(params, init).value;
      SplitLast(content);
      AppliedLast(params, init, o);
      SetKeepsSingleValued(before, ParamName(o.kind), o.value);
      GetAfterSet(before, ParamName(o.kind), o.value, name);
    }
  }

  /** A loop that gets through all the optionals gets through all but the last. */
  lemma InitOk(params: Values, content: seq<Optional>)
    requires |content| > 0 && ApplyOptionals(params, content).Ok?
    ensures ApplyOptionals(params, content[..|content| - 1]).Ok?
  {
    var init := content[..|content| - 1];
    assert forall i :: 0 <= i < |init| ==> init[i] == content[i];
  }

  /** The last optional is applied last, on top of what the others built. */
  lemma AppliedLast(params: Values, init: seq<Optional>, o: Optional)
    requires ApplyOptionals(params, init + [o]).Ok?
    requires ApplyOptionals(params, init).Ok?
    ensures ApplyOptionals(params, init + [o]).value == Set(ApplyOptionals(params, init).value, ParamName(o.kind), o.value)
  {
    ApplyOptionalsSnoc(params, init, o);
  }

  /** A non-empty sequence is its front followed by its last element. */
  lemma SplitLast<T>(s: seq<T>)
    requires |s| > 0
    ensures s[..|s| - 1] + [s[|s| - 1]] == s
  {
  }

  /** A `Set` changes what `Get` reads for its own key only. */
  lemma GetAfterSet(v: Values, k: string, value: string, name: string)
    ensures UrlValues.Get(Set(v, k, value), name) == if k == name then value else UrlValues.Get(v, name)
  {
    if k == name {
      GetSet(v, k, value);
    }
  }

  /** The message resource Twilio returns. */
  datatype Message = Message(
    sid: string, dateCreated: string, dateUpdated: string, dateSent: string,
    accountSid: string, from: string, to: string, body: string,
    numSegments: string, status: string, direction: string, price: string,
    priceUnit: string, apiVersion: string, uri: string)

  /** A `(*Message, error)` result: the message is nil when no reply was decoded. */
  datatype Sent = Sent(message: Option<Message>, error: Option<Failure>)

  /** The parameters before the optionals: sender and recipient. */
  function BaseParams(from: string, to: string): (r: Values)
    ensures SingleValued(r)
    ensures UrlValues.Get(r, "From") == from && UrlValues.Get(r, "To") == to
    ensures r.Keys == {"From", "To"}
  {
    Set(Set(Empty, "From", from), "To", to)
  }

  /**
   `NewMessage`: validate and apply the optionals, insist on a body or a media
   URL, post the form to the account's message endpoint and decode the reply.
   `decodeMessage` stands for `json.Unmarshal`, which can fail after filling
   part of the message.
   */
  function NewMessage(c: Client, from: string, to: string, content: seq<Optional>,
                      exchange: Request -> Answer, decodeError: string -> TwilioError,
                      decodeMessage: string -> (Message, Option<string>)): (r: Sent)
    ensures ApplyOptionals(BaseParams(from, to), content).Err? ==> r == Sent(None, Some(Plain(OnlyAllowedParams)))
    ensures ApplyOptionals(BaseParams(from, to), content).Ok? &&
            !HasContent(ApplyOptionals(BaseParams(from, to), content).value) ==>
              r == Sent(None, Some(Plain(NeedsContent)))
  {
    var applied := ApplyOptionals(BaseParams(from, to), content);
    if applied.Err? then Sent(None, Some(Plain(applied.error)))
    else
      if !HasContent(applied.value) then Sent(None, Some(Plain(NeedsContent)))
      else Decode(Post(c, applied.value, MessagesPath, exchange, decodeError), decodeMessage)
  }

  /**
   The end of `NewMessage`: a failed post gives no message; otherwise the
   reply is decoded, and a decoding error is returned with the partly filled
   message.
   */
  function Decode(reply: Reply, decodeMessage: string -> (Message, Option<string>)): (r: Sent)
    ensures reply.error.Some? ==> r == Sent(None, reply.error)
    ensures reply.error.None? ==> r.message == Some(decodeMessage(reply.body.GetOr("")).0)
    ensures reply.error.None? ==> (r.error.None? <==> decodeMessage(reply.body.GetOr("")).1.None?)
  {
    if reply.error.Some? then Sent(None, reply.error)
    else
      var decoded := decodeMessage(reply.body.GetOr(""));
      Sent(Some(decoded.0), if decoded.1.Some? then Some(Foreign(decoded.1.value)) else None)
  }

  /** A body or a media URL is present. */
  predicate HasContent(p: Values)
  {
    UrlValues.Get(p, "Body") != "" || UrlValues.Get(p, "MediaUrl") != ""
  }

  /** The form `NewMessage` posts, when it posts one. */
  function MessageForm(from: string, to: string, content: seq<Optional>): (r: Option<Values>)
    ensures r.Some? <==> ApplyOptionals(BaseParams(from, to), content).Ok? &&
                         HasContent(ApplyOptionals(BaseParams(from, to), content).value)
    ensures r.Some? ==> r.value == ApplyOptionals(BaseParams(from, to), content).value
  {
    var applied := ApplyOptionals(BaseParams(from, to), content);
    if applied.Ok? && HasContent(applied.value) then Some(applied.value) else None
  }

  /**
   What reaches Twilio: the sender and recipient as given (no accepted optional
   can overwrite them), and each accepted name holding its last value.
   */
  lemma {:induction false} MessageFormContents(from: string, to: string, content: seq<Optional>, name: string)
    requires MessageForm(from, to, content).Some?
    ensures UrlValues.Get(MessageForm(from, to, content).value, "From") == from
    ensures UrlValues.Get(MessageForm(from, to, content).value, "To") == to
    ensures UrlValues.Get(MessageForm(from, to, content).value, name) ==
            LastValue(content, name, UrlValues.Get(BaseParams(from, to), name))
  {
    var base := BaseParams(from, to);
    ApplyOptionalsLastWins(base, content, name);
    ApplyOptionalsLastWins(base, content, "From");
    ApplyOptionalsLastWins(base, content, "To");
    NoOptionalNames(content, "From", UrlValues.Get(base, "From"));
    NoOptionalNames(content, "To", UrlValues.Get(base, "To"));
  }

  /** A name that no accepted optional writes keeps its fallback. */
  lemma {:induction false} NoOptionalNames(content: seq<Optional>, name: string, fallback: string)
    requires forall i :: 0 <= i < |content| ==> AllowedForMessage(ParamName(content[i].kind))
    requires !AllowedForMessage(name)
    ensures LastValue(content, name, fallback) == fallback
    decreases |content|
  {
    if |content| > 0 {
      var init := content[..|content| - 1];
      assert forall i :: 0 <= i < |init| ==> init[i] == content[i];
      NoOptionalNames(init, name, fallback);
    }
  }

  /** `NewMessage` posts exactly the form `MessageForm` describes, to the message endpoint. */
  lemma NewMessagePosts(c: Client, from: string, to: string, content: seq<Optional>,
                        exchange: Request -> Answer, decodeError: string -> TwilioError,
                        decodeMessage: string -> (Message, Option<string>))
    ensures MessageForm(from, to, content).None? ==>
              NewMessage(c, from, to, content, exchange, decodeError, decodeMessage).message.None? &&
              NewMessage(c, from, to, content, exchange, decodeError, decodeMessage).error.Some?
    ensures MessageForm(from, to, content).Some? &&
            Post(c, MessageForm(from, to, content).value, MessagesPath, exchange, decodeError).error.Some? ==>
              NewMessage(c, from, to, content, exchange, decodeError, decodeMessage) ==
              Sent(None, Post(c, MessageForm(from, to, content).value, MessagesPath, exchange, decodeError).error)
    ensures MessageForm(from, to, content).Some? &&
            Post(c, MessageForm(from, to, content).value, MessagesPath, exchange, decodeError).error.None? ==>
              var body := Post(c, MessageForm(from, to, content).value, MessagesPath, exchange, decodeError).body;
              body.Some? &&
              NewMessage(c, from, to, content, exchange, decodeError, decodeMessage).message ==
              Some(decodeMessage(body.value).0)
  {
  }

  /**
   The Twilio provider's call, a single `Body` optional: an empty text never
   reaches Twilio, and any other text is posted as the body.
   */
  lemma ProviderMessage(from: string, to: string, text: string)
    ensures text == "" <==> MessageForm(from, to, [Optional(Body, text)]).None?
    ensures text != "" ==> UrlValues.Get(MessageForm(from, to, [Optional(Body, text)]).value, "Body") == text
  {
    var base := BaseParams(from, to);
    assert [Optional(Body, text)][1..] == [];
    assert ApplyOptionals(base, [Optional(Body, text)]) == Ok(Set(base, "Body", text));
    assert "MediaUrl" !in Set(base, "Body", text);
  }

  // ---------------------------------------------------------------------
  // Error texts
  // ---------------------------------------------------------------------

  const TwilioErrorPrefix: string := "Twilio Error, "

  /** `Error.Error`, `TwilioError.Error` and the text of a foreign error. */
  function FailureText(f: Failure): (r: string)
    ensures f.Plain? ==> r == f.description
    ensures f.Api? ==> TwilioErrorPrefix <= r
  {
    match f
    case Plain(d) => d
    case Api(e) => TwilioErrorText(e)
    case Foreign(t) => t
  }

  /**
   `TwilioError.Error`: the prefix, then "Status: N" when the status is set,
   ", Code: N" when the code is set and ", Message: M" when the message is.
   */
  function TwilioErrorText(e: TwilioError): (r: string)
    ensures TwilioErrorPrefix <= r
    ensures r[|TwilioErrorPrefix|..] == StatusPart(e) + CodePart(e) + MessagePart(e)
  {
    TwilioErrorPrefix + (StatusPart(e) + CodePart(e) + MessagePart(e))
  }

  /** "Status: N", present exactly when the status is set. */
  function StatusPart(e: TwilioError): (r: string)
    ensures r == "" <==> e.status == 0
    ensures r != "" ==> r[0] == 'S'
  {
    if e.status != 0 then "Status: " + Decimal.FormatInt(e.status) else ""
  }

  /** ", Code: N", present exactly when the code is set. */
  function CodePart(e: TwilioError): (r: string)
    ensures r == "" <==> e.code == 0
    ensures r != "" ==> r[0] == ','
  {
    if e.code != 0 then ", Code: " + Decimal.FormatInt(e.code) else ""
  }

  /** ", Message: M", present exactly when the message is set. */
  function MessagePart(e: TwilioError): (r: string)
    ensures r == "" <==> e.message == ""
    ensures r != "" ==> r[0] == ','
  {
    if e.message != "" then ", Message: " + e.message else ""
  }

  /** The status comes first, right after the prefix, exactly when it is set. */
  lemma TwilioErrorStatusFirst(e: TwilioError)
    ensures e.status != 0 ==> TwilioErrorPrefix + "Status: " + Decimal.FormatInt(e.status) <= TwilioErrorText(e)
    ensures |TwilioErrorText(e)| > |TwilioErrorPrefix| ==> (TwilioErrorText(e)[|TwilioErrorPrefix|] == 'S' <==> e.status != 0)
  {
    var p, s := TwilioErrorPrefix, StatusPart(e);
    var rest := CodePart(e) + MessagePart(e);
    if e.status != 0 {
      PrefixOfConcat(p, s, rest);
      assert p + "Status: " + Decimal.FormatInt(e.status) == p + s;
    }
    var r := TwilioErrorText(e);
    if |r| > |p| {
      assert r[|p|] == r[|p|..][0];
      FirstCharOfParts(e);
    }
  }

  /** `a + b` is a prefix of `a + (b + c)`. */
  lemma PrefixOfConcat(a: string, b: string, c: string)
    ensures a + b <= a + (b + c)
  {
    assert (a + (b + c))[..|a + b|] == a + b;
  }

  /** The text after the prefix starts with 'S' exactly when the status part is there. */
  lemma FirstCharOfParts(e: TwilioError)
    requires StatusPart(e) + CodePart(e) + MessagePart(e) != ""
    ensures (StatusPart(e) + CodePart(e) + MessagePart(e))[0] == 'S' <==> e.status != 0
  {
    var t := StatusPart(e) + CodePart(e) + MessagePart(e);
    if e.status != 0 {
      assert t[0] == StatusPart(e)[0];
    } else if e.code != 0 {
      assert t[0] == CodePart(e)[0];
    } else {
      assert t[0] == MessagePart(e)[0];
    }
  }

  /** Without a status the code follows the prefix after a stray comma. */
  lemma TwilioErrorCodeWithoutStatus(e: TwilioError)
    requires e.status == 0 && e.code != 0
    ensures TwilioErrorPrefix + ", Code: " + Decimal.FormatInt(e.code) <= TwilioErrorText(e)
  {
    assert TwilioErrorText(e) == (TwilioErrorPrefix + CodePart(e)) + MessagePart(e);
  }

  /** The message, when set, always comes last. */
  lemma TwilioErrorMessageLast(e: TwilioError)
    requires e.message != ""
    ensures var r := TwilioErrorText(e);
            var tail := ", Message: " + e.message;
            |tail| <= |r| && r[|r| - |tail|..] == tail
  {
    var r := TwilioErrorText(e);
    var head := TwilioErrorPrefix + StatusPart(e) + CodePart(e);
    assert r == head + MessagePart(e);
  }

  /** Only the zero error document renders as the bare prefix. */
  lemma TwilioErrorBare(e: TwilioError)
    ensures TwilioErrorText(e) == TwilioErrorPrefix <==> e.status == 0 && e.code == 0 && e.message == ""
  {
    var r := TwilioErrorText(e);
    assert |r| == |TwilioErrorPrefix| + |StatusPart(e)| + |CodePart(e)| + |MessagePart(e)|;
  }
}
