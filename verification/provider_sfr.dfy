/**
 The SFR provider (`provider/sfr/sfr.go`): one web-service call per
 recipient, each carrying the account credentials and a unit message with
 the one-line text; failures are counted rather than returned, and the
 count is reported once at the end. The HTTP side and the reading of each
 response are parameters.
 */
module SfrProvider {
  import opened Wrappers
  import opened Sachet
  import Decimal

  const DefaultUrl: string := "https://www.dmc.sfr-sh.fr/DmcWS/1.5.7/JsonService/MessagesUnitairesWS/addSingleCall"

  /** The media every unit message is sent as. */
  const Media: string := "SMSLong"

  datatype Config = Config(url: string, spaceId: string, serviceId: string, servicePassword: string,
                           lang: string, tpoa: string)

  /** `NewSfr`: the default endpoint stands in for an empty URL only. */
  function New(c: Config): (r: Config)
    ensures c.url == "" ==> r.url == DefaultUrl
    ensures c.url != "" ==> r.url == c.url
    ensures r.url != "" && r.(url := c.url) == c
  {
    if c.url == "" then c.(url := DefaultUrl) else c
  }

  /** The `authenticate` query parameter, before JSON encoding. */
  datatype Authenticate = Authenticate(serviceId: string, servicePassword: string, spaceId: string, lang: string)

  /** The `messageUnitaire` query parameter, before JSON encoding. */
  datatype MessageUnitaire = MessageUnitaire(media: string, textMsg: string, to: string, from: string)

  /** One GET to the endpoint with its two query parameters. */
  datatype Call = Call(url: string, authenticate: Authenticate, message: MessageUnitaire)

  /** The call for one recipient. */
  function CallFor(c: Config, text: string, dest: string): (r: Call)
    ensures r.url == c.url && r.message.to == dest && r.message.from == c.tpoa
    ensures r.message.media == Media && r.message.textMsg == OneLine(text)
    ensures r.authenticate.serviceId == c.serviceId && r.authenticate.servicePassword == c.servicePassword
    ensures r.authenticate.spaceId == c.spaceId && r.authenticate.lang == c.lang
  {
    Call(c.url, Authenticate(c.serviceId, c.servicePassword, c.spaceId, c.lang),
         MessageUnitaire(Media, OneLine(text), dest, c.tpoa))
  }

  /**
   What one call came back with: no response at all (a transport error); an
   error together with a response whose body is already closed (the client's
   redirect policy refused to go on, after ten redirects by default); or
   a body. `decodeErrors` counts the values of the body that are well-formed
   JSON but did not fit the response type, and `success` is the flag of the
   last value decoded (false when none was). A `Malformed` body then stalls
   the decoder: a syntax error or a truncated value, whose offending
   character is not a closing bracket.
   */
  datatype Reply = NoResponse(error: string)
                 | ClosedResponse(error: string)
                 | Malformed(decodeErrors: nat, success: bool)
                 | Replied(decodeErrors: nat, success: bool)

  /** A call that counts as delivered. */
  predicate Delivered(reply: Reply)
  {
    reply.Replied? && reply.decodeErrors == 0 && reply.success
  }

  /**
   How much one reply adds to the error counter: one for a transport error;
   two for an error with a closed response (the error, then the missing
   `success`, since `More` sees no value on a closed body); otherwise one
   per value that failed to decode (a stalled decode counting
   once, after which the loop is left), and one more unless the last value
   decoded said `success`.
   */
  function Failures(reply: Reply): (n: nat)
    ensures n == 0 <==> Delivered(reply)
    ensures reply.NoResponse? ==> n == 1
    ensures reply.ClosedResponse? ==> n == 2
    ensures reply.Malformed? ==> n >= 1
  {
    match reply
    case NoResponse(_) => 1
    case ClosedResponse(_) => 2
    case Malformed(d, ok) => d + 1 + (if ok then 0 else 1)
    case Replied(d, ok) => d + (if ok then 0 else 1)
  }

  /** The error counter after the calls to `dests`, answered by `api`. */
  function Count(c: Config, text: string, dests: seq<string>, api: Call -> Reply): (n: nat)
    ensures n == 0 <==> forall i :: 0 <= i < |dests| ==> Delivered(api(CallFor(c, text, dests[i])))
    ensures n >= |dests| - CountDelivered(c, text, dests, api)
  {
    if |dests| == 0 then 0
    else
      var n := Failures(api(CallFor(c, text, dests[0]))) + Count(c, text, dests[1..], api);
      assert forall i :: 1 <= i < |dests| ==> dests[i] == dests[1..][i - 1];
      n
  }

  /** How many of the calls to `dests` were delivered. */
  function CountDelivered(c: Config, text: string, dests: seq<string>, api: Call -> Reply): (k: nat)
    ensures k <= |dests|
  {
    if |dests| == 0 then 0
    else (if Delivered(api(CallFor(c, text, dests[0]))) then 1 else 0) + CountDelivered(c, text, dests[1..], api)
  }

  /** The error `Send` ends with when `n` calls went wrong. */
  function CountError(n: nat): string
  {
    "Error with " + Decimal.FormatInt(n) + " calls"
  }

  /**
   `Sfr.Send` as it is meant to behave: building the GET request can only
   fail for a malformed URL, and then fails at the first recipient; otherwise
   every recipient gets its call, whatever happened to the previous ones,
   and the result reports how many failures were counted, if any.
   */
  function Send(c: Config, m: Message, newRequest: string -> Status, api: Call -> Reply): (r: Status)
    ensures |m.to| > 0 && newRequest(c.url).Some? ==> r == newRequest(c.url)
    ensures (|m.to| == 0 || newRequest(c.url).None?) ==>
              var n := Count(c, m.text, m.to, api);
              (n > 0 ==> r == Some(CountError(n))) && (n == 0 ==> r.None?)
  {
    if |m.to| > 0 && newRequest(c.url).Some? then newRequest(c.url)
    else
      var n := Count(c, m.text, m.to, api);
      if n > 0 then Some(CountError(n)) else None
  }

  /**
   Success is reported exactly when every recipient's call was delivered;
   a failure anywhere, even of the first call, does not stop the others.
   */
  lemma SendSucceedsIff(c: Config, m: Message, newRequest: string -> Status, api: Call -> Reply)
    requires newRequest(c.url).None?
    ensures Send(c, m, newRequest, api).None? <==>
              forall i :: 0 <= i < |m.to| ==> Delivered(api(CallFor(c, m.text, m.to[i])))
  {
  }

  /** The reported count is at least the number of recipients whose call was not delivered. */
  lemma ReportedCountBoundsFailures(c: Config, m: Message, newRequest: string -> Status, api: Call -> Reply)
    requires newRequest(c.url).None?
    requires CountDelivered(c, m.text, m.to, api) < |m.to|
    ensures Send(c, m, newRequest, api) == Some(CountError(Count(c, m.text, m.to, api)))
    ensures Count(c, m.text, m.to, api) >= |m.to| - CountDelivered(c, m.text, m.to, api)
  {
  }

  /**
   How the loop as written ends: with a result, with a nil-pointer panic,
   or not at all.
   */
  datatype Outcome = Returned(status: Status) | Panicked | Hangs

  /**
   A reply the loop as written never gets past: a nil response, whose body
   it reads anyway, or a body on which `dec.More()` keeps answering true
   while `dec.Decode` keeps returning the same sticky error.
   */
  predicate Stuck(reply: Reply)
  {
    reply.NoResponse? || reply.Malformed?
  }

  /** The first recipient whose reply the loop as written gets stuck on, if any. */
  function FirstStuck(c: Config, text: string, dests: seq<string>, api: Call -> Reply): (r: Option<nat>)
    ensures r.None? <==> forall i :: 0 <= i < |dests| ==> !Stuck(api(CallFor(c, text, dests[i])))
    ensures r.Some? ==> r.value < |dests| && Stuck(api(CallFor(c, text, dests[r.value])))
    ensures r.Some? ==> forall j :: 0 <= j < r.value ==> !Stuck(api(CallFor(c, text, dests[j])))
  {
    if |dests| == 0 then None
    else if Stuck(api(CallFor(c, text, dests[0]))) then Some(0)
    else
      match FirstStuck(c, text, dests[1..], api)
      case None =>
        assert forall i :: 1 <= i < |dests| ==> dests[i] == dests[1..][i - 1];
        None
      case Some(i) =>
        assert forall j :: 1 <= j <= i ==> dests[j] == dests[1..][j - 1];
        Some(i + 1)
  }

  /**
   The loop as written. After a transport error the response is nil, yet
   its body is closed and read anyway, which dereferences nil. On a body
   that is not valid JSON the decoder's error is sticky and `More` stays
   true, so the decode loop never ends. Recipients are served in order, so
   the first such recipient decides: a panic or a hang, and nothing is
   reported. Only when no call gets stuck does the send report as intended.
   */
  function SendAsWritten(c: Config, m: Message, newRequest: string -> Status, api: Call -> Reply): (r: Outcome)
    ensures |m.to| > 0 && newRequest(c.url).Some? ==> r == Returned(newRequest(c.url))
  {
    if |m.to| > 0 && newRequest(c.url).Some? then Returned(newRequest(c.url))
    else
      match FirstStuck(c, m.text, m.to, api)
      case None => Returned(Send(c, m, newRequest, api))
      case Some(i) => if api(CallFor(c, m.text, m.to[i])).NoResponse? then Panicked else Hangs
  }

  /**
   The code as written agrees with the intended behaviour exactly when no
   call goes without a response or with an undecodable body; otherwise it
   panics if the first such call got no response, and hangs if it got a
   malformed body.
   */
  lemma AsWrittenPanicsOnNoResponse(c: Config, m: Message, newRequest: string -> Status, api: Call -> Reply)
    requires newRequest(c.url).None?
    ensures SendAsWritten(c, m, newRequest, api).Returned? <==>
              forall i :: 0 <= i < |m.to| ==> !Stuck(api(CallFor(c, m.text, m.to[i])))
    ensures SendAsWritten(c, m, newRequest, api).Panicked? <==>
              exists i :: 0 <= i < |m.to| && api(CallFor(c, m.text, m.to[i])).NoResponse?
                          && forall j :: 0 <= j < i ==> !Stuck(api(CallFor(c, m.text, m.to[j])))
    ensures SendAsWritten(c, m, newRequest, api).Hangs? <==>
              exists i :: 0 <= i < |m.to| && api(CallFor(c, m.text, m.to[i])).Malformed?
                          && forall j :: 0 <= j < i ==> !Stuck(api(CallFor(c, m.text, m.to[j])))
    ensures SendAsWritten(c, m, newRequest, api).Returned? ==>
              SendAsWritten(c, m, newRequest, api).status == Send(c, m, newRequest, api)
  {
    var first := FirstStuck(c, m.text, m.to, api);
    if first.Some? {
      var k := first.value;
      forall i | 0 <= i < |m.to| && Stuck(api(CallFor(c, m.text, m.to[i])))
                 && (forall j :: 0 <= j < i ==> !Stuck(api(CallFor(c, m.text, m.to[j]))))
        ensures i == k
      {
      }
    }
  }

  /**
   The discrepancy on one input: a single recipient whose call fails in
   transport. As written the send panics; as intended it reports one failed
   call.
   */
  lemma OneUnreachableRecipient(c: Config, text: string, newRequest: string -> Status, api: Call -> Reply)
    requires newRequest(c.url).None?
    requires api(CallFor(c, text, "33600000000")) == NoResponse("timeout")
    ensures SendAsWritten(c, Message(["33600000000"], "", text, ""), newRequest, api) == Panicked
    ensures Send(c, Message(["33600000000"], "", text, ""), newRequest, api) == Some(CountError(1))
  {
    var m := Message(["33600000000"], "", text, "");
    assert api(CallFor(c, m.text, m.to[0])).NoResponse?;
    assert Count(c, text, m.to[1..], api) == 0;
  }

  /**
   The second discrepancy: a single recipient whose response body is not
   JSON. As written the decode loop never ends; as intended the failed
   decode is counted, and so is the missing `success`.
   */
  lemma MalformedBodyHangs(c: Config, text: string, newRequest: string -> Status, api: Call -> Reply)
    requires newRequest(c.url).None?
    requires api(CallFor(c, text, "33600000000")) == Malformed(0, false)
    ensures SendAsWritten(c, Message(["33600000000"], "", text, ""), newRequest, api) == Hangs
    ensures Send(c, Message(["33600000000"], "", text, ""), newRequest, api) == Some(CountError(2))
  {
    var m := Message(["33600000000"], "", text, "");
    assert api(CallFor(c, m.text, m.to[0])).Malformed?;
    assert Count(c, text, m.to[1..], api) == 0;
  }

  /**
   An error that comes with a response is not a stuck call: a single
   recipient whose client stopped following redirects is counted twice,
   once for the error and once for the missing `success`, and the code as
   written reports it just as the corrected code does.
   */
  lemma RedirectFailureCountedTwice(c: Config, text: string, newRequest: string -> Status, api: Call -> Reply)
    requires newRequest(c.url).None?
    requires api(CallFor(c, text, "33600000000")) == ClosedResponse("stopped after 10 redirects")
    ensures SendAsWritten(c, Message(["33600000000"], "", text, ""), newRequest, api) == Returned(Some(CountError(2)))
    ensures Send(c, Message(["33600000000"], "", text, ""), newRequest, api) == Some(CountError(2))
  {
    var m := Message(["33600000000"], "", text, "");
    assert !Stuck(api(CallFor(c, m.text, m.to[0])));
    assert Count(c, text, m.to[1..], api) == 0;
  }
}
