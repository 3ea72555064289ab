/**
 The `/alert` and `/-/reload` handlers of `cmd/sachet`: which receiver a
 payload goes to, which provider serves it, what the HTTP response and the
 request counter say for each outcome, and the listen address.
 */
module Dispatch {
  import opened Wrappers
  import opened Sachet
  import opened AlertText
  import opened GoMaps
  import Decimal
  import JsonText

  /** One `receivers` entry of the configuration; `kind` is the YAML `type`. */
  datatype ReceiverConf = ReceiverConf(name: string, provider: string, to: seq<string>,
                                       from: string, text: string, kind: string)

  /** Position of the first receiver named `name`. */
  function ReceiverIndex(receivers: seq<ReceiverConf>, name: string): (r: Option<nat>)
    ensures r.None? <==> forall i :: 0 <= i < |receivers| ==> receivers[i].name != name
    ensures r.Some? ==> r.value < |receivers| && receivers[r.value].name == name
    ensures r.Some? ==> forall j :: 0 <= j < r.value ==> receivers[j].name != name
  {
    if |receivers| == 0 then None
    else if receivers[0].name == name then Some(0)
    else
      match ReceiverIndex(receivers[1..], name)
      case None => None
      case Some(i) => Some(i + 1)
  }

  /** `receiverConfByReceiver`: the first entry in list order with that name, or nil. */
  function ReceiverConfByReceiver(receivers: seq<ReceiverConf>, name: string): (r: Option<ReceiverConf>)
    ensures r.None? <==> forall i :: 0 <= i < |receivers| ==> receivers[i].name != name
    ensures r.Some? ==> r.value.name == name
    ensures r.Some? ==> exists i :: 0 <= i < |receivers| && receivers[i] == r.value
                                    && forall j :: 0 <= j < i ==> receivers[j].name != name
  {
    match ReceiverIndex(receivers, name)
    case None => None
    case Some(i) => Some(receivers[i])
  }

  /** An earlier entry shadows every later entry of the same name. */
  lemma EarlierReceiverWins(first: ReceiverConf, rest: seq<ReceiverConf>)
    ensures ReceiverConfByReceiver([first] + rest, first.name) == Some(first)
  {
  }

  /** The providers `providerByName` can build. */
  datatype ProviderKind = MessageBird | Nexmo | Twilio | Infobip | Turbosms | Exotel | CM
                        | Telegram | OTC | MediaBurst | FreeMobile | AspSms | Sipgate | Pushbullet

  /** The configuration name of each provider. */
  function NameOf(k: ProviderKind): string
  {
    match k
    case MessageBird => "messagebird"
    case Nexmo => "nexmo"
    case Twilio => "twilio"
    case Infobip => "infobip"
    case Turbosms => "turbosms"
    case Exotel => "exotel"
    case CM => "cm"
    case Telegram => "telegram"
    case OTC => "otc"
    case MediaBurst => "mediaburst"
    case FreeMobile => "freemobile"
    case AspSms => "aspsms"
    case Sipgate => "sipgate"
    case Pushbullet => "pushbullet"
  }

  /** No two providers share a name. */
  lemma NamesDistinct()
    ensures forall k :: KindOfName(NameOf(k)) == Some(k)
  {
    forall k
      ensures KindOfName(NameOf(k)) == Some(k)
    {
      match k
      case MessageBird =>
      case Nexmo =>
      case Twilio =>
      case Infobip =>
      case Turbosms =>
      case Exotel =>
      case CM =>
      case Telegram =>
      case OTC =>
      case MediaBurst =>
      case FreeMobile =>
      case AspSms =>
      case Sipgate =>
      case Pushbullet =>
    }
  }

  /** The two factories that can fail (their constructors return an error). */
  predicate FallibleFactory(k: ProviderKind)
  {
    k == Nexmo || k == Telegram
  }

  function KindOfName(name: string): Option<ProviderKind>
  {
    if name == "messagebird" then Some(MessageBird)
    else if name == "nexmo" then Some(Nexmo)
    else if name == "twilio" then Some(Twilio)
    else if name == "infobip" then Some(Infobip)
    else if name == "turbosms" then Some(Turbosms)
    else if name == "exotel" then Some(Exotel)
    else if name == "cm" then Some(CM)
    else if name == "telegram" then Some(Telegram)
    else if name == "otc" then Some(OTC)
    else if name == "mediaburst" then Some(MediaBurst)
    else if name == "freemobile" then Some(FreeMobile)
    else if name == "aspsms" then Some(AspSms)
    else if name == "sipgate" then Some(Sipgate)
    else if name == "pushbullet" then Some(Pushbullet)
    else None
  }

  /**
   `providerByName`: exactly the fourteen configuration names resolve; the
   nexmo and telegram factories may fail with their own error
   (`factoryError`), and every other name is an unknown provider.
   */
  function ProviderByName(name: string, factoryError: ProviderKind -> Option<string>): (r: Result<ProviderKind>)
    ensures r.Ok? ==> NameOf(r.value) == name
    ensures (forall k :: NameOf(k) != name) ==> r == Err(name + ": Unknown provider")
    ensures forall k :: NameOf(k) == name && !FallibleFactory(k) ==> r == Ok(k)
    ensures forall k :: NameOf(k) == name && FallibleFactory(k) ==>
              if factoryError(k).Some? then r == Err(factoryError(k).value) else r == Ok(k)
  {
    NamesDistinct();
    match KindOfName(name)
    case None =>
      assert forall k :: NameOf(k) != name by {
        forall k ensures NameOf(k) != name {
          assert KindOfName(NameOf(k)) == Some(k);
        }
      }
      Err(name + ": Unknown provider")
    case Some(k) =>
      if FallibleFactory(k) && factoryError(k).Some? then Err(factoryError(k).value) else Ok(k)
  }

  /** Every provider resolves from its own name when its factory does not fail. */
  lemma ProviderByNameRoundTrip(k: ProviderKind, factoryError: ProviderKind -> Option<string>)
    requires !FallibleFactory(k) || factoryError(k).None?
    ensures ProviderByName(NameOf(k), factoryError) == Ok(k)
  {
  }

  const BodyHead: string := "{\"Error\":true,\"Status\":"
  const MessageKey: string := ",\"Message\":\""

  /** The JSON `errorHandler` writes: `{"Error":true,"Status":<status>,"Message":<text>}`. */
  function ErrorBody(status: int, message: string): string
  {
    BodyHead + (Decimal.FormatInt(status) + (MessageKey + (JsonText.Escape(message) + "\"}")))
  }

  predicate NumberChar(c: char)
  {
    c == '-' || Decimal.IsDigit(c)
  }

  /** Length of the longest prefix made of digits and minus signs. */
  function NumberSpan(s: string): (n: nat)
    ensures n <= |s|
  {
    if |s| > 0 && NumberChar(s[0]) then 1 + NumberSpan(s[1..]) else 0
  }

  lemma {:induction false} NumberSpanOf(a: string, b: string)
    requires forall i :: 0 <= i < |a| ==> NumberChar(a[i])
    requires |b| > 0 && !NumberChar(b[0])
    ensures NumberSpan(a + b) == |a|
  {
    if |a| == 0 {
      assert a + b == b;
    } else {
      assert (a + b)[1..] == a[1..] + b;
      NumberSpanOf(a[1..], b);
    }
  }

  /** A JSON integer: an optional minus sign, then digits. */
  function ParseStatus(t: string): Option<int>
  {
    if |t| > 1 && t[0] == '-' && Decimal.AllDigits(t[1..]) then Some(-(Decimal.Value(t[1..]) as int))
    else if |t| > 0 && Decimal.AllDigits(t) then Some(Decimal.Value(t))
    else None
  }

  lemma ParseStatusFormat(n: int)
    ensures ParseStatus(Decimal.FormatInt(n)) == Some(n)
  {
    if n < 0 {
      assert Decimal.FormatInt(n)[1..] == Decimal.FormatNat(-n);
    }
  }

  /** Reads the status and the message back out of an error body. */
  function DecodeErrorBody(body: string): Option<(int, string)>
  {
    if !(BodyHead <= body) then None
    else
      var rest := body[|BodyHead|..];
      var n := NumberSpan(rest);
      match ParseStatus(rest[..n])
      case None => None
      case Some(status) =>
        var after := rest[n..];
        if !(MessageKey <= after) then None
        else
          match JsonText.ReadString(after[|MessageKey|..])
          case None => None
          case Some((message, tail)) => if tail == "}" then Some((status, message)) else None
  }

  lemma FormatIsNumberText(status: int)
    ensures forall i :: 0 <= i < |Decimal.FormatInt(status)| ==> NumberChar(Decimal.FormatInt(status)[i])
  {
    var num := Decimal.FormatInt(status);
    if status < 0 {
      assert forall i :: 1 <= i < |num| ==> num[i] == num[1..][i - 1];
    }
  }

  /** The status field of an error body reads back as the status. */
  lemma StatusFieldRoundTrip(status: int, tail: string)
    requires |tail| > 0 && tail[0] == ','
    ensures var rest := Decimal.FormatInt(status) + tail;
            && NumberSpan(rest) == |Decimal.FormatInt(status)|
            && ParseStatus(rest[..NumberSpan(rest)]) == Some(status)
            && rest[NumberSpan(rest)..] == tail
  {
    var num := Decimal.FormatInt(status);
    FormatIsNumberText(status);
    NumberSpanOf(num, tail);
    assert (num + tail)[..|num|] == num;
    assert (num + tail)[|num|..] == tail;
    ParseStatusFormat(status);
  }

  /** The error body is JSON that carries exactly the status and the error text. */
  lemma ErrorBodyRoundTrip(status: int, message: string)
    ensures DecodeErrorBody(ErrorBody(status, message)) == Some((status, message))
  {
    var esc := JsonText.Escape(message);
    var after := MessageKey + (esc + "\"}");
    var rest := Decimal.FormatInt(status) + after;
    var body := ErrorBody(status, message);
    assert body == BodyHead + rest;
    assert BodyHead <= body;
    assert body[|BodyHead|..] == rest;
    StatusFieldRoundTrip(status, after);
    assert MessageKey <= after;
    assert after[|MessageKey|..] == esc + "\"" + "}";
    JsonText.ReadEscape(message, "}");
  }

  /** What the handler leaves behind: status code, body, and the counter labels it bumped. */
  datatype Response = Response(status: int, body: string, counter: (string, string))

  /**
   `errorHandler`: the status code, a JSON body carrying the status and the
   error text, and one counter increment labelled with the decimal status and
   the provider.
   */
  function ErrorResponse(status: int, err: string, provider: string): (r: Response)
    ensures r.status == status
    ensures r.counter == (Decimal.FormatInt(status), provider)
    ensures DecodeErrorBody(r.body) == Some((status, err))
  {
    ErrorBodyRoundTrip(status, err);
    Response(status, ErrorBody(status, err), (Decimal.FormatInt(status), provider))
  }

  /** The outcome of `/alert`: the response and, on success, what was sent through whom. */
  datatype AlertOutcome = AlertOutcome(response: Response, sent: Option<(ProviderKind, Message)>)

  /**
   The `/alert` handler. `payload` is the JSON decoding of the request body,
   `render` the template engine, `send` the resolved provider's `Send`, and
   `order`/`keys` Go's map iteration order for the default text.
   */
  function HandleAlert(payload: Result<Data>, receivers: seq<ReceiverConf>,
                       factoryError: ProviderKind -> Option<string>,
                       render: (string, Data) -> Result<string>,
                       send: (ProviderKind, Message) -> Option<string>,
                       order: SectionOrder, keys: seq<string>): (r: AlertOutcome)
    requires payload.Ok? && |payload.value.alerts| == 1 ==> Enumerates(keys, payload.value.alerts[0].labels)
    ensures payload.Err? ==> r == AlertOutcome(ErrorResponse(400, payload.error, "?"), None)
    ensures payload.Ok? && ReceiverConfByReceiver(receivers, payload.value.receiver).None?
            ==> r == AlertOutcome(ErrorResponse(400, "Receiver missing: " + payload.value.receiver, "?"), None)
    ensures r.sent.Some? <==> r.response.status == 200
    ensures r.response.status == 200 ==> r.response.counter.0 == "200" && r.response.body == ""
    ensures r.sent.Some? ==>
              var conf := ReceiverConfByReceiver(receivers, payload.value.receiver).value;
              && ProviderByName(conf.provider, factoryError) == Ok(r.sent.value.0)
              && r.sent.value.1.to == conf.to && r.sent.value.1.from == conf.from
              && r.sent.value.1.kind == conf.kind
              && (conf.text == "" ==> r.sent.value.1.text == NewAlertText(payload.value, order, keys))
              && (conf.text != "" ==> Ok(r.sent.value.1.text) == render(conf.text, payload.value))
              && r.response.counter.1 == conf.provider
    ensures payload.Ok? && ReceiverConfByReceiver(receivers, payload.value.receiver).Some? ==>
              var conf := ReceiverConfByReceiver(receivers, payload.value.receiver).value;
              var provider := ProviderByName(conf.provider, factoryError);
              && (provider.Err? ==> r == AlertOutcome(ErrorResponse(500, provider.error, conf.provider), None))
              && (provider.Ok? && conf.text != "" && render(conf.text, payload.value).Err? ==>
                    r == AlertOutcome(ErrorResponse(500, render(conf.text, payload.value).error, conf.provider), None))
              && (provider.Ok? && conf.text == "" ==> r.response.status != 500)
              && (provider.Ok? && (conf.text == "" || render(conf.text, payload.value).Ok?) ==>
                    var text := if conf.text != "" then render(conf.text, payload.value).value
                                else NewAlertText(payload.value, order, keys);
                    var failure := send(provider.value, Message(conf.to, conf.from, text, conf.kind));
                    failure.Some? ==> r == AlertOutcome(ErrorResponse(400, failure.value, conf.provider), None))
  {
    match payload
    case Err(e) => AlertOutcome(ErrorResponse(400, e, "?"), None)
    case Ok(data) =>
      match ReceiverConfByReceiver(receivers, data.receiver)
      case None => AlertOutcome(ErrorResponse(400, "Receiver missing: " + data.receiver, "?"), None)
      case Some(conf) =>
        match ProviderByName(conf.provider, factoryError)
        case Err(e) => AlertOutcome(ErrorResponse(500, e, conf.provider), None)
        case Ok(kind) =>
          var text := if conf.text != "" then render(conf.text, data) else Ok(NewAlertText(data, order, keys));
          match text
          case Err(e) => AlertOutcome(ErrorResponse(500, e, conf.provider), None)
          case Ok(t) =>
            var message := Message(conf.to, conf.from, t, conf.kind);
            match send(kind, message)
            case Some(e) => AlertOutcome(ErrorResponse(400, e, conf.provider), None)
            case None => AlertOutcome(Response(200, "", ("200", conf.provider)), Some((kind, message)))
  }

  /**
   Every `/alert` request ends in 200, 400 or 500; the counter is bumped
   with the response's own status, and 500 means the provider or the
   template failed for a known receiver.
   */
  lemma AlertOutcomeShape(payload: Result<Data>, receivers: seq<ReceiverConf>,
                          factoryError: ProviderKind -> Option<string>,
                          render: (string, Data) -> Result<string>,
                          send: (ProviderKind, Message) -> Option<string>,
                          order: SectionOrder, keys: seq<string>)
    requires payload.Ok? && |payload.value.alerts| == 1 ==> Enumerates(keys, payload.value.alerts[0].labels)
    ensures var r := HandleAlert(payload, receivers, factoryError, render, send, order, keys);
            && r.response.status in {200, 400, 500}
            && r.response.counter.0 == Decimal.FormatInt(r.response.status)
            && (r.response.status == 500 ==>
                  payload.Ok? && ReceiverConfByReceiver(receivers, payload.value.receiver).Some?)
  {
    Format200();
  }

  /** The counter label of a 200 response. */
  lemma Format200()
    ensures Decimal.FormatInt(200) == "200"
  {
    assert Decimal.FormatNat(200) == Decimal.FormatNat(20) + "0";
    assert Decimal.FormatNat(20) == Decimal.FormatNat(2) + "0";
  }

  /** What `/-/reload` did: whether it reloaded the configuration, and the response. */
  datatype ReloadOutcome = ReloadOutcome(loaded: bool, status: int, body: string)

  /**
   `/-/reload`: only POST reloads; a load failure answers 500 with the error
   text, any other method 405. `http.Error` ends the body with a newline.
   `loadError` is the result `LoadConfig` would give.
   */
  function Reload(verb: string, loadError: Option<string>): (r: ReloadOutcome)
    ensures r.loaded <==> verb == "POST"
    ensures r.status == 200 <==> verb == "POST" && loadError.None?
    ensures r.status == 500 <==> verb == "POST" && loadError.Some?
    ensures r.status == 500 ==> r.body == loadError.value + "\n"
    ensures r.status == 405 <==> verb != "POST"
    ensures r.status == 405 ==> r.body == "Invalid request method.\n"
  {
    if verb == "POST" then
      match loadError
      case Some(e) => ReloadOutcome(true, 500, e + "\n")
      case None => ReloadOutcome(true, 200, "")
    else ReloadOutcome(false, 405, "Invalid request method.\n")
  }

  const DefaultListenAddress: string := ":9876"

  /** The address the server listens on: `":" + PORT` when `PORT` is set, else the flag. */
  function ListenAddress(flagValue: string, portEnv: string): (r: string)
    ensures portEnv != "" ==> r == ":" + portEnv
    ensures portEnv == "" ==> r == flagValue
  {
    if portEnv != "" then ":" + portEnv else flagValue
  }
}
