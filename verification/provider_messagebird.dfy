/**
 The MessageBird provider (`provider/messagebird/messagebird.go`): the
 configuration is split into SMS and voice parameters once, and each message
 becomes one SMS or one voice-message creation. The REST call itself is the
 parameter `api`, answering each request with a Go error or nil.
 */
module MessageBirdProvider {
  import opened Wrappers
  import opened Sachet
  import R = MessageBirdRequests

  datatype Config = Config(accessKey: string, gateway: int, debug: bool,
                           language: string, voice: string, repeat: int)

  datatype Provider = Provider(accessKey: string, messageParams: R.MessageParams, voiceParams: R.VoiceParams)

  /** The zero `sms.Params`. */
  const NoMessageParams: R.MessageParams := R.MessageParams("", "", 0, 0, map[], "", "", R.ZeroTime)

  /** The zero `voicemessage.Params`. */
  const NoVoiceParams: R.VoiceParams := R.VoiceParams("", "", "", "", 0, "", R.ZeroTime)

  /**
   `NewMessageBird`: the gateway goes into the SMS parameters, language,
   voice and repeat into the voice parameters; nothing else is set.
   */
  function New(c: Config): (p: Provider)
    ensures p.accessKey == c.accessKey
    ensures p.messageParams.gateway == c.gateway && p.messageParams.(gateway := 0) == NoMessageParams
    ensures p.voiceParams.language == c.language && p.voiceParams.voice == c.voice
    ensures p.voiceParams.repeat == c.repeat
    ensures p.voiceParams.(language := "", voice := "", repeat := 0) == NoVoiceParams
  {
    Provider(c.accessKey, NoMessageParams.(gateway := c.gateway),
             NoVoiceParams.(language := c.language, voice := c.voice, repeat := c.repeat))
  }

  /** One API request the provider makes. */
  datatype Call = SmsCall(sms: R.MessageRequest) | VoiceCall(voice: R.VoiceRequest)

  predicate IsText(kind: string)
  {
    kind == "" || kind == "text"
  }

  /**
   The request `Send` hands to the API, or the local error that stops it
   first: an unknown type, or a required field missing.
   */
  function Prepare(p: Provider, m: Message, format: R.Time -> string): (r: Result<Call>)
    ensures !IsText(m.kind) && m.kind != "voice" ==> r == Err("unknown message type " + m.kind)
    ensures IsText(m.kind) && r.Ok? ==>
              && r.value.SmsCall?
              && r.value.sms.originator == m.from && r.value.sms.recipients == m.to
              && r.value.sms.body == m.text
    ensures m.kind == "voice" && r.Ok? ==>
              && r.value.VoiceCall?
              && r.value.voice.recipients == m.to && r.value.voice.body == m.text
    ensures IsText(m.kind) ==> (r.Ok? <==> m.from != "" && |m.to| > 0 && m.text != "")
    ensures m.kind == "voice" ==> (r.Ok? <==> |m.to| > 0 && m.text != "")
  {
    if IsText(m.kind) then
      match R.RequestDataForMessage(m.from, m.to, m.text, Some(p.messageParams), format)
      case Ok(req) => Ok(SmsCall(req))
      case Err(e) => Err(e)
    else if m.kind == "voice" then
      match R.RequestDataForVoiceMessage(m.to, m.text, Some(p.voiceParams), format)
      case Ok(req) => Ok(VoiceCall(req))
      case Err(e) => Err(e)
    else Err("unknown message type " + m.kind)
  }

  /** `MessageBird.Send`: the local error, or what the API answers to the one request. */
  function Send(p: Provider, m: Message, format: R.Time -> string, api: Call -> Status): (r: Status)
    ensures Prepare(p, m, format).Err? ==> r == Some(Prepare(p, m, format).error)
    ensures Prepare(p, m, format).Ok? ==> r == api(Prepare(p, m, format).value)
  {
    match Prepare(p, m, format)
    case Err(e) => Some(e)
    case Ok(call) => api(call)
  }

  /**
   A text message built by a configured provider carries the configured
   gateway, message class 1 and no schedule.
   */
  lemma TextRequestCarriesGateway(c: Config, m: Message, format: R.Time -> string)
    requires IsText(m.kind) && m.from != "" && |m.to| > 0 && m.text != ""
    ensures var call := Prepare(New(c), m, format).value;
            && call.sms.gateway == c.gateway
            && call.sms.mclass == 1
            && call.sms.scheduled == ""
            && call.sms.kind == ""
  {
    var p := New(c);
    assert p.messageParams.kind == "";
    assert R.IsZero(p.messageParams.scheduled);
  }

  /**
   A voice message carries the configured language, voice and repeat, and
   no originator: `From` is not passed on.
   */
  lemma VoiceRequestCarriesConfig(c: Config, m: Message, format: R.Time -> string)
    requires m.kind == "voice" && |m.to| > 0 && m.text != ""
    ensures var call := Prepare(New(c), m, format).value;
            && call.voice.language == c.language
            && call.voice.voice == c.voice
            && call.voice.repeat == c.repeat
            && call.voice.originator == ""
  {
  }

  /** A message succeeds exactly when it passes the local checks and the API accepts its request. */
  lemma SendSucceedsIff(p: Provider, m: Message, format: R.Time -> string, api: Call -> Status)
    ensures Send(p, m, format, api).None?
            <==> Prepare(p, m, format).Ok? && api(Prepare(p, m, format).value).None?
  {
  }
}
