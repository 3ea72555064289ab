/**
 The sms77 provider (`provider/sms77/sms77.go`): one SMS to all recipients
 at once for text messages, one voice call per recipient for voice
 messages. The library's SMS and voice resources are parameters.
 */
module Sms77Provider {
  import opened Wrappers
  import opened Sachet
  import Text
  import Sms77Api

  datatype Config = Config(apiKey: string, debug: bool)

  /** The client options `NewSms77` passes to the library: always sent "with" Sachet. */
  function New(c: Config): (o: Sms77Api.Options)
    ensures o.apiKey == c.apiKey && o.debug == c.debug && o.sentWith == "Sachet"
  {
    Sms77Api.New(Sms77Api.Options(c.apiKey, c.debug, "Sachet"))
  }

  /** `sms77api.SmsBaseParams` as `Send` fills it in: all recipients in one comma-separated field. */
  datatype SmsParams = SmsParams(from: string, text: string, to: string)

  /** `sms77api.VoiceParams` as `Send` fills it in: one recipient. */
  datatype VoiceParams = VoiceParams(from: string, text: string, to: string)

  /** The two library calls `Send` makes. */
  datatype Api = Api(sms: SmsParams -> Status, voice: VoiceParams -> Status)

  predicate IsText(kind: string)
  {
    kind == "" || kind == "text"
  }

  /**
   `Sms77.Send`: a text message is one SMS call; a voice message is one
   call per recipient where every recipient is called and only the last
   call's error is kept; any other type is refused.
   */
  function Send(m: Message, api: Api): (r: Status)
    ensures IsText(m.kind) ==> r == api.sms(SmsParams(m.from, m.text, Text.Join(m.to, ",")))
    ensures m.kind == "voice" && |m.to| == 0 ==> r.None?
    ensures m.kind == "voice" && |m.to| > 0 ==> r == api.voice(VoiceParams(m.from, m.text, m.to[|m.to| - 1]))
    ensures !IsText(m.kind) && m.kind != "voice" ==> r == Some("unknown message type " + m.kind)
  {
    if IsText(m.kind) then api.sms(SmsParams(m.from, m.text, Text.Join(m.to, ",")))
    else if m.kind == "voice" then SendAllKeepLast(m.to, (to: string) => api.voice(VoiceParams(m.from, m.text, to)))
    else Some("unknown message type " + m.kind)
  }

  /**
   A voice message whose last call succeeds is reported as sent, even when
   every earlier call failed.
   */
  lemma EarlierVoiceFailuresAreLost(m: Message, api: Api)
    requires m.kind == "voice" && |m.to| > 0
    requires api.voice(VoiceParams(m.from, m.text, m.to[|m.to| - 1])).None?
    ensures Send(m, api).None?
  {
  }

  /** The recipients of a text message are read back from the one SMS's `To` field. */
  lemma TextRecipientsReadBack(m: Message)
    requires IsText(m.kind) && |m.to| > 0 && Text.Free(m.to, ',')
    ensures Text.Split(Text.Join(m.to, ","), ',') == m.to
  {
    Text.SplitJoin(m.to, ',');
  }
}
