/**
 The request builders of the MessageBird REST client
 (`github.com/messagebird/go-rest-api` with its `sms` and `voicemessage`
 packages): the checks on required fields, then the copying of the optional
 ones into the JSON request or the URL parameters. `format` stands for
 `time.Time.Format(time.RFC3339)`.
 */
module MessageBirdRequests {
  import opened Wrappers
  import opened UrlValues
  import Decimal
  import Text

  /** A `time.Time`: seconds since the Unix epoch, and nanoseconds. */
  datatype Time = Time(unix: int, nanos: nat)

  /** Go's zero `time.Time`, January 1 of year 1, 00:00:00 UTC. */
  const ZeroTime: Time := Time(-62135596800, 0)

  /** `t.IsZero()`. */
  predicate IsZero(t: Time)
  {
    t == ZeroTime
  }

  /** The dynamic type of a `TypeDetails` value (`interface{}`). */
  datatype Detail = StrDetail(s: string) | IntDetail(i: int) | OtherDetail

  type TypeDetails = map<string, Detail>

  // ---------------------------------------------------------------------
  // Text messages (`sms/message.go`, and `message.go` without ReportURL)
  // ---------------------------------------------------------------------

  /** `sms.Params`. */
  datatype MessageParams = MessageParams(
    kind: string, reference: string, validity: int, gateway: int,
    typeDetails: TypeDetails, dataCoding: string, reportUrl: string, scheduled: Time)

  /** `messageRequest`, the JSON body of a message creation. */
  datatype MessageRequest = MessageRequest(
    originator: string, body: string, recipients: seq<string>,
    kind: string, reference: string, validity: int, gateway: int,
    typeDetails: TypeDetails, dataCoding: string, mclass: int, reportUrl: string,
    scheduled: string)

  /** The request with only the three required fields set. */
  function BareMessage(originator: string, recipients: seq<string>, body: string): MessageRequest
  {
    MessageRequest(originator, body, recipients, "", "", 0, 0, map[], "", 0, "", "")
  }

  /**
   `requestDataForMessage`: originator, then recipients, then body must be
   present; with parameters, "flash" selects message class 0 and every other
   type class 1, a zero schedule is left out, and the rest is copied.
   */
  function RequestDataForMessage(originator: string, recipients: seq<string>, body: string,
                                 params: Option<MessageParams>, format: Time -> string): (r: Result<MessageRequest>)
    ensures originator == "" ==> r == Err("originator is required")
    ensures originator != "" && |recipients| == 0 ==> r == Err("at least 1 recipient is required")
    ensures originator != "" && |recipients| > 0 && body == "" ==> r == Err("body is required")
    ensures r.Ok? <==> originator != "" && |recipients| > 0 && body != ""
    ensures r.Ok? && params.None? ==> r.value == BareMessage(originator, recipients, body)
    ensures r.Ok? && params.Some? ==> (r.value.mclass == 0 <==> params.value.kind == "flash")
    ensures r.Ok? && params.Some? ==> r.value.mclass == 0 || r.value.mclass == 1
    ensures r.Ok? && params.Some? ==>
              r.value.scheduled == (if IsZero(params.value.scheduled) then "" else format(params.value.scheduled))
  {
    if originator == "" then Err("originator is required")
    else if |recipients| == 0 then Err("at least 1 recipient is required")
    else if body == "" then Err("body is required")
    else
      match params
      case None => Ok(BareMessage(originator, recipients, body))
      case Some(p) =>
        Ok(MessageRequest(originator, body, recipients, p.kind, p.reference, p.validity, p.gateway,
                          p.typeDetails, p.dataCoding, if p.kind == "flash" then 0 else 1, p.reportUrl,
                          if IsZero(p.scheduled) then "" else format(p.scheduled)))
  }

  /** The parameters a message request carries, given the time it was scheduled for. */
  function ParamsOf(req: MessageRequest, scheduled: Time): MessageParams
  {
    MessageParams(req.kind, req.reference, req.validity, req.gateway, req.typeDetails,
                  req.dataCoding, req.reportUrl, scheduled)
  }

  /** A built message request keeps the three required values and every parameter it was given. */
  lemma MessageRequestKeepsParams(originator: string, recipients: seq<string>, body: string,
                                  p: MessageParams, format: Time -> string)
    requires originator != "" && |recipients| > 0 && body != ""
    ensures var req := RequestDataForMessage(originator, recipients, body, Some(p), format).value;
            && req.originator == originator && req.recipients == recipients && req.body == body
            && ParamsOf(req, p.scheduled) == p
  {
  }

  /**
   `message.go`'s `requestDataForMessage`: the same checks and copying, for
   parameters that have no ReportURL.
   */
  function LegacyRequestDataForMessage(originator: string, recipients: seq<string>, body: string,
                                       params: Option<MessageParams>, format: Time -> string): (r: Result<MessageRequest>)
    ensures r.Ok? <==> originator != "" && |recipients| > 0 && body != ""
    ensures r.Ok? ==> r.value.reportUrl == ""
    ensures r.Err? ==> r == RequestDataForMessage(originator, recipients, body, params, format)
  {
    var widened := if params.Some? then Some(params.value.(reportUrl := "")) else None;
    RequestDataForMessage(originator, recipients, body, widened, format)
  }

  /** `sms.ListParams` and `MessageListParams`. */
  datatype ListParams = ListParams(originator: string, direction: string, kind: string,
                                   limit: Decimal.Int64, offset: Decimal.Int64)

  /**
   `paramsForMessageList` (the same in both packages): direction and
   originator when non-empty, the limit when non-zero, the offset always,
   the type never.
   */
  function ParamsForMessageList(params: Option<ListParams>): (r: Values)
    ensures params.None? ==> r == Empty
    ensures params.Some? ==> "offset" in r && r.Keys <= {"direction", "originator", "limit", "offset"}
    ensures params.Some? ==> ("direction" in r <==> params.value.direction != "")
    ensures params.Some? ==> ("originator" in r <==> params.value.originator != "")
    ensures params.Some? ==> ("limit" in r <==> params.value.limit != 0)
    ensures "type" !in r
    ensures SingleValued(r)
  {
    match params
    case None => Empty
    case Some(p) =>
      var v1 := SetIf(Empty, p.direction != "", "direction", p.direction);
      var v2 := SetIf(v1, p.originator != "", "originator", p.originator);
      var v3 := SetIf(v2, p.limit != 0, "limit", Decimal.FormatInt(p.limit));
      Set(v3, "offset", Decimal.FormatInt(p.offset))
  }

  /** A decimal parameter read back with `strconv.Atoi`, 0 when absent or malformed. */
  function ReadInt(v: Values, k: string): Decimal.Int64
  {
    match Decimal.Atoi(Get(v, k))
    case Some(n) => n
    case None => 0
  }

  /** How the API reads list parameters back: missing ones are empty or zero. */
  function ReadListParams(v: Values): ListParams
  {
    ListParams(Get(v, "originator"), Get(v, "direction"), "", ReadInt(v, "limit"), ReadInt(v, "offset"))
  }

  /** Reading the list parameters back gives every field except the type, which is never sent. */
  lemma ListParamsRoundTrip(p: ListParams)
    ensures ReadListParams(ParamsForMessageList(Some(p))) == p.(kind := "")
  {
    var r := ParamsForMessageList(Some(p));
    Decimal.AtoiFormatInt(p.offset);
    assert ReadInt(r, "offset") == p.offset;
    if p.limit != 0 {
      Decimal.AtoiFormatInt(p.limit);
      assert ReadInt(r, "limit") == p.limit;
    } else {
      assert "limit" !in r;
    }
  }

  // ---------------------------------------------------------------------
  // Voice messages (`voicemessage/voice_message.go`, `voice_message.go`)
  // ---------------------------------------------------------------------

  /** `voicemessage.Params` and `VoiceMessageParams`. */
  datatype VoiceParams = VoiceParams(
    originator: string, reference: string, language: string, voice: string,
    repeat: int, ifMachine: string, scheduled: Time)

  /** `voiceMessageRequest`. */
  datatype VoiceRequest = VoiceRequest(
    recipients: seq<string>, body: string, originator: string, reference: string,
    language: string, voice: string, repeat: int, ifMachine: string, scheduled: string)

  /**
   `requestDataForVoiceMessage` (the same in both packages): recipients,
   then body, must be present; with parameters every field is copied and the
   schedule is always formatted, even a zero one.
   */
  function RequestDataForVoiceMessage(recipients: seq<string>, body: string, params: Option<VoiceParams>,
                                      format: Time -> string): (r: Result<VoiceRequest>)
    ensures |recipients| == 0 ==> r == Err("at least 1 recipient is required")
    ensures |recipients| > 0 && body == "" ==> r == Err("body is required")
    ensures r.Ok? <==> |recipients| > 0 && body != ""
    ensures r.Ok? ==> r.value.recipients == recipients && r.value.body == body
    ensures r.Ok? && params.None? ==> r.value == VoiceRequest(recipients, body, "", "", "", "", 0, "", "")
    ensures r.Ok? && params.Some? ==> r.value.scheduled == format(params.value.scheduled)
  {
    if |recipients| == 0 then Err("at least 1 recipient is required")
    else if body == "" then Err("body is required")
    else
      match params
      case None => Ok(VoiceRequest(recipients, body, "", "", "", "", 0, "", ""))
      case Some(p) =>
        Ok(VoiceRequest(recipients, body, p.originator, p.reference, p.language, p.voice,
                        p.repeat, p.ifMachine, format(p.scheduled)))
  }

  /** The voice parameters a voice request carries, given its schedule. */
  function VoiceParamsOf(req: VoiceRequest, scheduled: Time): VoiceParams
  {
    VoiceParams(req.originator, req.reference, req.language, req.voice, req.repeat, req.ifMachine, scheduled)
  }

  /** Every voice parameter given is carried by the request. */
  lemma VoiceRequestKeepsParams(recipients: seq<string>, body: string, p: VoiceParams, format: Time -> string)
    requires |recipients| > 0 && body != ""
    ensures VoiceParamsOf(RequestDataForVoiceMessage(recipients, body, Some(p), format).value, p.scheduled) == p
  {
  }

  /**
   A zero schedule is left out of a text message but formatted into a voice
   message, whatever `format` makes of it.
   */
  lemma ZeroScheduleDiffers(recipients: seq<string>, text: string, mp: MessageParams, vp: VoiceParams,
                            format: Time -> string)
    requires |recipients| > 0 && text != ""
    requires IsZero(mp.scheduled) && IsZero(vp.scheduled)
    ensures RequestDataForMessage("sachet", recipients, text, Some(mp), format).value.scheduled == ""
    ensures RequestDataForVoiceMessage(recipients, text, Some(vp), format).value.scheduled == format(ZeroTime)
  {
  }

  // ---------------------------------------------------------------------
  // MMS, verify, HLR and lookup
  // ---------------------------------------------------------------------

  /** `MMSMessageParams`: `mediaUrls` is `None` for a nil slice. */
  datatype MmsParams = MmsParams(body: string, mediaUrls: Option<seq<string>>, subject: string,
                                 reference: string, scheduled: Time)

  /**
   `paramsForMMSMessage` (its argument is dereferenced, so it is never nil):
   a body or media URLs are required; each optional value is set only when
   present, the media URLs comma-joined, the schedule when after the epoch.
   */
  function ParamsForMmsMessage(params: MmsParams, format: Time -> string): (r: Result<Values>)
    ensures r.Err? <==> params.body == "" && params.mediaUrls.None?
    ensures r.Err? ==> r.error == "Body or MediaUrls is required"
    ensures r.Ok? ==> ("body" in r.value <==> params.body != "")
    ensures r.Ok? ==> ("mediaUrls[]" in r.value <==> params.mediaUrls.Some?)
    ensures r.Ok? ==> ("subject" in r.value <==> params.subject != "")
    ensures r.Ok? ==> ("reference" in r.value <==> params.reference != "")
    ensures r.Ok? ==> ("scheduledDatetime" in r.value <==> params.scheduled.unix > 0)
    ensures r.Ok? ==> r.value.Keys <= {"body", "mediaUrls[]", "subject", "reference", "scheduledDatetime"}
    ensures r.Ok? ==> SingleValued(r.value)
  {
    if params.body == "" && params.mediaUrls.None? then Err("Body or MediaUrls is required")
    else
      var urls := if params.mediaUrls.Some? then Text.Join(params.mediaUrls.value, ",") else "";
      var v1 := SetIf(Empty, params.body != "", "body", params.body);
      var v2 := SetIf(v1, params.mediaUrls.Some?, "mediaUrls[]", urls);
      var v3 := SetIf(v2, params.subject != "", "subject", params.subject);
      var v4 := SetIf(v3, params.reference != "", "reference", params.reference);
      var v5 := SetIf(v4, params.scheduled.unix > 0, "scheduledDatetime", format(params.scheduled));
      SetIfKeys(Empty, params.body != "", "body", params.body);
      SetIfKeys(v1, params.mediaUrls.Some?, "mediaUrls[]", urls);
      SetIfKeys(v2, params.subject != "", "subject", params.subject);
      SetIfKeys(v3, params.reference != "", "reference", params.reference);
      SetIfKeys(v4, params.scheduled.unix > 0, "scheduledDatetime", format(params.scheduled));
      SetIfKeepsSingleValued(Empty, params.body != "", "body", params.body);
      SetIfKeepsSingleValued(v1, params.mediaUrls.Some?, "mediaUrls[]", urls);
      SetIfKeepsSingleValued(v2, params.subject != "", "subject", params.subject);
      SetIfKeepsSingleValued(v3, params.reference != "", "reference", params.reference);
      SetIfKeepsSingleValued(v4, params.scheduled.unix > 0, "scheduledDatetime", format(params.scheduled));
      Ok(v5)
  }

  /** The comma-joined media URLs split back into the list, when no URL holds a comma. */
  lemma MmsMediaUrlsRoundTrip(params: MmsParams, format: Time -> string)
    requires params.mediaUrls.Some? && |params.mediaUrls.value| > 0
    requires Text.Free(params.mediaUrls.value, ',')
    ensures ParamsForMmsMessage(params, format).Ok?
    ensures Text.Split(Get(ParamsForMmsMessage(params, format).value, "mediaUrls[]"), ',') == params.mediaUrls.value
  {
    Text.SplitJoin(params.mediaUrls.value, ',');
  }

  /** `VerifyParams`; the verify request carries the same optional fields. */
  datatype VerifyParams = VerifyParams(
    originator: string, reference: string, kind: string, template: string, dataCoding: string,
    voice: string, language: string, timeout: int, tokenLength: int)

  const NoVerifyParams: VerifyParams := VerifyParams("", "", "", "", "", "", "", 0, 0)

  /** `verifyRequest`. */
  datatype VerifyRequest = VerifyRequest(recipient: string, options: VerifyParams)

  /** `requestDataForVerify`: a recipient is required; the parameters are copied as they are. */
  function RequestDataForVerify(recipient: string, params: Option<VerifyParams>): (r: Result<VerifyRequest>)
    ensures recipient == "" <==> r == Err("recipient is required")
    ensures r.Ok? ==> r.value.recipient == recipient
    ensures r.Ok? ==> r.value.options == params.GetOr(NoVerifyParams)
  {
    if recipient == "" then Err("recipient is required")
    else Ok(VerifyRequest(recipient, params.GetOr(NoVerifyParams)))
  }

  /** `hlrRequest`. */
  datatype HlrRequest = HlrRequest(msisdn: string, reference: string)

  /** `requestDataForHLR`: the MSISDN is checked before the reference. */
  function RequestDataForHlr(msisdn: string, reference: string): (r: Result<HlrRequest>)
    ensures msisdn == "" ==> r == Err("msisdn is required")
    ensures msisdn != "" && reference == "" ==> r == Err("reference is required")
    ensures r.Ok? <==> msisdn != "" && reference != ""
    ensures r.Ok? ==> r.value.msisdn == msisdn && r.value.reference == reference
  {
    if msisdn == "" then Err("msisdn is required")
    else if reference == "" then Err("reference is required")
    else Ok(HlrRequest(msisdn, reference))
  }

  /** `LookupParams`; `lookupRequest` carries the same two fields. */
  datatype LookupParams = LookupParams(countryCode: string, reference: string)

  /** `requestDataForLookup`: an empty request for nil parameters, otherwise a copy. */
  function RequestDataForLookup(params: Option<LookupParams>): (r: LookupParams)
    ensures params.None? ==> r == LookupParams("", "")
    ensures params.Some? ==> r == params.value
  {
    params.GetOr(LookupParams("", ""))
  }

  /** `paramsForLookup`: each of the two values only when non-empty. */
  function ParamsForLookup(params: Option<LookupParams>): (r: Values)
    ensures params.None? ==> r == Empty
    ensures r.Keys <= {"countryCode", "reference"}
    ensures params.Some? ==> ("countryCode" in r <==> params.value.countryCode != "")
    ensures params.Some? ==> ("reference" in r <==> params.value.reference != "")
    ensures SingleValued(r)
  {
    match params
    case None => Empty
    case Some(p) =>
      var v := SetIf(Empty, p.countryCode != "", "countryCode", p.countryCode);
      SetIf(v, p.reference != "", "reference", p.reference)
  }

  /** The lookup URL parameters read back as the request the same parameters build. */
  lemma LookupParamsAgree(params: Option<LookupParams>)
    ensures var v := ParamsForLookup(params);
            LookupParams(Get(v, "countryCode"), Get(v, "reference")) == RequestDataForLookup(params)
  {
  }
}
