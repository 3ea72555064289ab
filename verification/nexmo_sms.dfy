/**
 The SMS service of the Nexmo client library (`gonexmo` `sms.go`): the names
 of message classes and response codes, the field checks `Send` makes, the
 JSON object it posts and how the answer is read.
 */
module NexmoSms {
  import opened Wrappers
  import opened NexmoClient

  // Message types.
  const Text: string := "text"
  const Binary: string := "binary"
  const WapPush: string := "wappush"
  const Unicode: string := "unicode"
  const VCal: string := "vcal"
  const VCard: string := "vcard"

  // Message classes, numbered from zero.
  const Flash: int := 0
  const Standard: int := 1
  const SimData: int := 2
  const Forward: int := 3

  const MessageClassNames: seq<string> := ["flash", "standard", "SIM data", "forward"]

  /** `MessageClass.String`: a map lookup, so an unknown class reads as "". */
  function MessageClassName(m: int): (r: string)
    ensures r != "" <==> Flash <= m <= Forward
  {
    if 0 <= m < |MessageClassNames| then MessageClassNames[m] else ""
  }

  /** Different classes have different names. */
  lemma MessageClassNamesDistinct(a: int, b: int)
    requires Flash <= a <= Forward && Flash <= b <= Forward && a != b
    ensures MessageClassName(a) != MessageClassName(b)
  {
  }

  const ResponseCodeNames: seq<string> := [
    "Success", "Throttled", "Missing params", "Invalid params", "Invalid credentials",
    "Internal error", "Invalid message", "Number barred", "Partner account barred",
    "Partner quota exceeded", "Account not enabled for REST", "Message too long",
    "Communication failed", "Invalid signature", "Invalid sender address", "Invalid TTL",
    "Facility not allowed", "Invalid message class"]

  const ResponseSuccess: int := 0
  const ResponseInvalidMessageClass: int := 17

  /** `ResponseCode.String`: codes 0 to 17 have names; any other reads as "". */
  function ResponseCodeName(c: int): (r: string)
    ensures r != "" <==> ResponseSuccess <= c <= ResponseInvalidMessageClass
    ensures c == ResponseSuccess ==> r == "Success"
  {
    if 0 <= c < |ResponseCodeNames| then ResponseCodeNames[c] else ""
  }

  /** Different response codes have different names. */
  lemma ResponseCodeNamesDistinct(a: int, b: int)
    requires ResponseSuccess <= a <= ResponseInvalidMessageClass
    requires ResponseSuccess <= b <= ResponseInvalidMessageClass
    requires a != b
    ensures ResponseCodeName(a) != ResponseCodeName(b)
  {
    CodeOfNameInverts(a);
    CodeOfNameInverts(b);
  }

  /**
   A proof device: recovers a code from its name by the name's length and, where
   lengths clash, one letter.
   */
  function CodeOfName(s: string): int
  {
    match |s|
    case 7 => 0
    case 9 => 1
    case 14 => if s[0] == 'M' then 2 else if s[2] == 'v' then 3 else 5
    case 19 => 4
    case 15 => 6
    case 13 => 7
    case 22 => if s[8] == 'a' then 8 else if s[8] == 'q' then 9 else 14
    case 28 => 10
    case 16 => 11
    case 20 => if s[0] == 'C' then 12 else 16
    case 17 => 13
    case 11 => 15
    case 21 => 17
    case _ => -1
  }

  /** Every code's name leads back to the code. */
  lemma CodeOfNameInverts(c: int)
    requires ResponseSuccess <= c <= ResponseInvalidMessageClass
    ensures CodeOfName(ResponseCodeName(c)) == c
  {
    var names := ResponseCodeNames;
    assert forall i :: 0 <= i < |names| ==> CodeOfName(names[i]) == i;
  }

  /** `SMSMessage`; the key and secret are filled in by `Send`. */
  datatype SmsMessage = SmsMessage(
    from: string,
    to: string,
    kind: string,                // `Type`
    text: string,
    statusReportRequired: int,
    clientReference: string,
    networkCode: string,
    vcard: string,
    vcal: string,
    ttl: int,
    messageClass: int,
    body: seq<bv8>,
    udh: seq<bv8>,
    title: string,
    url: string,
    validity: int)

  const InvalidFrom: string := "Invalid From field specified"
  const InvalidTo: string := "Invalid To field specified"
  const ReferenceTooLong: string := "Client reference too long"
  const InvalidText: string := "Invalid message text"
  const InvalidBinary: string := "Invalid binary message"
  const InvalidWapPush: string := "Invalid WAP Push parameters"

  /**
   The checks `Send` makes before anything is sent, in order: sender,
   recipient, client reference length in bytes, then the fields the type
   needs. A text message needs nothing: its case is empty and Go's `switch`
   does not fall through into the unicode check.
   */
  function Validate(m: SmsMessage): (r: Status)
    ensures r.None? <==>
              m.from != "" && m.to != "" && ByteLength(m.clientReference) <= MaxClientReference &&
              (m.kind == Unicode ==> m.text != "") &&
              (m.kind == Binary ==> |m.udh| > 0 && |m.body| > 0) &&
              (m.kind == WapPush ==> m.url != "" && m.title != "")
    ensures m.from == "" ==> r == Some(InvalidFrom)
    ensures m.from != "" && m.to == "" ==> r == Some(InvalidTo)
    ensures m.from != "" && m.to != "" && ByteLength(m.clientReference) > MaxClientReference ==> r == Some(ReferenceTooLong)
  {
    if ByteLength(m.from) <= 0 then Some(InvalidFrom)
    else if ByteLength(m.to) <= 0 then Some(InvalidTo)
    else if ByteLength(m.clientReference) > MaxClientReference then Some(ReferenceTooLong)
    else if m.kind == Text then None
    else if m.kind == Unicode then (if ByteLength(m.text) <= 0 then Some(InvalidText) else None)
    else if m.kind == Binary then (if |m.udh| == 0 || |m.body| == 0 then Some(InvalidBinary) else None)
    else if m.kind == WapPush then (if ByteLength(m.url) == 0 || ByteLength(m.title) == 0 then Some(InvalidWapPush) else None)
    else None
  }

  /** An empty text message passes the checks; an empty unicode one does not. */
  lemma EmptyTextIsNotChecked(m: SmsMessage)
    requires m.from != "" && m.to != "" && m.clientReference == "" && m.text == ""
    ensures m.kind == Text ==> Validate(m).None?
    ensures m.kind == Unicode ==> Validate(m) == Some(InvalidText)
  {
  }

  /** The members `MarshalJSON` can write: the credentials, then the struct's fields. */
  datatype Field =
    | ApiKey | ApiSecret | FromField | ToField | TypeField | TextField | StatusReportReq
    | ClientRef | NetworkCodeField | VCardField | VCalField | Ttl | MessageClassField
    | BodyField | UdhField | TitleField | UrlField | ValidityField

  /** The member name of each field, as the Nexmo API reads it. */
  function FieldName(f: Field): (r: string)
    ensures f == VCardField <==> r == "vcard"
  {
    match f
    case ApiKey => "api_key"
    case ApiSecret => "api_secret"
    case FromField => "from"
    case ToField => "to"
    case TypeField => "type"
    case TextField => "text"
    case StatusReportReq => "status-report-req"
    case ClientRef => "client-ref"
    case NetworkCodeField => "network-code"
    case VCardField => "vcard"
    case VCalField => "vcal"
    case Ttl => "ttl"
    case MessageClassField => "message-class"
    case BodyField => "body"
    case UdhField => "udh"
    case TitleField => "title"
    case UrlField => "url"
    case ValidityField => "validity"
  }

  /** The member names as the struct tags are written: the vCard's tag reads "vcrad". */
  function FieldNameAsWritten(f: Field): (r: string)
    ensures f != VCardField ==> r == FieldName(f)
  {
    if f == VCardField then "vcrad" else FieldName(f)
  }

  /** As written, no member is named "vcard", so the API never receives the vCard. */
  lemma VCardIsMisnamed(f: Field)
    ensures FieldNameAsWritten(f) != "vcard"
    ensures FieldName(VCardField) == "vcard"
  {
    assert "vcrad" != "vcard" by { assert "vcrad"[3] != "vcard"[3]; }
  }

  /**
   The JSON object `MarshalJSON` writes: the key and secret (always, even
   when empty), the sender, recipient and type, and every optional field
   whose value is not zero.
   */
  function Object(m: SmsMessage, credentials: (string, string)): (r: JsonObject<Field>)
    ensures ApiKey in r && ApiSecret in r && FromField in r && ToField in r && TypeField in r
    ensures r[ApiKey] == JString(credentials.0) && r[ApiSecret] == JString(credentials.1)
    ensures r[FromField] == JString(m.from) && r[ToField] == JString(m.to) && r[TypeField] == JString(m.kind)
  {
    var r := ObjectMap(m, credentials);
    ObjectEntry(m, credentials, ApiKey); ObjectEntry(m, credentials, ApiSecret);
    ObjectEntry(m, credentials, FromField); ObjectEntry(m, credentials, ToField);
    ObjectEntry(m, credentials, TypeField);
    r
  }

  /**
   The `omitempty` text fields: each is a member of the object exactly when
   it is not empty, and then carries the message's own text.
   */
  lemma ObjectOptionalTexts(m: SmsMessage, credentials: (string, string))
    ensures TextField in Object(m, credentials) <==> m.text != ""
    ensures m.text != "" ==> Object(m, credentials)[TextField] == JString(m.text)
    ensures VCardField in Object(m, credentials) <==> m.vcard != ""
    ensures m.vcard != "" ==> Object(m, credentials)[VCardField] == JString(m.vcard)
  {
    ObjectEntry(m, credentials, TextField);
    ObjectEntry(m, credentials, VCardField);
  }

  /** The other `omitempty` fields: each is a member exactly when it is not zero. */
  lemma ObjectOptionalFields(m: SmsMessage, credentials: (string, string))
    ensures ClientRef in Object(m, credentials) <==> m.clientReference != ""
    ensures MessageClassField in Object(m, credentials) <==> m.messageClass != Flash
    ensures BodyField in Object(m, credentials) <==> |m.body| > 0
    ensures UrlField in Object(m, credentials) <==> m.url != ""
  {
    var r := Object(m, credentials);
    assert ClientRef in r <==> m.clientReference != "" by { ObjectEntry(m, credentials, ClientRef); }
    assert MessageClassField in r <==> m.messageClass != Flash by { ObjectEntry(m, credentials, MessageClassField); }
    assert BodyField in r <==> |m.body| > 0 by { ObjectEntry(m, credentials, BodyField); }
    assert UrlField in r <==> m.url != "" by { ObjectEntry(m, credentials, UrlField); }
  }

  /** Every present field with its value. */
  function ObjectMap(m: SmsMessage, credentials: (string, string)): JsonObject<Field>
  {
    map f | f in AllFields && Present(m, f) :: Value(m, credentials, f)
  }

  /** A field is a member exactly when it is present, and then holds its value. */
  lemma ObjectEntry(m: SmsMessage, credentials: (string, string), f: Field)
    ensures f in ObjectMap(m, credentials) <==> Present(m, f)
    ensures Present(m, f) ==> ObjectMap(m, credentials)[f] == Value(m, credentials, f)
  {
    FieldListed(f);
  }

  /** `AllFields` lists every field. */
  lemma FieldListed(f: Field)
    ensures f in AllFields
  {
    match f
    case ApiKey => case ApiSecret => case FromField => case ToField => case TypeField =>
    case TextField => case StatusReportReq => case ClientRef => case NetworkCodeField =>
    case VCardField => case VCalField => case Ttl => case MessageClassField =>
    case BodyField => case UdhField => case TitleField => case UrlField => case ValidityField =>
  }

  const AllFields: set<Field> := {
    ApiKey, ApiSecret, FromField, ToField, TypeField, TextField, StatusReportReq,
    ClientRef, NetworkCodeField, VCardField, VCalField, Ttl, MessageClassField,
    BodyField, UdhField, TitleField, UrlField, ValidityField}

  /** A field is written unless it is tagged `omitempty` and holds its zero value. */
  predicate Present(m: SmsMessage, f: Field)
  {
    match f
    case ApiKey | ApiSecret | FromField | ToField | TypeField => true
    case TextField => m.text != ""
    case StatusReportReq => m.statusReportRequired != 0
    case ClientRef => m.clientReference != ""
    case NetworkCodeField => m.networkCode != ""
    case VCardField => m.vcard != ""
    case VCalField => m.vcal != ""
    case Ttl => m.ttl != 0
    case MessageClassField => m.messageClass != 0
    case BodyField => |m.body| > 0
    case UdhField => |m.udh| > 0
    case TitleField => m.title != ""
    case UrlField => m.url != ""
    case ValidityField => m.validity != 0
  }

  /** The value each field is written with. */
  function Value(m: SmsMessage, credentials: (string, string), f: Field): JsonValue
  {
    match f
    case ApiKey => JString(credentials.0)
    case ApiSecret => JString(credentials.1)
    case FromField => JString(m.from)
    case ToField => JString(m.to)
    case TypeField => JString(m.kind)
    case TextField => JString(m.text)
    case StatusReportReq => JInt(m.statusReportRequired)
    case ClientRef => JString(m.clientReference)
    case NetworkCodeField => JString(m.networkCode)
    case VCardField => JString(m.vcard)
    case VCalField => JString(m.vcal)
    case Ttl => JInt(m.ttl)
    case MessageClassField => JInt(m.messageClass)
    case BodyField => JBytes(m.body)
    case UdhField => JBytes(m.udh)
    case TitleField => JString(m.title)
    case UrlField => JString(m.url)
    case ValidityField => JInt(m.validity)
  }

  /** A flash message (class 0) is sent without a class: the zero class is omitted. */
  lemma FlashClassIsOmitted(m: SmsMessage, credentials: (string, string))
    requires m.messageClass == Flash
    ensures MessageClassField !in Object(m, credentials)
  {
    ObjectOptionalFields(m, credentials);
  }

  const SmsPath: string := "/sms/json"

  /** The request `Send` posts, or the check that stopped it. */
  function SmsRequest(c: Client, m: SmsMessage): (r: Result<Request<JsonObject<Field>>>)
    ensures r.Err? <==> Validate(m).Some?
    ensures r.Err? ==> r.error == Validate(m).value
    ensures r.Ok? ==> r.value.url == ApiRoot + SmsPath && r.value.contentType == JsonContentType
    ensures r.Ok? ==> r.value.payload == Object(m, Credentials(c))
  {
    match Validate(m)
    case Some(e) => Err(e)
    case None => Ok(Request(ApiRoot + SmsPath, JsonContentType, Object(m, Credentials(c))))
  }

  /**
   `SMS.Send`: after the checks, post the object and decode whatever body was
   read (an error while reading is ignored; the decoder then sees the
   partial body).
   */
  function Send(c: Client, m: SmsMessage, exchange: Request<JsonObject<Field>> -> Answer,
                decode: string -> Result<MessageResponse>): (r: Result<MessageResponse>)
    ensures Validate(m).Some? ==> r == Err(Validate(m).value)
    ensures Validate(m).None? ==>
              var a := exchange(SmsRequest(c, m).value);
              (!a.Responded? ==> r == Err(a.error)) && (a.Responded? ==> r == decode(a.body))
  {
    var request :- SmsRequest(c, m);
    var a := exchange(request);
    if a.Responded? then decode(a.body) else Err(a.error)
  }

  /** Without OAuth the client's own key and secret travel in the object. */
  lemma SendCarriesCredentials(c: Client, m: SmsMessage)
    requires !c.useOauth && Validate(m).None?
    ensures SmsRequest(c, m).value.payload[ApiKey] == JString(c.apiKey)
    ensures SmsRequest(c, m).value.payload[ApiSecret] == JString(c.apiSecret)
  {
  }
}
