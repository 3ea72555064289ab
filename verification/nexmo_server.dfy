/**
 The inbound side of the Nexmo client library (`gonexmo` `server.go`): the
 names of the message types, and what the handler for incoming messages does
 with a callback request. The handler's reads of the request's form go through
 `UrlValues.Get`; percent-decoding, `net.SplitHostPort` and `time.Parse` are
 parameters.
 */
module NexmoServer {
  import opened Wrappers
  import opened UrlValues
  import Decimal
  import NexmoIp

  // ---------------------------------------------------------------------
  // Message types
  // ---------------------------------------------------------------------

  /** The values of `MessageType`. */
  const TextMessage: int := 1
  const UnicodeMessage: int := 2
  const BinaryMessage: int := 3

  /** `MessageType.String`: the name of a type, `"undefined"` outside 1..3. */
  function TypeName(m: int): (r: string)
    ensures m < 1 || m > 3 <==> r == "undefined"
    ensures m == TextMessage <==> r == "text"
    ensures m == UnicodeMessage <==> r == "unicode"
    ensures m == BinaryMessage <==> r == "binary"
  {
    if m < 1 || m > 3 then "undefined"
    else if m == TextMessage then "text"
    else if m == UnicodeMessage then "unicode"
    else "binary"
  }

  /**
   A lookup in the name-to-type map as written: the unicode key is misspelt
   `"unicdoe"`. A missing key gives Go's zero value, 0. Nothing in the
   package reads this map (the handler switches on the form's type text),
   so the misspelling is a latent defect that changes no behaviour today.
   */
  function ParseTypeAsWritten(s: string): (r: int)
    ensures r != 0 <==> s == "text" || s == "unicdoe" || s == "binary"
    ensures s == "unicdoe" ==> r == UnicodeMessage
  {
    if s == "text" then TextMessage
    else if s == "unicdoe" then UnicodeMessage
    else if s == "binary" then BinaryMessage
    else 0
  }

  /** The name `String` gives the unicode type is not a key of the map as written. */
  lemma UnicodeNameIsNotAKey()
    ensures TypeName(UnicodeMessage) == "unicode"
    ensures ParseTypeAsWritten(TypeName(UnicodeMessage)) == 0
    ensures TypeName(ParseTypeAsWritten(TypeName(UnicodeMessage))) == "undefined"
  {
  }

  /** The name-to-type map with the key spelt as `String` spells it. */
  function ParseType(s: string): (r: int)
    ensures r != 0 <==> s == "text" || s == "unicode" || s == "binary"
    ensures 0 <= r <= 3
  {
    if s == "text" then TextMessage
    else if s == "unicode" then UnicodeMessage
    else if s == "binary" then BinaryMessage
    else 0
  }

  /** The corrected map and `String` are inverse on the three types and their names. */
  lemma ParseTypeRoundTrip(m: int, s: string)
    ensures 1 <= m <= 3 ==> ParseType(TypeName(m)) == m
    ensures ParseType(s) != 0 ==> TypeName(ParseType(s)) == s
  {
  }

  // ---------------------------------------------------------------------
  // The inbound message handler
  // ---------------------------------------------------------------------

  /** What Nexmo's callback request brings: the peer address, the raw query and the parsed form. */
  datatype Callback = Callback(remoteAddr: string, rawQuery: string, form: Values)

  /** The parts of a concatenated message. */
  datatype Concat = Concat(reference: string, total: int, part: int)

  /** What a message's type decides: the type and the decoded text, or data and header. */
  datatype Content = Content(kind: int, text: string, data: string, udh: string)

  /** `RecvdMessage`; the timestamp is whatever the time parser returned. */
  datatype RecvdMessage<Time> = RecvdMessage(
    content: Content,
    to: string,
    msisdn: string,
    networkCode: string,
    id: string,
    keyword: string,
    timestamp: Time,
    concatenated: bool,
    concat: Concat)

  /** How the handler ends: a 500 response, a plain 200 with nothing passed on, or a message passed on. */
  datatype Handled<Time> = ServerError | Ignored | Received(message: RecvdMessage<Time>)

  /**
   The source check, when asked for: the host part of the peer address must
   split off and be one of Nexmo's addresses.
   */
  predicate Admitted(verifyIPs: bool, remoteAddr: string, splitHost: string -> Result<string>)
  {
    !verifyIPs || (splitHost(remoteAddr).Ok? && NexmoIp.IsTrustedIP(splitHost(remoteAddr).value))
  }

  /**
   The switch on the form's type: text and unicode decode the text, binary
   decodes data and header, anything else (the empty type included) fails,
   and so does any field that does not decode.
   */
  function DecodeContent(form: Values, unescape: string -> Option<string>): (r: Option<Content>)
    ensures r.Some? ==> ParseType(Get(form, "type")) == r.value.kind && 1 <= r.value.kind <= 3
    ensures r.Some? ==> TypeName(r.value.kind) == Get(form, "type")
    ensures ParseType(Get(form, "type")) == 0 ==> r.None?
    ensures r.Some? && r.value.kind != BinaryMessage ==>
              unescape(Get(form, "text")) == Some(r.value.text) && r.value.data == "" && r.value.udh == ""
    ensures r.Some? && r.value.kind == BinaryMessage ==>
              unescape(Get(form, "data")) == Some(r.value.data) && unescape(Get(form, "udh")) == Some(r.value.udh)
              && r.value.text == ""
    ensures ParseType(Get(form, "type")) == BinaryMessage ==>
              (r.Some? <==> unescape(Get(form, "data")).Some? && unescape(Get(form, "udh")).Some?)
    ensures ParseType(Get(form, "type")) in {TextMessage, UnicodeMessage} ==>
              (r.Some? <==> unescape(Get(form, "text")).Some?)
  {
    var kind := Get(form, "type");
    if kind == "text" || kind == "unicode" then
      match unescape(Get(form, "text"))
      case None => None
      case Some(text) => Some(Content(if kind == "text" then TextMessage else UnicodeMessage, text, "", ""))
    else if kind == "binary" then
      match (unescape(Get(form, "data")), unescape(Get(form, "udh")))
      case (Some(data), Some(udh)) => Some(Content(BinaryMessage, "", data, udh))
      case _ => None
    else None
  }

  /**
   The concatenation fields, read only when `concat` is `"true"`; total and
   part must then parse as integers.
   */
  function DecodeConcat(form: Values): (r: Option<(bool, Concat)>)
    ensures Get(form, "concat") != "true" ==> r == Some((false, Concat("", 0, 0)))
    ensures Get(form, "concat") == "true" ==>
              (r.Some? <==> Decimal.Atoi(Get(form, "concat-total")).Some? && Decimal.Atoi(Get(form, "concat-part")).Some?)
    ensures Get(form, "concat") == "true" && r.Some? ==>
              r.value.0 && r.value.1.reference == Get(form, "concat-ref")
              && Some(r.value.1.total) == Decimal.Atoi(Get(form, "concat-total"))
              && Some(r.value.1.part) == Decimal.Atoi(Get(form, "concat-part"))
  {
    if Get(form, "concat") != "true" then Some((false, Concat("", 0, 0)))
    else
      match (Decimal.Atoi(Get(form, "concat-total")), Decimal.Atoi(Get(form, "concat-part")))
      case (Some(total), Some(part)) => Some((true, Concat(Get(form, "concat-ref"), total, part)))
      case _ => None
  }

  /**
   `NewMessageHandler`'s handler on one request: the source check, then the
   empty-query probe, then the content, the plain fields, the timestamp and the
   concatenation fields; any failure is a 500.
   */
  function HandleMessage<Time>(verifyIPs: bool, req: Callback, splitHost: string -> Result<string>,
                               unescape: string -> Option<string>, parseTime: string -> Option<Time>): (r: Handled<Time>)
    ensures !Admitted(verifyIPs, req.remoteAddr, splitHost) ==> r.ServerError?
    ensures Admitted(verifyIPs, req.remoteAddr, splitHost) && req.rawQuery == "" ==> r.Ignored?
    ensures r.Ignored? ==> req.rawQuery == ""
    ensures r.Received? <==>
              Admitted(verifyIPs, req.remoteAddr, splitHost) && req.rawQuery != ""
              && DecodeContent(req.form, unescape).Some?
              && unescape(Get(req.form, "message-timestamp")).Some?
              && parseTime(unescape(Get(req.form, "message-timestamp")).value).Some?
              && DecodeConcat(req.form).Some?
    ensures r.Received? ==>
              r.message.content == DecodeContent(req.form, unescape).value
              && r.message.to == Get(req.form, "to") && r.message.msisdn == Get(req.form, "msisdn")
              && r.message.networkCode == Get(req.form, "network-code") && r.message.id == Get(req.form, "messageId")
              && r.message.keyword == Get(req.form, "keyword")
              && Some(r.message.timestamp) == parseTime(unescape(Get(req.form, "message-timestamp")).value)
              && (r.message.concatenated, r.message.concat) == DecodeConcat(req.form).value
  {
    if !Admitted(verifyIPs, req.remoteAddr, splitHost) then ServerError
    else if req.rawQuery == "" then Ignored
    else
      var form := req.form;
      match DecodeContent(form, unescape)
      case None => ServerError
      case Some(content) =>
        match unescape(Get(form, "message-timestamp"))
        case None => ServerError
        case Some(t) =>
          match parseTime(t)
          case None => ServerError
          case Some(timestamp) =>
            match DecodeConcat(form)
            case None => ServerError
            case Some(concat) =>
              Received(RecvdMessage(content, Get(form, "to"), Get(form, "msisdn"), Get(form, "network-code"),
                                    Get(form, "messageId"), Get(form, "keyword"), timestamp, concat.0, concat.1))
  }

  /**
   Every message passed on carries a type whose name is the form's type, so
   the corrected map gives the type back from the name the handler saw. The
   handler never consults the map; were it to, the map as written would give
   back every type except unicode.
   */
  lemma ReceivedTypeRoundTrips<Time>(verifyIPs: bool, req: Callback, splitHost: string -> Result<string>,
                                     unescape: string -> Option<string>, parseTime: string -> Option<Time>)
    requires HandleMessage(verifyIPs, req, splitHost, unescape, parseTime).Received?
    ensures var m := HandleMessage(verifyIPs, req, splitHost, unescape, parseTime).message;
            TypeName(m.content.kind) == Get(req.form, "type") && ParseType(TypeName(m.content.kind)) == m.content.kind
    ensures var m := HandleMessage(verifyIPs, req, splitHost, unescape, parseTime).message;
            ParseTypeAsWritten(TypeName(m.content.kind)) == m.content.kind <==> m.content.kind != UnicodeMessage
  {
  }

  /** A request with a type other than text, unicode or binary is refused whatever else it holds. */
  lemma UnknownTypeRefused<Time>(verifyIPs: bool, req: Callback, splitHost: string -> Result<string>,
                                 unescape: string -> Option<string>, parseTime: string -> Option<Time>)
    requires req.rawQuery != "" && ParseType(Get(req.form, "type")) == 0
    ensures HandleMessage(verifyIPs, req, splitHost, unescape, parseTime).ServerError?
  {
  }

  /** With the source check off, the peer address plays no part. */
  lemma AddressIgnoredWithoutCheck<Time>(req: Callback, addr: string, splitHost: string -> Result<string>,
                                         unescape: string -> Option<string>, parseTime: string -> Option<Time>)
    ensures HandleMessage(false, req, splitHost, unescape, parseTime) ==
            HandleMessage(false, req.(remoteAddr := addr), splitHost, unescape, parseTime)
  {
  }
}
