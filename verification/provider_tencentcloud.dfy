/**
 The Tencent Cloud provider (`provider/tencentcloud/tencentcloud.go`):
 optional byte-length truncation of the text, and which outcomes of the SDK
 call become errors. The message text is a string of characters; the
 truncation works on its UTF-8 bytes, as Go's `len` and slicing do, and
 may cut a character in two.
 */
module TencentCloudProvider {
  import opened Wrappers
  import opened Sachet
  import Utf8

  /** A Go string as `len` and slicing see it. */
  type Bytes = seq<Utf8.byte>

  const SuffixText: string := "..." + "\ntoo many text truncated, show detail on alert platform"

  /** What `truncateString` appends to a cut text. */
  const Suffix: Bytes := Utf8.Encode(SuffixText)

  /** The length `Send` cuts to when truncation is configured. */
  const Limit: nat := 400

  /**
   `truncateString`: a text within `num` bytes is kept; a longer one keeps
   its first `num - 3` bytes (its first `num` when `num` is 3 or less) and
   gets the suffix.
   */
  function TruncateString(s: Bytes, num: int): (r: Bytes)
    requires num >= 0
    ensures |s| <= num ==> r == s
    ensures |s| > num ==> r == s[..KeptBytes(num)] + Suffix
  {
    if |s| > num then
      var keep := if num > 3 then num - 3 else num;
      s[..keep] + Suffix
    else s
  }

  /** How many bytes of a long text survive the cut. */
  function KeptBytes(num: nat): (k: nat)
    ensures k <= num
    ensures num > 3 ==> k + 3 == num
    ensures num <= 3 ==> k == num
  {
    if num > 3 then num - 3 else num
  }

  /**
   A cut text starts with a prefix of the original and is never longer than
   `num` bytes plus the suffix; the three dots take the place of three kept
   bytes when there is room for them.
   */
  lemma TruncateBounds(s: Bytes, num: int)
    requires num >= 0
    ensures var r := TruncateString(s, num);
            && |r| <= num + |Suffix|
            && (|s| > num ==> r[..KeptBytes(num)] == s[..KeptBytes(num)] && r[KeptBytes(num)..] == Suffix)
            && (|s| > num && num > 3 ==> |r| == num - 3 + |Suffix|)
  {
    if |s| > num {
      var k := KeptBytes(num);
      var r := TruncateString(s, num);
      assert r == s[..k] + Suffix;
      assert r[..k] == s[..k];
      assert r[k..] == Suffix;
    }
  }

  /** Text within the limit is never touched, so truncating it again changes nothing. */
  lemma TruncateShortIsIdentity(s: Bytes, num: int)
    requires num >= 0 && |s| <= num
    ensures TruncateString(TruncateString(s, num), num) == s
  {
  }

  datatype Config = Config(secretId: string, secretKey: string, appId: string, region: string,
                           endpoint: string, signName: string, templateCode: string, truncate: bool)

  /** `SendSmsRequest` as `Send` fills it in. */
  datatype SmsRequest = SmsRequest(appId: string, sign: string, templateParams: seq<Bytes>,
                                   templateId: string, phoneNumbers: seq<string>)

  /** The SDK call's outcome: delivered, an error the SDK reports as its own, or another error. */
  datatype Outcome = Delivered | SdkError(message: string) | OtherError(message: string)

  predicate IsText(kind: string)
  {
    kind == "" || kind == "text"
  }

  /**
   The bytes that go into the template: the text's UTF-8 encoding, cut to
   its first 397 bytes plus the suffix only when truncation is configured
   and the encoding is longer than 400 bytes.
   */
  function SendText(c: Config, text: string): (r: Bytes)
    ensures !c.truncate || |Utf8.Encode(text)| <= Limit ==> r == Utf8.Encode(text)
    ensures c.truncate && |Utf8.Encode(text)| > Limit ==>
              r == Utf8.Encode(text)[..Limit - 3] + Suffix && |r| == Limit - 3 + |Suffix|
  {
    var bytes := Utf8.Encode(text);
    if c.truncate then TruncateString(bytes, Limit) else bytes
  }

  /** The suffix's first byte is the dot that starts it. */
  lemma SuffixStartsWithDot()
    ensures Suffix[0] as int == '.' as int
  {
    assert SuffixText == "." + SuffixText[1..];
    Utf8.EncodeAppend(".", SuffixText[1..]);
  }

  /**
   For ASCII text the byte cut is a character cut: a text of more than 400
   characters keeps exactly its first 397 characters.
   */
  lemma AsciiTextKeepsCharacters(c: Config, text: string)
    requires c.truncate && |text| > Limit
    requires forall i :: 0 <= i < |text| ==> text[i] as int < 0x80
    ensures SendText(c, text) == Utf8.Encode(text[..Limit - 3]) + Suffix
  {
    Utf8.AsciiEncode(text);
    Utf8.AsciiPrefix(text, Limit - 3);
  }

  /**
   The limit counts bytes, not characters: 150 copies of a three-byte
   character are well within 400 characters but take 450 bytes, so the text
   is cut. The 397 bytes kept are 132 whole characters and the lead byte of
   the 133rd, whose continuation bytes are dropped and replaced by the
   suffix's first dot: the cut splits a character.
   */
  lemma WideTextIsCut(c: Config)
    requires c.truncate
    ensures var text := seq(150, _ => '\U{544A}');
            var r := SendText(c, text);
            && |text| <= Limit
            && |Utf8.Encode(text)| == 450
            && r != Utf8.Encode(text)
            && r[Limit - 4] >= 0xC0
            && !Utf8.IsContinuation(r[Limit - 3])
  {
    var ch := '\U{544A}';
    var text := seq(150, _ => ch);
    assert Utf8.Width(ch) == 3;
    Utf8.EncodeRun(ch, 150);
    var head, tail := seq(132, _ => ch), seq(18, _ => ch);
    assert text == head + tail;
    Utf8.EncodeAppend(head, tail);
    Utf8.EncodeRun(ch, 132);
    assert tail == [ch] + tail[1..];
    Utf8.EncodeAppend([ch], tail[1..]);
    assert Utf8.Encode([ch]) == Utf8.EncodeChar(ch);
    SuffixStartsWithDot();
    var r := SendText(c, text);
    assert r[Limit - 4] == Utf8.Encode(text)[396] == Utf8.EncodeChar(ch)[0];
    assert r[Limit - 3] == Suffix[0];
  }

  /** The request of a text message; other types make no request. */
  function Prepare(c: Config, m: Message): (r: Option<SmsRequest>)
    ensures r.Some? <==> IsText(m.kind)
    ensures r.Some? ==> r.value.phoneNumbers == m.to && r.value.templateParams == [SendText(c, m.text)]
    ensures r.Some? ==> r.value.appId == c.appId && r.value.sign == c.signName && r.value.templateId == c.templateCode
  {
    if IsText(m.kind) then Some(SmsRequest(c.appId, c.signName, [SendText(c, m.text)], c.templateCode, m.to))
    else None
  }

  /**
   `TencentCloud.Send`: only text messages are sent; an SDK error is
   returned; otherwise only a failure to re-encode the response (`marshal`)
   is. Any other error of the call is dropped.
   */
  function Send(c: Config, m: Message, sdk: SmsRequest -> Outcome, marshal: SmsRequest -> Status): (r: Status)
    ensures !IsText(m.kind) ==> r.None?
    ensures IsText(m.kind) && sdk(Prepare(c, m).value).SdkError? ==> r == Some(sdk(Prepare(c, m).value).message)
    ensures IsText(m.kind) && !sdk(Prepare(c, m).value).SdkError? ==> r == marshal(Prepare(c, m).value)
  {
    match Prepare(c, m)
    case None => None
    case Some(req) =>
      if sdk(req).SdkError? then Some(sdk(req).message) else marshal(req)
  }

  /** A failure that is not the SDK's own is reported as success whenever the response re-encodes. */
  lemma OtherErrorsAreSilent(c: Config, m: Message, sdk: SmsRequest -> Outcome, marshal: SmsRequest -> Status)
    requires IsText(m.kind)
    requires sdk(Prepare(c, m).value).OtherError? && marshal(Prepare(c, m).value).None?
    ensures Send(c, m, sdk, marshal).None?
  {
  }

  /** Without truncation configured, the text reaches the template byte for byte. */
  lemma UntruncatedTextIsVerbatim(c: Config, m: Message)
    requires IsText(m.kind) && !c.truncate
    ensures Prepare(c, m).value.templateParams == [Utf8.Encode(m.text)]
  {
  }
}
