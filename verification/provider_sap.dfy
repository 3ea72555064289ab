/**
 The SAP mobile services provider (`provider/sap/sap.go`): the text is put
 on one line and placed, with the comma-joined recipients, into a fixed
 line-oriented request body; only status 200 counts as delivered. Building
 the HTTP request and sending it are parameters.
 */
module SapProvider {
  import opened Wrappers
  import opened Sachet
  import Text
  import Decimal

  const DefaultUrl: string := "https://sms-pp.sapmobileservices.com/cmn/xxxxxxxxxx/xxxxxxxxxxx.sms"

  datatype Config = Config(url: string, authHash: string)

  /** `NewSap`: the default endpoint stands in for an empty URL only. */
  function New(c: Config): (r: Config)
    ensures c.url == "" ==> r.url == DefaultUrl
    ensures c.url != "" ==> r.url == c.url
    ensures r.url != "" && r.authHash == c.authHash
  {
    if c.url == "" then c.(url := DefaultUrl) else c
  }

  /** The lines of the request body, in order. */
  function BodyLines(list: string, text: string): (r: seq<string>)
    ensures |r| == 9 && r[3] == "List=" + list && r[5] == "Text=" + text
  {
    ["Version=2.0", "Subject=Alert", "[MSISDN]", "List=" + list,
     "[MESSAGE]", "Text=" + text, "[SETUP]", "SplitText=yes", "[END]"]
  }

  /** The `fmt.Sprintf` template of the request body with its two holes filled in. */
  function Body(to: seq<string>, text: string): string
  {
    "Version=2.0" + "\n" + "Subject=Alert" + "\n" + "[MSISDN]" + "\n" + ("List=" + Text.Join(to, ","))
    + "\n" + "[MESSAGE]" + "\n" + ("Text=" + OneLine(text)) + "\n" + "[SETUP]" + "\n" + "SplitText=yes" + "\n" + "[END]"
  }

  /** Joining nine lines puts one break between each two. */
  lemma JoinNine(l: seq<string>, b: string)
    requires |l| == 9
    ensures Text.Join(l, b) == l[0] + b + l[1] + b + l[2] + b + l[3] + b + l[4] + b + l[5] + b + l[6] + b + l[7] + b + l[8]
  {
    assert Text.Join(l[..1], b) == l[0];
    JoinPrefixStep(l, 2, b);
    JoinPrefixStep(l, 3, b);
    JoinPrefixStep(l, 4, b);
    JoinPrefixStep(l, 5, b);
    JoinPrefixStep(l, 6, b);
    JoinPrefixStep(l, 7, b);
    JoinPrefixStep(l, 8, b);
    JoinPrefixStep(l, 9, b);
    assert l[..9] == l;
  }

  /** Joining the first `k` lines is joining the first `k - 1`, a break, and line `k - 1`. */
  lemma JoinPrefixStep(l: seq<string>, k: nat, b: string)
    requires 2 <= k <= |l|
    ensures Text.Join(l[..k], b) == Text.Join(l[..k - 1], b) + b + l[k - 1]
  {
    Text.JoinSnoc(l[..k], b);
    assert l[..k][..k - 1] == l[..k - 1];
  }

  /** The body is its nine lines joined with line breaks. */
  lemma BodyIsLines(to: seq<string>, text: string)
    ensures Body(to, text) == Text.Join(BodyLines(Text.Join(to, ","), OneLine(text)), "\n")
  {
    var l := BodyLines(Text.Join(to, ","), OneLine(text));
    JoinNine(l, "\n");
    assert l[0] == "Version=2.0" && l[1] == "Subject=Alert" && l[2] == "[MSISDN]";
    assert l[4] == "[MESSAGE]" && l[6] == "[SETUP]" && l[7] == "SplitText=yes" && l[8] == "[END]";
  }

  /**
   As long as no recipient contains a line break, the body reads back as
   exactly nine lines, and the recipient list and the text each sit whole on
   their own line: the sanitising keeps the text from breaking the format.
   */
  lemma BodyReadsBack(to: seq<string>, text: string)
    requires Text.Free(to, '\n')
    ensures Text.Split(Body(to, text), '\n') == BodyLines(Text.Join(to, ","), OneLine(text))
    ensures Text.Split(Body(to, text), '\n')[3] == "List=" + Text.Join(to, ",")
    ensures Text.Split(Body(to, text), '\n')[5] == "Text=" + OneLine(text)
  {
    var list := Text.Join(to, ",");
    Text.JoinFree(to, ",", '\n');
    var lines := BodyLines(list, OneLine(text));
    assert Text.Free(lines, '\n') by {
      forall i | 0 <= i < |lines|
        ensures '\n' !in lines[i]
      {
        if i == 3 {
          assert lines[3] == "List=" + list;
        } else if i == 5 {
          assert lines[5] == "Text=" + OneLine(text);
        }
      }
    }
    BodyIsLines(to, text);
    Text.SplitJoin(lines, '\n');
  }

  /** The request `Send` builds: a POST to the endpoint with the basic-auth header. */
  datatype Request = Request(url: string, authorization: string, body: string)

  /** The HTTP side: building the request can fail; sending it gives a status code or an error. */
  datatype Api = Api(newRequest: string -> Status, transport: Request -> Result<int>)

  /** The error for a status other than 200. */
  function StatusError(code: int): string
  {
    "Failed sending sms. statusCode: " + Decimal.FormatInt(code)
  }

  /** `Sap.Send`: any error of building or sending the request, then the status check. */
  function Send(c: Config, m: Message, api: Api): (r: Status)
    ensures api.newRequest(c.url).Some? ==> r == api.newRequest(c.url)
    ensures api.newRequest(c.url).None? ==>
              var req := Request(c.url, "Basic " + c.authHash, Body(m.to, m.text));
              && (api.transport(req).Err? ==> r == Some(api.transport(req).error))
              && (api.transport(req).Ok? && api.transport(req).value == 200 ==> r.None?)
              && (api.transport(req).Ok? && api.transport(req).value != 200 ==>
                    r == Some(StatusError(api.transport(req).value)))
  {
    if api.newRequest(c.url).Some? then api.newRequest(c.url)
    else
      var req := Request(c.url, "Basic " + c.authHash, Body(m.to, m.text));
      match api.transport(req)
      case Err(e) => Some(e)
      case Ok(code) => if code == 200 then None else Some(StatusError(code))
  }

  /** A message is delivered exactly when the request is built, sent, and answered with 200. */
  lemma SendSucceedsIff(c: Config, m: Message, api: Api)
    ensures Send(c, m, api).None? <==>
              && api.newRequest(c.url).None?
              && api.transport(Request(c.url, "Basic " + c.authHash, Body(m.to, m.text))) == Ok(200)
  {
  }

  /** Two status errors are equal only for the same code: the code can be read off the error. */
  lemma StatusErrorNamesCode(a: int, b: int)
    requires StatusError(a) == StatusError(b)
    ensures a == b
  {
    var prefix := "Failed sending sms. statusCode: ";
    assert StatusError(a)[|prefix|..] == Decimal.FormatInt(a);
    assert StatusError(b)[|prefix|..] == Decimal.FormatInt(b);
    Decimal.FormatIntInjective(a, b);
  }
}
