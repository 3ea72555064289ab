/**
 The sms77.io client library (`sms77api`): its defaults, the checks and
 the payload encoding of its one request function, the reading of the
 status resource's two-line answer, and its small reflection helpers.
 The HTTP exchange and `url.Values.Encode` are parameters.
 */
module Sms77Api {
  import opened Wrappers
  import opened GoMaps
  import Text
  import Decimal

  const DefaultSentWith: string := "go-client"
  const BaseUri: string := "https://gateway.sms77.io/api/"

  datatype Options = Options(apiKey: string, debug: bool, sentWith: string)

  /** `New`: an empty `SentWith` becomes the library's own name; the rest is kept. */
  function New(o: Options): (r: Options)
    ensures o.sentWith == "" ==> r.sentWith == DefaultSentWith
    ensures o.sentWith != "" ==> r.sentWith == o.sentWith
    ensures r.apiKey == o.apiKey && r.debug == o.debug && r.sentWith != ""
  {
    if o.sentWith == "" then o.(sentWith := DefaultSentWith) else o
  }

  /**
   A request parameter after the JSON round trip `request` puts its data
   through: `null`, a boolean, a list of objects (each given as its fields
   in the order Go ranges over them, with their `%v` text), or any other
   value as `%v` prints it.
   */
  datatype Value = Null | Flag(b: bool) | List(items: seq<seq<(string, string)>>) | Shown(text: string)

  /** The name a field of a list element is sent under: `k[i][field]`. */
  function ListKey(k: string, i: nat, field: string): (r: string)
    ensures r == k + "[" + Decimal.FormatInt(i) + "][" + field + "]"
    ensures k + "[" <= r
  {
    k + "[" + Decimal.FormatInt(i) + "][" + field + "]"
  }

  /** The fields of the list element at `index`. */
  function ItemPairs(k: string, index: nat, fields: seq<(string, string)>): (r: seq<(string, string)>)
    ensures |r| == |fields|
    ensures forall j :: 0 <= j < |fields| ==> r[j] == (ListKey(k, index, fields[j].0), fields[j].1)
  {
    seq(|fields|, j requires 0 <= j < |fields| => (ListKey(k, index, fields[j].0), fields[j].1))
  }

  /** The entries of a list value, its elements numbered from `start`. */
  function ListPairs(k: string, items: seq<seq<(string, string)>>, start: nat): (r: seq<(string, string)>)
    ensures forall p :: p in r ==> k + "[" <= p.0
  {
    if |items| == 0 then []
    else ItemPairs(k, start, items[0]) + ListPairs(k, items[1..], start + 1)
  }

  /** The entry for field `j` of element `i` of a list. */
  function ListEntry(k: string, items: seq<seq<(string, string)>>, start: nat, i: nat, j: nat): (string, string)
    requires i < |items| && j < |items[i]|
  {
    (ListKey(k, start + i, items[i][j].0), items[i][j].1)
  }

  /** Every field of every element is sent. */
  lemma {:induction false} ListPairsHas(k: string, items: seq<seq<(string, string)>>, start: nat, i: nat, j: nat)
    requires i < |items| && j < |items[i]|
    ensures ListEntry(k, items, start, i, j) in ListPairs(k, items, start)
    decreases i
  {
    if i == 0 {
      assert ItemPairs(k, start, items[0])[j] == ListEntry(k, items, start, i, j);
    } else {
      assert items[1..][i - 1] == items[i];
      assert ListEntry(k, items[1..], start + 1, i - 1, j) == ListEntry(k, items, start, i, j);
      ListPairsHas(k, items[1..], start + 1, i - 1, j);
    }
  }

  /** Nothing but the fields of the elements is sent. */
  lemma {:induction false} ListPairsOnly(k: string, items: seq<seq<(string, string)>>, start: nat, p: (string, string))
    requires p in ListPairs(k, items, start)
    ensures exists i: nat, j: nat :: i < |items| && j < |items[i]| && p == ListEntry(k, items, start, i, j)
    decreases |items|
  {
    if p in ItemPairs(k, start, items[0]) {
      var j :| 0 <= j < |items[0]| && ItemPairs(k, start, items[0])[j] == p;
      assert p == ListEntry(k, items, start, 0, j);
    } else {
      ListPairsOnly(k, items[1..], start + 1, p);
      var i: nat, j: nat :| i < |items[1..]| && j < |items[1..][i]| && p == ListEntry(k, items[1..], start + 1, i, j);
      ListEntryShift(k, items, start, i, j);
      assert i + 1 < |items| && j < |items[i + 1]| && p == ListEntry(k, items, start, i + 1, j);
    }
  }

  /** Element `i` of the tail, numbered from `start + 1`, is element `i + 1` of the list. */
  lemma ListEntryShift(k: string, items: seq<seq<(string, string)>>, start: nat, i: nat, j: nat)
    requires |items| > 0 && i < |items[1..]| && j < |items[1..][i]|
    ensures i + 1 < |items| && j < |items[i + 1]|
    ensures ListEntry(k, items[1..], start + 1, i, j) == ListEntry(k, items, start, i + 1, j)
  {
    assert items[1..][i] == items[i + 1];
  }

  /** A list value sends exactly the fields of its elements, each under its element's number. */
  lemma ListPairsMembership(k: string, items: seq<seq<(string, string)>>, p: (string, string))
    ensures p in ListPairs(k, items, 0) <==>
              exists i: nat, j: nat :: i < |items| && j < |items[i]| &&
                                       p == (ListKey(k, i, items[i][j].0), items[i][j].1)
  {
    if p in ListPairs(k, items, 0) {
      ListPairsOnly(k, items, 0, p);
    }
    if exists i: nat, j: nat :: i < |items| && j < |items[i]| && p == (ListKey(k, i, items[i][j].0), items[i][j].1) {
      var i: nat, j: nat :| i < |items| && j < |items[i]| && p == (ListKey(k, i, items[i][j].0), items[i][j].1);
      ListPairsHas(k, items, 0, i, j);
    }
  }

  /**
   The query entries one parameter adds: none for `null`, `"1"` or `"0"`
   for a boolean, `k[i][field]` entries for a list, the printed value
   otherwise.
   */
  function Pairs(k: string, v: Value): (r: seq<(string, string)>)
    ensures v.Null? ==> r == []
    ensures v.Flag? ==> r == [(k, if v.b then "1" else "0")]
    ensures v.Shown? ==> r == [(k, v.text)]
    ensures v.List? ==> r == ListPairs(k, v.items, 0)
  {
    match v
    case Null => []
    case Flag(b) => [(k, if b then "1" else "0")]
    case Shown(t) => [(k, t)]
    case List(items) => ListPairs(k, items, 0)
  }

  /** The query entries of all parameters, in the order Go ranges over them. */
  function Payload(data: map<string, Value>, keys: seq<string>): (r: seq<(string, string)>)
    requires forall i :: 0 <= i < |keys| ==> keys[i] in data
  {
    if |keys| == 0 then []
    else Pairs(keys[0], data[keys[0]]) + Payload(data, keys[1..])
  }

  /** An entry is in the payload exactly when one of the listed parameters adds it. */
  lemma {:induction false} PayloadMembership(data: map<string, Value>, keys: seq<string>, p: (string, string))
    requires forall i :: 0 <= i < |keys| ==> keys[i] in data
    ensures p in Payload(data, keys) <==> exists i :: 0 <= i < |keys| && p in Pairs(keys[i], data[keys[i]])
    decreases |keys|
  {
    if |keys| > 0 {
      PayloadMembership(data, keys[1..], p);
      if exists i :: 0 <= i < |keys| && p in Pairs(keys[i], data[keys[i]]) {
        var i :| 0 <= i < |keys| && p in Pairs(keys[i], data[keys[i]]);
        if i > 0 {
          assert keys[1..][i - 1] == keys[i];
        }
      }
    }
  }

  /**
   Whatever order Go ranges over the parameters in, the payload holds the
   same entries: those of the parameters of the map.
   */
  lemma PayloadOrderFree(data: map<string, Value>, keys: seq<string>, p: (string, string))
    requires Enumerates(keys, data)
    ensures p in Payload(data, keys) <==> exists k :: k in data && p in Pairs(k, data[k])
  {
    EnumerationFacts(keys, data);
    PayloadMembership(data, keys, p);
    if exists k :: k in data && p in Pairs(k, data[k]) {
      var k :| k in data && p in Pairs(k, data[k]);
      assert k in Elems(keys);
    }
  }

  /** The request `initClient` builds. */
  datatype HttpRequest = HttpRequest(verb: string, uri: string, body: string, headers: map<string, string>)

  /** What the exchange gave: no response, a body that could not be read, or the body. */
  datatype Response = TransportFailure(error: string) | ReadFailure(error: string) | Body(text: string)

  /**
   The request for an endpoint: GET carries the encoded payload in the URI
   (only when it is not empty), POST carries it as a form body.
   */
  function BuildRequest(o: Options, endpoint: string, verb: string, qs: string): (r: HttpRequest)
    requires verb == "GET" || verb == "POST"
    ensures r.verb == verb
    ensures verb == "GET" ==> r.body == "" && "Content-Type" !in r.headers
    ensures verb == "GET" && qs == "" ==> r.uri == BaseUri + endpoint
    ensures verb == "GET" && qs != "" ==> r.uri == BaseUri + endpoint + "?" + qs
    ensures verb == "POST" ==>
              r.uri == BaseUri + endpoint && r.body == qs &&
              "Content-Type" in r.headers && r.headers["Content-Type"] == "application/x-www-form-urlencoded"
    ensures "Authorization" in r.headers && r.headers["Authorization"] == "Basic " + o.apiKey
    ensures "sentWith" in r.headers && r.headers["sentWith"] == o.sentWith
  {
    var headers := map["Authorization" := "Basic " + o.apiKey, "sentWith" := o.sentWith];
    if verb == "GET" then
      HttpRequest(verb, if qs != "" then BaseUri + endpoint + "?" + qs else BaseUri + endpoint, "", headers)
    else
      HttpRequest(verb, BaseUri + endpoint, qs, headers["Content-Type" := "application/x-www-form-urlencoded"])
  }

  /**
   Everything `request` does before it looks at the answer: the method and
   key checks, in that order, then the exchange; the answer is the body
   with surrounding white space trimmed.
   */
  function Fetch(o: Options, endpoint: string, verb: string, data: map<string, Value>, keys: seq<string>,
                 encode: seq<(string, string)> -> string, client: HttpRequest -> Response): (r: Result<string>)
    requires forall i :: 0 <= i < |keys| ==> keys[i] in data
    ensures verb != "GET" && verb != "POST" ==> r == Err("unsupported http method " + verb)
    ensures (verb == "GET" || verb == "POST") && o.apiKey == "" ==> r == Err("missing required option ApiKey")
    ensures (verb == "GET" || verb == "POST") && o.apiKey != "" ==>
              var answer := client(BuildRequest(o, endpoint, verb, encode(Payload(data, keys))));
              && (answer.TransportFailure? ==> r == Err("could not execute request! #2 (" + answer.error + ")"))
              && (answer.ReadFailure? ==> r == Err("could not execute request! #3 (" + answer.error + ")"))
              && (answer.Body? ==> r == Ok(Text.TrimSpace(answer.text)))
  {
    if verb != "GET" && verb != "POST" then Err("unsupported http method " + verb)
    else if o.apiKey == "" then Err("missing required option ApiKey")
    else
      match client(BuildRequest(o, endpoint, verb, encode(Payload(data, keys))))
      case TransportFailure(e) => Err("could not execute request! #2 (" + e + ")")
      case ReadFailure(e) => Err("could not execute request! #3 (" + e + ")")
      case Body(text) => Ok(Text.TrimSpace(text))
  }

  /** The status codes the gateway may answer with instead of a result, and their names. */
  const StatusCodes: map<string, string> := map[
    "11" := "ErrorCarrierNotAvailable", "100" := "Success", "101" := "SuccessPartial",
    "201" := "InvalidSender", "202" := "InvalidRecipient", "301" := "MissingParamTo",
    "305" := "MissingParamText", "401" := "ParamTextExceedsLengthLimit",
    "402" := "PreventedByReloadLock", "403" := "ReachedDailyLimitForNumber",
    "500" := "InsufficientCredits", "600" := "ErrorCarrierDelivery", "700" := "ErrorUnknown",
    "900" := "ErrorAuthentication", "902" := "ErrorApiDisabledForKey", "903" := "ErrorServerIp"]

  /**
   A Go `interface{}` as far as `==` on interfaces sees it: its dynamic type
   and value. `Reflected` is a `reflect.Value` wrapping a value.
   */
  datatype Any = Str(s: string) | Code(c: string) | Reflected(of: Any)

  /**
   `pickMapByKey`: the needle is compared with each key as a
   `reflect.Value`; the first that is equal gives the needle and the key's
   value.
   */
  function PickMapByKey(needle: Any, haystack: map<Any, string>): (r: Option<(Any, string)>)
    ensures r.Some? <==> exists k :: k in haystack && needle == Reflected(k)
    ensures r.Some? ==> r.value.0 == needle && r.value.1 == haystack[needle.of]
  {
    if needle.Reflected? && needle.of in haystack then Some((needle, haystack[needle.of])) else None
  }

  /** What `%s` prints for an interface holding a string or a status code. */
  function Show(a: Any): string
  {
    match a
    case Str(s) => s
    case Code(c) => c
    case Reflected(of) => Show(of)
  }

  /** The status-code table as `pickMapByKey` receives it: keys of type `StatusCode`. */
  function CodeTable(): (t: map<Any, string>)
    ensures forall k :: k in t ==> k.Code?
  {
    map c | c in StatusCodes :: Code(c) := StatusCodes[c]
  }

  /** A plain string needle is never equal to a `reflect.Value`, so no key is ever picked. */
  lemma StringNeverPicked(s: string, haystack: map<Any, string>)
    ensures PickMapByKey(Str(s), haystack).None?
  {
  }

  /**
   The answer check as written: a two- or three-character answer is looked
   up in the status-code table with `pickMapByKey`.
   */
  function CheckStatusAsWritten(str: string): (r: Result<string>)
    ensures r.Ok? ==> r.value == str
  {
    if 2 <= |str| <= 3 then
      match PickMapByKey(Str(str), CodeTable())
      case Some((code, name)) => Err(Show(code) + ": " + name)
      case None => Ok(str)
    else Ok(str)
  }

  /** As written, the lookup never finds anything, so every answer passes as a result. */
  lemma StatusBranchIsDead(str: string)
    ensures CheckStatusAsWritten(str) == Ok(str)
  {
    StringNeverPicked(str, CodeTable());
  }

  /** The answer check as intended: a known status code becomes an error naming it. */
  function CheckStatus(str: string): (r: Result<string>)
    ensures r.Err? <==> 2 <= |str| <= 3 && str in StatusCodes
    ensures r.Ok? ==> r.value == str
    ensures r.Err? ==> r.error == str + ": " + StatusCodes[str]
  {
    if 2 <= |str| <= 3 && str in StatusCodes then Err(str + ": " + StatusCodes[str]) else Ok(str)
  }

  /** `request` as written: the fetched answer, through the check as written. */
  function RequestAsWritten(o: Options, endpoint: string, verb: string, data: map<string, Value>, keys: seq<string>,
                            encode: seq<(string, string)> -> string, client: HttpRequest -> Response): (r: Result<string>)
    requires forall i :: 0 <= i < |keys| ==> keys[i] in data
    ensures r == Fetch(o, endpoint, verb, data, keys, encode, client)
  {
    var str :- Fetch(o, endpoint, verb, data, keys, encode, client);
    StatusBranchIsDead(str);
    CheckStatusAsWritten(str)
  }

  /** `request` with the status check working as intended. */
  function Request(o: Options, endpoint: string, verb: string, data: map<string, Value>, keys: seq<string>,
                   encode: seq<(string, string)> -> string, client: HttpRequest -> Response): (r: Result<string>)
    requires forall i :: 0 <= i < |keys| ==> keys[i] in data
    ensures Fetch(o, endpoint, verb, data, keys, encode, client).Err? ==> r == Fetch(o, endpoint, verb, data, keys, encode, client)
    ensures Fetch(o, endpoint, verb, data, keys, encode, client).Ok? ==>
              r == CheckStatus(Fetch(o, endpoint, verb, data, keys, encode, client).value)
  {
    var str :- Fetch(o, endpoint, verb, data, keys, encode, client);
    CheckStatus(str)
  }

  /**
   The discrepancy on one input: the gateway answers `900` (authentication
   failed). As written the answer passes as a successful result; as
   intended it is the error `900: ErrorAuthentication`.
   */
  lemma AuthenticationFailureAccepted()
    ensures CheckStatusAsWritten("900") == Ok("900")
    ensures CheckStatus("900") == Err("900: ErrorAuthentication")
  {
    StatusBranchIsDead("900");
    AuthenticationFailureRefused();
  }

  /** With the lookup corrected, the authentication failure is an error naming it. */
  lemma AuthenticationFailureRefused()
    ensures CheckStatus("900") == Err("900: ErrorAuthentication")
  {
    var s, e := "900", "ErrorAuthentication";
    AuthenticationCode();
    assert CheckStatus(s) == Err(s + ": " + e);
    assert s + ": " + e == "900: ErrorAuthentication";
  }

  /** The table names 900 the authentication error. */
  lemma AuthenticationCode()
    ensures "900" in StatusCodes && StatusCodes["900"] == "ErrorAuthentication"
  {
  }

  /** `sms77api.Status`: the answer of the status resource. */
  datatype MessageStatus = MessageStatus(code: string, dateTime: string)

  const InvalidMessageId: string := "901"

  /**
   `makeStatus`: no answer, the invalid-message-ID code, or anything but
   exactly two lines is an error; otherwise the two lines are the code and
   the time.
   */
  function MakeStatus(res: Option<string>): (r: Result<MessageStatus>)
    ensures res.None? ==> r == Err("cannot make status from nil")
    ensures res == Some(InvalidMessageId) ==> r == Err(InvalidMessageId + ": Invalid message ID")
    ensures res.Some? && res.value != InvalidMessageId ==>
              (r.Ok? <==> Text.Count(res.value, '\n') == 1)
    ensures r.Ok? ==> res.Some? && res.value == r.value.code + "\n" + r.value.dateTime
    ensures r.Ok? ==> '\n' !in r.value.code && '\n' !in r.value.dateTime
  {
    match res
    case None => Err("cannot make status from nil")
    case Some(s) =>
      if s == InvalidMessageId then Err(InvalidMessageId + ": Invalid message ID")
      else
        var lines := Text.Split(s, '\n');
        if |lines| != 2 then Err("need exactly 2 lines to make a status")
        else
          assert Text.Join(lines, "\n") == lines[0] + "\n" + Text.Join(lines[1..], "\n");
          assert lines[1..] == [lines[1]];
          assert Text.Free(lines, '\n');
          assert '\n' !in lines[0] && '\n' !in lines[1];
          Ok(MessageStatus(lines[0], lines[1]))
  }

  /** A code and a time, each on one line, are read back from the two-line answer. */
  lemma {:induction false} MakeStatusRoundTrip(code: string, dateTime: string)
    requires '\n' !in code && '\n' !in dateTime
    ensures MakeStatus(Some(code + "\n" + dateTime)) == Ok(MessageStatus(code, dateTime))
  {
    var lines := [code, dateTime];
    assert Text.Free(lines, '\n') by {
      forall i | 0 <= i < |lines|
        ensures '\n' !in lines[i]
      {
      }
    }
    assert Text.Join(lines[1..], "\n") == dateTime by {
      assert lines[1..] == [dateTime];
    }
    assert Text.Join(lines, "\n") == code + "\n" + dateTime;
    Text.SplitJoin(lines, '\n');
    assert (code + "\n" + dateTime)[|code|] == '\n';
  }

  /** `inArray`: true exactly when some element is equal, dynamic type included. */
  method InArray(needle: Any, haystack: seq<Any>) returns (found: bool)
    ensures found <==> needle in haystack
  {
    var i := 0;
    while i < |haystack|
      invariant 0 <= i <= |haystack|
      invariant needle !in haystack[..i]
    {
      if needle == haystack[i] {
        return true;
      }
      i := i + 1;
    }
    assert haystack[..i] == haystack;
    return false;
  }

  /** `toUint`: the decimal value when it parses at the bit size, 0 otherwise. */
  function ToUint(id: string, bitSize: nat): (n: nat)
    ensures Decimal.ParseUint(id, bitSize).Some? ==> n == Decimal.ParseUint(id, bitSize).value
    ensures Decimal.ParseUint(id, bitSize).None? ==> n == 0
  {
    Decimal.ParseUint(id, bitSize).GetOr(0)
  }

  /**
   Every number that fits is read back from its decimal text, and a text
   that is not a number reads as 0, just like `"0"` itself.
   */
  lemma ToUintRoundTrip(n: nat, bitSize: nat)
    requires 0 < bitSize <= 64 && n < Decimal.Pow2(bitSize)
    ensures ToUint(Decimal.FormatNat(n), bitSize) == n
    ensures ToUint("x", bitSize) == 0 && ToUint("0", bitSize) == 0
  {
    Decimal.ParseUintFormat(n, bitSize);
    Decimal.ParseUintFormat(0, bitSize);
    assert Decimal.FormatNat(0) == "0";
  }
}
