/**
 The older MessageBird client vendored under `vendor/src`
 (`github.com/messagebird/go-rest-api` 2.3.0): every call is a form POST
 or a GET, the response is classified by status, the public wrappers
 decide what object to hand back, and the optional parameters are written
 as URL values.
 */
module MessageBirdLegacy {
  import opened Wrappers
  import opened GoMaps
  import opened UrlValues
  import Decimal
  import Text
  import MessageBirdRequests

  type Time = MessageBirdRequests.Time
  type Detail = MessageBirdRequests.Detail
  type TypeDetails = MessageBirdRequests.TypeDetails

  const ErrResponse: string := "The MessageBird API returned an error"
  const ErrUnexpectedResponse: string := "The MessageBird API is currently unavailable"

  /** `request` posts a form when it has parameters and issues a GET otherwise. */
  function Verb(params: Option<Values>): (r: string)
    ensures r == "POST" <==> params.Some?
    ensures r == "GET" <==> params.None?
  {
    if params.Some? then "POST" else "GET"
  }

  /**
   The tail of `request`: a 500 is reported before anything is decoded; a
   body that does not decode is reported as the decoder's error; only 200
   and 201 succeed, and any other decodable status is `ErrResponse`.
   */
  function ClassifyResponse(status: int, body: string, decode: string -> Option<string>): (r: Status)
    ensures status == 500 ==> r == Some(ErrUnexpectedResponse)
    ensures status != 500 && decode(body).Some? ==> r == decode(body)
    ensures status != 500 && decode(body).None? && status !in {200, 201} ==> r == Some(ErrResponse)
    ensures r.None? <==> (status == 200 || status == 201) && decode(body).None?
  {
    if status == 500 then Some(ErrUnexpectedResponse)
    else if decode(body).Some? then decode(body)
    else if status == 200 || status == 201 then None
    else Some(ErrResponse)
  }

  /**
   The convention every public wrapper follows: on success or on
   `ErrResponse` the (partly) decoded object is returned with the error, on
   any other error no object is returned.
   */
  function Wrap<T>(obj: T, err: Status): (r: (Option<T>, Status))
    ensures r.1 == err
    ensures r.0.Some? <==> err.None? || err == Some(ErrResponse)
    ensures r.0.Some? ==> r.0.value == obj
  {
    if err.None? || err == Some(ErrResponse) then (Some(obj), err) else (None, err)
  }

  // ---------------------------------------------------------------------
  // paramsForMessage and NewMessage
  // ---------------------------------------------------------------------

  /** The URL key of one type detail. */
  function DetailKey(k: string): (r: string)
    ensures |r| == |k| + 13 && DetailName(r) == k
  {
    "typeDetails[" + k + "]"
  }

  /** The detail name inside a `typeDetails[...]` key. */
  function DetailName(x: string): string
    requires |x| >= 13
  {
    x[12..|x| - 1]
  }

  lemma DetailKeyInjective(a: string, b: string)
    requires DetailKey(a) == DetailKey(b)
    ensures a == b
  {
    assert |a| == |b|;
    assert a == DetailKey(a)[12..12 + |a|];
    assert b == DetailKey(b)[12..12 + |b|];
  }

  /** Only string and `int` values can be written as URL values. */
  predicate Encodable(d: Detail)
  {
    d.StrDetail? || d.IntDetail?
  }

  function DetailText(d: Detail): string
    requires Encodable(d)
  {
    if d.StrDetail? then d.s else Decimal.FormatInt(d.i)
  }

  /**
   The `range params.TypeDetails` loop, over the keys in the order `keys`
   lists them: each detail is set under its own key, and the first value of
   another type ends the loop with an error.
   */
  function SetDetails(v: Values, td: TypeDetails, keys: seq<string>): (r: Result<Values>)
    requires forall i :: 0 <= i < |keys| ==> keys[i] in td
    ensures r.Err? <==> exists i :: 0 <= i < |keys| && !Encodable(td[keys[i]])
    ensures r.Err? ==> r.error == "Unknown type for typeDetails value"
    decreases |keys|
  {
    if |keys| == 0 then Ok(v)
    else
      var d := td[keys[0]];
      if !Encodable(d) then Err("Unknown type for typeDetails value")
      else
        var rest := SetDetails(Set(v, DetailKey(keys[0]), DetailText(d)), td, keys[1..]);
        assert forall i :: 1 <= i < |keys| ==> keys[i] == keys[1..][i - 1];
        rest
  }

  /** The URL values of the details named in `ks`, each under its own key. */
  function DetailValues(td: TypeDetails, ks: set<string>): (r: Values)
    requires ks <= td.Keys
    requires forall k :: k in ks ==> Encodable(td[k])
  {
    map k | k in ks :: DetailKey(k) := [DetailText(td[k])]
  }

  /** Adding one more detail adds exactly its key, which no other detail has. */
  lemma DetailValuesInsert(td: TypeDetails, ks: set<string>, k: string)
    requires ks <= td.Keys && k in td && k !in ks
    requires forall j :: j in ks ==> Encodable(td[j])
    requires Encodable(td[k])
    ensures DetailKey(k) !in DetailValues(td, ks)
    ensures DetailValues(td, ks + {k}) == DetailValues(td, ks)[DetailKey(k) := [DetailText(td[k])]]
  {
    var a := DetailValues(td, ks + {k});
    var b := DetailValues(td, ks)[DetailKey(k) := [DetailText(td[k])]];
    forall x | x in a
      ensures x in b && a[x] == b[x]
    {
      var j :| j in ks + {k} && DetailKey(j) == x;
      if j != k && x == DetailKey(k) {
        DetailKeyInjective(j, k);
      }
    }
  }

  /** Setting a key below an overlay that does not mention it is the same as adding it to the overlay. */
  lemma SetUnderOverlay(v: Values, m: Values, k: string, x: seq<string>)
    requires k !in m
    ensures v[k := x] + m == v + m[k := x]
  {
  }

  /** Setting one more detail below the others adds it to the overlay. */
  lemma OverlayStep(v: Values, td: TypeDetails, ks: set<string>, k: string)
    requires ks <= td.Keys && k in td && k !in ks
    requires forall j :: j in ks ==> Encodable(td[j])
    requires Encodable(td[k])
    ensures Set(v, DetailKey(k), DetailText(td[k])) + DetailValues(td, ks) == v + DetailValues(td, ks + {k})
  {
    DetailValuesInsert(td, ks, k);
    SetUnderOverlay(v, DetailValues(td, ks), DetailKey(k), [DetailText(td[k])]);
  }

  /** What the loop needs to know about the keys it has left after the first. */
  lemma TailFacts(td: TypeDetails, keys: seq<string>)
    requires |keys| > 0
    requires forall i :: 0 <= i < |keys| ==> keys[i] in td && Encodable(td[keys[i]])
    requires Distinct(keys)
    ensures forall i :: 0 <= i < |keys[1..]| ==> keys[1..][i] in td && Encodable(td[keys[1..][i]])
    ensures Distinct(keys[1..])
    ensures keys[0] !in Elems(keys[1..])
    ensures Elems(keys[1..]) <= td.Keys
    ensures forall j :: j in Elems(keys[1..]) ==> Encodable(td[j])
    ensures Elems(keys) == Elems(keys[1..]) + {keys[0]}
  {
    var rest := keys[1..];
    ElemsCons(keys);
    forall j | j in Elems(rest)
      ensures j in td && Encodable(td[j]) && j != keys[0]
    {
      var i :| 0 <= i < |rest| && rest[i] == j;
      assert keys[i + 1] == j;
    }
  }

  /**
   Whatever order the loop visits distinct keys in, it adds exactly their
   detail values to what was there before.
   */
  lemma {:induction false} SetDetailsOverlay(v: Values, td: TypeDetails, keys: seq<string>)
    requires forall i :: 0 <= i < |keys| ==> keys[i] in td && Encodable(td[keys[i]])
    requires Distinct(keys)
    ensures SetDetails(v, td, keys) == Ok(v + DetailValues(td, Elems(keys)))
    decreases |keys|
  {
    if |keys| == 0 {
      assert Elems(keys) == {};
      assert v + DetailValues(td, {}) == v;
    } else {
      var k := keys[0];
      var rest := keys[1..];
      TailFacts(td, keys);
      var v1 := Set(v, DetailKey(k), DetailText(td[k]));
      SetDetailsOverlay(v1, td, rest);
      OverlayStep(v, td, Elems(rest), k);
    }
  }

  /** The type-details loop gives the same result whatever order Go ranges over the map in. */
  lemma SetDetailsOrderFree(v: Values, td: TypeDetails, k1: seq<string>, k2: seq<string>)
    requires Enumerates(k1, td) && Enumerates(k2, td)
    ensures SetDetails(v, td, k1) == SetDetails(v, td, k2)
  {
    EnumerationFacts(k1, td);
    EnumerationFacts(k2, td);
    if forall k :: k in td ==> Encodable(td[k]) {
      SetDetailsOverlay(v, td, k1);
      SetDetailsOverlay(v, td, k2);
    } else {
      var k :| k in td && !Encodable(td[k]);
      SetDetailsFailsOn(v, td, k1, k);
      SetDetailsFailsOn(v, td, k2, k);
    }
  }

  /** A listed key whose value cannot be written makes the loop fail, wherever it comes. */
  lemma SetDetailsFailsOn(v: Values, td: TypeDetails, keys: seq<string>, k: string)
    requires forall i :: 0 <= i < |keys| ==> keys[i] in td
    requires k in Elems(keys) && k in td && !Encodable(td[k])
    ensures SetDetails(v, td, keys) == Err("Unknown type for typeDetails value")
  {
    var i :| 0 <= i < |keys| && keys[i] == k;
  }

  /** The fixed names `paramsForMessage` writes before the type details. */
  const HeadKeys: set<string> := {"type", "mclass", "reference", "validity", "gateway"}

  /** The first five optional message parameters, each present exactly when it is set. */
  function MessageHead(p: MessageBirdRequests.MessageParams): (r: Values)
    ensures r.Keys <= HeadKeys
    ensures "type" in r <==> p.kind != ""
    ensures "mclass" in r <==> p.kind == "flash"
    ensures "reference" in r <==> p.reference != ""
    ensures "validity" in r <==> p.validity != 0
    ensures "gateway" in r <==> p.gateway != 0
  {
    var v1 := SetIf(Empty, p.kind != "", "type", p.kind);
    var v2 := SetIf(v1, p.kind == "flash", "mclass", "0");
    var v3 := SetIf(v2, p.reference != "", "reference", p.reference);
    var v4 := SetIf(v3, p.validity != 0, "validity", Decimal.FormatInt(p.validity));
    SetIf(v4, p.gateway != 0, "gateway", Decimal.FormatInt(p.gateway))
  }

  /**
   `paramsForMessage`: the type when non-empty (with `mclass=0` for
   "flash"), reference, validity and gateway when set, each type detail,
   then the data coding and a schedule after the epoch. A value of a type
   other than string or `int` among the details is an error.
   */
  function ParamsForMessage(params: Option<MessageBirdRequests.MessageParams>, keys: seq<string>,
                            format: Time -> string): (r: Result<Values>)
    requires params.Some? ==> Enumerates(keys, params.value.typeDetails)
    ensures params.None? ==> r == Ok(Empty)
    ensures params.Some? ==> (r.Err? <==> exists k :: k in params.value.typeDetails
                                                      && !Encodable(params.value.typeDetails[k]))
    ensures r.Err? ==> r.error == "Unknown type for typeDetails value"
    ensures r.Ok? && params.Some? ==>
              && ("type" in r.value <==> params.value.kind != "")
              && ("mclass" in r.value <==> params.value.kind == "flash")
              && ("reference" in r.value <==> params.value.reference != "")
              && ("validity" in r.value <==> params.value.validity != 0)
              && ("gateway" in r.value <==> params.value.gateway != 0)
    ensures r.Ok? && params.Some? ==>
              && ("datacoding" in r.value <==> params.value.dataCoding != "")
              && ("scheduledDatetime" in r.value <==> params.value.scheduled.unix > 0)
    ensures r.Ok? && params.Some? ==>
              forall k :: k in params.value.typeDetails ==>
                DetailKey(k) in r.value && r.value[DetailKey(k)] == [DetailText(params.value.typeDetails[k])]
  {
    match params
    case None => Ok(Empty)
    case Some(p) =>
      var head := MessageHead(p);
      EnumerationFacts(keys, p.typeDetails);
      var details := SetDetails(head, p.typeDetails, keys);
      if details.Err? then
        details
      else
        SetDetailsOverlay(head, p.typeDetails, keys);
        AssembledHead(p, format);
        AssembledTail(p, format);
        AssembledDetails(p, format);
        Ok(MessageTail(details.value, p, format))
  }

  predicate AllEncodable(td: TypeDetails)
  {
    forall k :: k in td ==> Encodable(td[k])
  }

  /** The values of parameters whose type details all encode, as the order-free overlay. */
  function Assembled(p: MessageBirdRequests.MessageParams, format: Time -> string): Values
    requires AllEncodable(p.typeDetails)
  {
    MessageTail(MessageHead(p) + DetailValues(p.typeDetails, p.typeDetails.Keys), p, format)
  }

  lemma AssembledHead(p: MessageBirdRequests.MessageParams, format: Time -> string)
    requires AllEncodable(p.typeDetails)
    ensures var r := Assembled(p, format);
            && ("type" in r <==> p.kind != "")
            && ("mclass" in r <==> p.kind == "flash")
            && ("reference" in r <==> p.reference != "")
            && ("validity" in r <==> p.validity != 0)
            && ("gateway" in r <==> p.gateway != 0)
  {
    var d := MessageHead(p) + DetailValues(p.typeDetails, p.typeDetails.Keys);
    ParamsTail(MessageHead(p), p);
    MessageTailKeepsHead(d, p, format);
  }

  /** The last two parameters leave the fixed head names as they were. */
  lemma MessageTailKeepsHead(d: Values, p: MessageBirdRequests.MessageParams, format: Time -> string)
    ensures forall x :: x in HeadKeys ==> (x in MessageTail(d, p, format) <==> x in d)
  {
    MessageTailKeeps(d, p, format);
    assert forall x :: x in HeadKeys ==> x != "datacoding" && x != "scheduledDatetime";
  }

  lemma AssembledTail(p: MessageBirdRequests.MessageParams, format: Time -> string)
    requires AllEncodable(p.typeDetails)
    ensures var r := Assembled(p, format);
            && ("datacoding" in r <==> p.dataCoding != "")
            && ("scheduledDatetime" in r <==> p.scheduled.unix > 0)
  {
    var d := MessageHead(p) + DetailValues(p.typeDetails, p.typeDetails.Keys);
    ParamsTail(MessageHead(p), p);
    MessageTailAdds(d, p, format);
  }

  lemma AssembledDetails(p: MessageBirdRequests.MessageParams, format: Time -> string)
    requires AllEncodable(p.typeDetails)
    ensures var r := Assembled(p, format);
            forall k :: k in p.typeDetails ==>
              DetailKey(k) in r && r[DetailKey(k)] == [DetailText(p.typeDetails[k])]
  {
    var d := MessageHead(p) + DetailValues(p.typeDetails, p.typeDetails.Keys);
    ParamsTail(MessageHead(p), p);
    MessageTailKeeps(d, p, format);
    forall k | k in p.typeDetails
      ensures DetailKey(k) != "datacoding" && DetailKey(k) != "scheduledDatetime"
    {
      FixedKeysAreNotDetails(k);
    }
  }

  /** The two values `paramsForMessage` sets after the type details. */
  function MessageTail(d: Values, p: MessageBirdRequests.MessageParams, format: Time -> string): Values
  {
    var v := SetIf(d, p.dataCoding != "", "datacoding", p.dataCoding);
    SetIf(v, p.scheduled.unix > 0, "scheduledDatetime", format(p.scheduled))
  }

  lemma MessageTailKeeps(d: Values, p: MessageBirdRequests.MessageParams, format: Time -> string)
    ensures forall x :: x != "datacoding" && x != "scheduledDatetime" ==>
              (x in MessageTail(d, p, format) <==> x in d)
              && (x in d ==> MessageTail(d, p, format)[x] == d[x])
  {
  }

  lemma MessageTailAdds(d: Values, p: MessageBirdRequests.MessageParams, format: Time -> string)
    requires "datacoding" !in d && "scheduledDatetime" !in d
    ensures "datacoding" in MessageTail(d, p, format) <==> p.dataCoding != ""
    ensures "scheduledDatetime" in MessageTail(d, p, format) <==> p.scheduled.unix > 0
  {
  }

  /** A fixed parameter name is never the key of a type detail. */
  lemma FixedKeysAreNotDetails(k: string)
    ensures DetailKey(k) !in {"type", "mclass", "reference", "validity", "gateway", "datacoding", "scheduledDatetime"}
  {
    assert DetailKey(k)[0] == 't';
    assert "scheduledDatetime"[0] == 's';
  }

  /** Facts `ParamsForMessage` needs about the type-detail part of its result. */
  lemma ParamsTail(v5: Values, p: MessageBirdRequests.MessageParams)
    requires AllEncodable(p.typeDetails)
    requires v5.Keys <= HeadKeys
    ensures var d := v5 + DetailValues(p.typeDetails, p.typeDetails.Keys);
            && (forall k :: k in HeadKeys ==> (k in d <==> k in v5))
            && "datacoding" !in d && "scheduledDatetime" !in d
            && (forall k :: k in p.typeDetails ==> DetailKey(k) in d && d[DetailKey(k)] == [DetailText(p.typeDetails[k])])
  {
    var dv := DetailValues(p.typeDetails, p.typeDetails.Keys);
    DetailsAvoidFixedKeys(p.typeDetails);
    TailKeepsFixed(v5, dv);
    TailDetails(v5, p.typeDetails);
  }

  /** The details add none of the fixed names to the values they overlay. */
  lemma TailKeepsFixed(v5: Values, dv: Values)
    requires v5.Keys <= HeadKeys
    requires forall x :: x in dv ==>
               x !in {"type", "mclass", "reference", "validity", "gateway", "datacoding", "scheduledDatetime"}
    ensures forall k :: k in HeadKeys ==> (k in v5 + dv <==> k in v5)
    ensures "datacoding" !in v5 + dv && "scheduledDatetime" !in v5 + dv
  {
    forall k | k in HeadKeys
      ensures k in v5 + dv <==> k in v5
    {
      assert k !in dv;
    }
  }

  /** Whatever the details overlay, each type detail keeps its own key and text. */
  lemma TailDetails(v5: Values, td: TypeDetails)
    requires AllEncodable(td)
    ensures forall k :: k in td ==>
              && DetailKey(k) in v5 + DetailValues(td, td.Keys)
              && (v5 + DetailValues(td, td.Keys))[DetailKey(k)] == [DetailText(td[k])]
  {
    var dv := DetailValues(td, td.Keys);
    forall k | k in td
      ensures DetailKey(k) in v5 + dv && (v5 + dv)[DetailKey(k)] == [DetailText(td[k])]
    {
      DetailValuesAt(td, k);
    }
  }

  /** No type-detail key is one of the fixed parameter names. */
  lemma DetailsAvoidFixedKeys(td: TypeDetails)
    requires AllEncodable(td)
    ensures forall x :: x in DetailValues(td, td.Keys) ==>
              x !in {"type", "mclass", "reference", "validity", "gateway", "datacoding", "scheduledDatetime"}
  {
    forall x | x in DetailValues(td, td.Keys)
      ensures x !in {"type", "mclass", "reference", "validity", "gateway", "datacoding", "scheduledDatetime"}
    {
      var j :| j in td && DetailKey(j) == x;
      FixedKeysAreNotDetails(j);
    }
  }

  /** Each type detail sits under its own key with its own text. */
  lemma DetailValuesAt(td: TypeDetails, k: string)
    requires AllEncodable(td) && k in td
    ensures DetailKey(k) in DetailValues(td, td.Keys)
    ensures DetailValues(td, td.Keys)[DetailKey(k)] == [DetailText(td[k])]
  {
    forall j | j in td && DetailKey(j) == DetailKey(k)
      ensures j == k
    {
      DetailKeyInjective(j, k);
    }
  }

  /**
   `Client.NewMessage`'s parameters: the optional ones, then originator,
   body and the comma-joined recipients, which override any same-named value.
   */
  function NewMessageParams(originator: string, recipients: seq<string>, body: string,
                            params: Option<MessageBirdRequests.MessageParams>, keys: seq<string>,
                            format: Time -> string): (r: Result<Values>)
    requires params.Some? ==> Enumerates(keys, params.value.typeDetails)
    ensures r.Err? <==> ParamsForMessage(params, keys, format).Err?
    ensures r.Ok? ==> Get(r.value, "originator") == originator && Get(r.value, "body") == body
    ensures r.Ok? ==> Get(r.value, "recipients") == Text.Join(recipients, ",")
  {
    var base :- ParamsForMessage(params, keys, format);
    Ok(Set(Set(Set(base, "originator", originator), "body", body), "recipients", Text.Join(recipients, ",")))
  }

  /** The recipients travel as one comma-joined value that splits back into the list. */
  lemma NewMessageRecipientsRoundTrip(originator: string, recipients: seq<string>, body: string,
                                      params: Option<MessageBirdRequests.MessageParams>, keys: seq<string>,
                                      format: Time -> string)
    requires params.Some? ==> Enumerates(keys, params.value.typeDetails)
    requires NewMessageParams(originator, recipients, body, params, keys, format).Ok?
    requires |recipients| > 0 && Text.Free(recipients, ',')
    ensures Text.Split(Get(NewMessageParams(originator, recipients, body, params, keys, format).value, "recipients"), ',')
            == recipients
  {
    Text.SplitJoin(recipients, ',');
  }

  // ---------------------------------------------------------------------
  // paramsForVoiceMessage and paramsForOtp
  // ---------------------------------------------------------------------

  const VoiceKeys: set<string> := {"originator", "reference", "language", "voice", "repeat", "ifMachine", "scheduledDatetime"}

  /** The voice values of present parameters, in the order `paramsForVoiceMessage` sets them. */
  function VoiceValues(p: MessageBirdRequests.VoiceParams, format: Time -> string): Values
  {
    var v1 := SetIf(Empty, p.originator != "", "originator", p.originator);
    var v2 := SetIf(v1, p.reference != "", "reference", p.reference);
    var v3 := SetIf(v2, p.language != "", "language", p.language);
    var v4 := SetIf(v3, p.voice != "", "voice", p.voice);
    var v5 := SetIf(v4, p.repeat > 1, "repeat", Decimal.FormatInt(p.repeat));
    var v6 := SetIf(v5, p.ifMachine != "", "ifMachine", p.ifMachine);
    SetIf(v6, p.scheduled.unix > 0, "scheduledDatetime", format(p.scheduled))
  }

  lemma VoiceValuesKeys(p: MessageBirdRequests.VoiceParams, format: Time -> string)
    ensures VoiceValues(p, format).Keys <= VoiceKeys
  {
  }

  lemma VoiceValuesSingle(p: MessageBirdRequests.VoiceParams, format: Time -> string)
    ensures SingleValued(VoiceValues(p, format))
  {
    var v1 := SetIf(Empty, p.originator != "", "originator", p.originator);
    SetIfKeepsSingleValued(Empty, p.originator != "", "originator", p.originator);
    var v2 := SetIf(v1, p.reference != "", "reference", p.reference);
    SetIfKeepsSingleValued(v1, p.reference != "", "reference", p.reference);
    var v3 := SetIf(v2, p.language != "", "language", p.language);
    SetIfKeepsSingleValued(v2, p.language != "", "language", p.language);
    var v4 := SetIf(v3, p.voice != "", "voice", p.voice);
    SetIfKeepsSingleValued(v3, p.voice != "", "voice", p.voice);
    var v5 := SetIf(v4, p.repeat > 1, "repeat", Decimal.FormatInt(p.repeat));
    SetIfKeepsSingleValued(v4, p.repeat > 1, "repeat", Decimal.FormatInt(p.repeat));
    var v6 := SetIf(v5, p.ifMachine != "", "ifMachine", p.ifMachine);
    SetIfKeepsSingleValued(v5, p.ifMachine != "", "ifMachine", p.ifMachine);
    SetIfKeepsSingleValued(v6, p.scheduled.unix > 0, "scheduledDatetime", format(p.scheduled));
  }

  lemma VoiceValuesPresence(p: MessageBirdRequests.VoiceParams, format: Time -> string)
    ensures "repeat" in VoiceValues(p, format) <==> p.repeat > 1
    ensures "scheduledDatetime" in VoiceValues(p, format) <==> p.scheduled.unix > 0
  {
  }

  /**
   `paramsForVoiceMessage`: each string when non-empty, the repeat count only
   above 1 (a repeat of 1 means "play once"), a schedule after the epoch.
   */
  function ParamsForVoiceMessage(params: Option<MessageBirdRequests.VoiceParams>, format: Time -> string): (r: Values)
    ensures params.None? ==> r == Empty
    ensures r.Keys <= VoiceKeys
    ensures SingleValued(r)
    ensures params.Some? ==> ("repeat" in r <==> params.value.repeat > 1)
    ensures params.Some? ==> ("scheduledDatetime" in r <==> params.value.scheduled.unix > 0)
  {
    match params
    case None => Empty
    case Some(p) =>
      VoiceValuesKeys(p, format);
      VoiceValuesSingle(p, format);
      VoiceValuesPresence(p, format);
      VoiceValues(p, format)
  }

  // Each stored voice value reads back, one parameter at a time.
  lemma VoiceGetOriginator(p: MessageBirdRequests.VoiceParams, format: Time -> string)
    ensures Get(VoiceValues(p, format), "originator") == p.originator
  {
  }

  lemma VoiceGetReference(p: MessageBirdRequests.VoiceParams, format: Time -> string)
    ensures Get(VoiceValues(p, format), "reference") == p.reference
  {
  }

  lemma VoiceGetLanguage(p: MessageBirdRequests.VoiceParams, format: Time -> string)
    ensures Get(VoiceValues(p, format), "language") == p.language
  {
  }

  lemma VoiceGetVoice(p: MessageBirdRequests.VoiceParams, format: Time -> string)
    ensures Get(VoiceValues(p, format), "voice") == p.voice
  {
  }

  lemma VoiceGetIfMachine(p: MessageBirdRequests.VoiceParams, format: Time -> string)
    ensures Get(VoiceValues(p, format), "ifMachine") == p.ifMachine
  {
  }

  lemma VoiceGetRepeat(p: MessageBirdRequests.VoiceParams, format: Time -> string)
    ensures p.repeat > 1 ==> Get(VoiceValues(p, format), "repeat") == Decimal.FormatInt(p.repeat)
  {
  }

  /**
   Reading the voice values back gives every string parameter; the repeat
   count reads back when it is above 1, and as the server's default of 1
   otherwise.
   */
  lemma VoiceParamsRoundTrip(p: MessageBirdRequests.VoiceParams, format: Time -> string)
    requires p.repeat <= Decimal.MaxInt64
    ensures var v := ParamsForVoiceMessage(Some(p), format);
            && Get(v, "originator") == p.originator && Get(v, "reference") == p.reference
            && Get(v, "language") == p.language && Get(v, "voice") == p.voice
            && Get(v, "ifMachine") == p.ifMachine
            && (if "repeat" in v then Decimal.Atoi(Get(v, "repeat")) else Some(1)) == Some(if p.repeat > 1 then p.repeat else 1)
  {
    VoiceGetOriginator(p, format);
    VoiceGetReference(p, format);
    VoiceGetLanguage(p, format);
    VoiceGetVoice(p, format);
    VoiceGetIfMachine(p, format);
    VoiceGetRepeat(p, format);
    VoiceValuesPresence(p, format);
    if p.repeat > 1 {
      Decimal.AtoiFormatInt(p.repeat);
    }
  }

  /** `OtpParams`, the optional settings of a one-time password. */
  datatype OtpParams = OtpParams(reference: string, originator: string, kind: string, language: string,
                                 voice: string, template: string, dataCoding: string)

  const OtpKeys: set<string> := {"reference", "originator", "type", "template", "datacoding", "language", "voice"}

  /** The values of the non-empty settings, in the order `paramsForOtp` sets them. */
  function OtpValues(p: OtpParams): Values
  {
    var v1 := SetIf(Empty, p.reference != "", "reference", p.reference);
    var v2 := SetIf(v1, p.originator != "", "originator", p.originator);
    var v3 := SetIf(v2, p.kind != "", "type", p.kind);
    var v4 := SetIf(v3, p.template != "", "template", p.template);
    var v5 := SetIf(v4, p.dataCoding != "", "datacoding", p.dataCoding);
    var v6 := SetIf(v5, p.language != "", "language", p.language);
    SetIf(v6, p.voice != "", "voice", p.voice)
  }

  lemma OtpValuesKeys(p: OtpParams)
    ensures OtpValues(p).Keys <= OtpKeys
  {
  }

  lemma OtpValuesSingle(p: OtpParams)
    ensures SingleValued(OtpValues(p))
  {
  }

  lemma OtpValuesPresence(p: OtpParams)
    ensures "type" in OtpValues(p) <==> p.kind != ""
    ensures "template" in OtpValues(p) <==> p.template != ""
  {
    var v1 := SetIf(Empty, p.reference != "", "reference", p.reference);
    SetIfKeys(Empty, p.reference != "", "reference", p.reference);
    var v2 := SetIf(v1, p.originator != "", "originator", p.originator);
    SetIfKeys(v1, p.originator != "", "originator", p.originator);
    var v3 := SetIf(v2, p.kind != "", "type", p.kind);
    SetIfKeys(v2, p.kind != "", "type", p.kind);
    var v4 := SetIf(v3, p.template != "", "template", p.template);
    SetIfKeys(v3, p.template != "", "template", p.template);
    var v5 := SetIf(v4, p.dataCoding != "", "datacoding", p.dataCoding);
    SetIfKeys(v4, p.dataCoding != "", "datacoding", p.dataCoding);
    var v6 := SetIf(v5, p.language != "", "language", p.language);
    SetIfKeys(v5, p.language != "", "language", p.language);
    SetIfKeys(v6, p.voice != "", "voice", p.voice);
    assert |"type"| == 4 && |"voice"| == 5 && |"template"| == 8 && |"reference"| == 9;
    assert |"datacoding"| == 10 && |"originator"| == 10;
    assert "template"[0] != "language"[0];
  }

  /** `paramsForOtp`: each of the seven settings only when non-empty, and nothing else. */
  function ParamsForOtp(params: Option<OtpParams>): (r: Values)
    ensures params.None? ==> r == Empty
    ensures r.Keys <= OtpKeys
    ensures SingleValued(r)
    ensures params.Some? ==> ("type" in r <==> params.value.kind != "")
    ensures params.Some? ==> ("template" in r <==> params.value.template != "")
  {
    match params
    case None => Empty
    case Some(p) =>
      OtpValuesKeys(p);
      OtpValuesSingle(p);
      OtpValuesPresence(p);
      OtpValues(p)
  }

  /** How the API reads the one-time-password values back: an absent one is empty. */
  function ReadOtp(v: Values): OtpParams
  {
    OtpParams(Get(v, "reference"), Get(v, "originator"), Get(v, "type"), Get(v, "language"),
              Get(v, "voice"), Get(v, "template"), Get(v, "datacoding"))
  }

  // Each stored setting reads back, one at a time.
  lemma OtpGetReference(p: OtpParams)
    ensures Get(OtpValues(p), "reference") == p.reference
  {
  }

  lemma OtpGetOriginator(p: OtpParams)
    ensures Get(OtpValues(p), "originator") == p.originator
  {
  }

  lemma OtpGetType(p: OtpParams)
    ensures Get(OtpValues(p), "type") == p.kind
  {
  }

  lemma OtpGetLanguage(p: OtpParams)
    ensures Get(OtpValues(p), "language") == p.language
  {
  }

  lemma OtpGetVoice(p: OtpParams)
    ensures Get(OtpValues(p), "voice") == p.voice
  {
  }

  lemma OtpGetTemplate(p: OtpParams)
    ensures Get(OtpValues(p), "template") == p.template
  {
  }

  lemma OtpGetDataCoding(p: OtpParams)
    ensures Get(OtpValues(p), "datacoding") == p.dataCoding
  {
  }

  /** The one-time-password values read back as the settings they were built from. */
  lemma OtpRoundTrip(p: OtpParams)
    ensures ReadOtp(ParamsForOtp(Some(p))) == p
    ensures ReadOtp(ParamsForOtp(None)) == OtpParams("", "", "", "", "", "", "")
  {
    OtpGetReference(p);
    OtpGetOriginator(p);
    OtpGetType(p);
    OtpGetLanguage(p);
    OtpGetVoice(p);
    OtpGetTemplate(p);
    OtpGetDataCoding(p);
  }
}
