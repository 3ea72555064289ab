/**
 The Pushbullet provider (`provider/pushbullet/pushbullet.go`): each
 recipient is written `targetType:targetName`, and the type chooses between
 pushing to a device and pushing to a channel subscription. The Pushbullet
 API is a parameter.
 */
module PushbulletProvider {
  import opened Wrappers
  import opened Sachet
  import Text

  const DeviceTargetType: string := "device"
  const ChannelTargetType: string := "channel"

  /** The error for a recipient that is not exactly two `:`-separated parts. */
  function ParseError(recipient: string): string
  {
    "cannot parse recipient " + recipient + ": expecting targetType:targetName"
  }

  /**
   `strings.Split(recipient, ":")` must give exactly two parts: the target
   type and the target name.
   */
  function ParseRecipient(recipient: string): (r: Result<(string, string)>)
    ensures r.Ok? <==> Text.Count(recipient, ':') == 1
    ensures r.Err? ==> r.error == ParseError(recipient)
    ensures r.Ok? ==> recipient == r.value.0 + ":" + r.value.1
    ensures r.Ok? ==> ':' !in r.value.0 && ':' !in r.value.1
  {
    var parts := Text.Split(recipient, ':');
    if |parts| != 2 then Err(ParseError(recipient))
    else
      assert Text.Join(parts, [':']) == parts[0] + [':'] + Text.Join(parts[1..], [':']);
      assert parts[1..] == [parts[1]];
      assert ':' !in parts[0] && ':' !in parts[1] by {
        assert Text.Free(parts, ':');
      }
      Ok((parts[0], parts[1]))
  }

  /** A type and a name without `:` are read back from `type:name`. */
  lemma {:induction false} ParseRecipientRoundTrip(kind: string, name: string)
    requires ':' !in kind && ':' !in name
    ensures ParseRecipient(kind + ":" + name) == Ok((kind, name))
  {
    var parts := [kind, name];
    assert Text.Free(parts, ':') by {
      forall i | 0 <= i < |parts|
        ensures ':' !in parts[i]
      {
      }
    }
    assert Text.Join(parts[1..], [':']) == name by {
      assert parts[1..] == [name];
    }
    assert Text.Join(parts, [':']) == kind + ":" + name;
    Text.SplitJoin(parts, ':');
  }

  /** The Pushbullet API as the provider uses it. */
  datatype Api = Api(
    device: string -> Result<string>,                  // `pb.Device(name)`: the device's iden
    subscription: string -> Result<string>,            // `pb.Subscription(name)`: the channel tag
    pushToDevice: (string, string, string) -> Status,  // `pb.PushNote(iden, title, body)`
    pushToChannel: (string, string, string) -> Status) // `sub.PushNote(title, body)`

  /**
   One recipient: parse it, look the target up, then push the note with the
   sender as its title and the text as its body.
   */
  function SendOne(api: Api, m: Message, recipient: string): (r: Status)
    ensures ParseRecipient(recipient).Err? ==> r == Some(ParseError(recipient))
    ensures ParseRecipient(recipient).Ok? ==>
              var (kind, name) := ParseRecipient(recipient).value;
              && (kind != DeviceTargetType && kind != ChannelTargetType ==>
                    r == Some("unrecognised target type: " + kind))
              && (kind == DeviceTargetType && api.device(name).Err? ==> r == Some(api.device(name).error))
              && (kind == DeviceTargetType && api.device(name).Ok? ==>
                    r == api.pushToDevice(api.device(name).value, m.from, m.text))
              && (kind == ChannelTargetType && api.subscription(name).Err? ==> r == Some(api.subscription(name).error))
              && (kind == ChannelTargetType && api.subscription(name).Ok? ==>
                    r == api.pushToChannel(api.subscription(name).value, m.from, m.text))
  {
    match ParseRecipient(recipient)
    case Err(e) => Some(e)
    case Ok((kind, name)) =>
      if kind == DeviceTargetType then
        match api.device(name)
        case Err(e) => Some(e)
        case Ok(iden) => api.pushToDevice(iden, m.from, m.text)
      else if kind == ChannelTargetType then
        match api.subscription(name)
        case Err(e) => Some(e)
        case Ok(tag) => api.pushToChannel(tag, m.from, m.text)
      else Some("unrecognised target type: " + kind)
  }

  /** `Pushbullet.Send`: recipients in order, the first error ends the loop. */
  function Send(api: Api, m: Message): (r: Fanout)
    ensures r.attempted <= m.to
    ensures r.error.None? ==> r.attempted == m.to
    ensures forall j :: 0 <= j < |r.attempted| - 1 ==> SendOne(api, m, r.attempted[j]).None?
    ensures r.error.None? <==> forall i :: 0 <= i < |m.to| ==> SendOne(api, m, m.to[i]).None?
    ensures r.error.Some? ==> |r.attempted| > 0 && r.error == SendOne(api, m, r.attempted[|r.attempted| - 1])
  {
    var send := (recipient: string) => SendOne(api, m, recipient);
    SendEachSucceedsIffAll(m.to, send);
    SendEach(m.to, send)
  }

  /** A well-formed recipient of another target type fails without any lookup or push. */
  lemma UnknownTypeFails(api: Api, m: Message, kind: string, name: string)
    requires ':' !in kind && ':' !in name
    requires kind != DeviceTargetType && kind != ChannelTargetType
    ensures SendOne(api, m, kind + ":" + name) == Some("unrecognised target type: " + kind)
  {
    ParseRecipientRoundTrip(kind, name);
  }

  /** `contains`: a linear search for `e`. */
  method Contains(s: seq<string>, e: string) returns (found: bool)
    ensures found <==> e in s
  {
    var i := 0;
    while i < |s|
      invariant 0 <= i <= |s|
      invariant e !in s[..i]
    {
      if s[i] == e {
        return true;
      }
      i := i + 1;
    }
    assert s[..i] == s;
    return false;
  }
}
