/**
 The HTTP client of the mail.ru bot library
 (`vendor/github.com/mail-ru-im/bot-golang/client.go`): how `Do` turns a
 request into a body or an error, and the query parameters each operation
 sends. URL parsing, the HTTP exchange and JSON decoding are parameters.
 */
module BotClient {
  import opened Wrappers
  import opened UrlValues
  import Decimal
  import GoMaps
  import BotChat
  import BotKeyboard
  import M = BotMessage

  datatype Client = Client(token: string, baseUrl: string)

  /** One request of `Do`: the URL text, the query parameters, and the file a POST uploads. */
  datatype Request = Request(url: string, params: Values, upload: Option<string>)

  /** The HTTP exchange: no response, a body that could not be read, or the body. */
  datatype Answer = TransportError(transportError: string) | ReadError(readError: string) | Body(text: string)

  /** `Response`: the `ok` and `description` fields of every API answer. */
  datatype ApiStatus = ApiStatus(ok: bool, description: string)

  datatype Http = Http(
    parseUrl: string -> Status,                 // `url.Parse`
    exchange: Request -> Answer,                // `http.Client.Do` and reading the body
    decodeStatus: string -> Result<ApiStatus>)  // `json.Unmarshal` into a `Response`

  /** What `Do` returns: the body, when there is one, and the error. */
  datatype Reply = Reply(body: Option<string>, error: Status)

  /** The request `Do` sends: the token is always set, every other parameter is passed on. */
  function RequestFor(c: Client, path: string, params: Values, upload: Option<string>): (r: Request)
    ensures r.url == c.baseUrl + path && r.upload == upload
    ensures r.params.Keys == params.Keys + {"token"}
    ensures r.params["token"] == [c.token]
    ensures forall k :: k in params && k != "token" ==> r.params[k] == params[k]
  {
    Request(c.baseUrl + path, Set(params, "token", c.token), upload)
  }

  /**
   `Do`: a URL that does not parse, a failed exchange and a body that is not
   JSON are errors; so is an answer whose `ok` is false, which still returns
   its body. Only an `ok` answer is a success.
   */
  function Do(c: Client, path: string, params: Values, upload: Option<string>, http: Http): (r: Reply)
    ensures http.parseUrl(c.baseUrl + path).Some? ==>
              r == Reply(None, Some("cannot parse url: " + http.parseUrl(c.baseUrl + path).value))
    ensures http.parseUrl(c.baseUrl + path).None? ==>
              var answer := http.exchange(RequestFor(c, path, params, upload));
              && (answer.TransportError? ==>
                    r == Reply(Some(""), Some("cannot make request to bot api: " + answer.transportError)))
              && (answer.ReadError? ==> r == Reply(Some(""), Some("cannot read body: " + answer.readError)))
              && (answer.Body? && http.decodeStatus(answer.text).Err? ==>
                    r == Reply(None, Some("cannot unmarshal json: " + http.decodeStatus(answer.text).error)))
              && (answer.Body? && http.decodeStatus(answer.text).Ok? && !http.decodeStatus(answer.text).value.ok ==>
                    r == Reply(Some(answer.text),
                               Some("error status from API: " + http.decodeStatus(answer.text).value.description)))
    ensures r.error.None? <==>
              && http.parseUrl(c.baseUrl + path).None?
              && http.exchange(RequestFor(c, path, params, upload)).Body?
              && http.decodeStatus(http.exchange(RequestFor(c, path, params, upload)).text).Ok?
              && http.decodeStatus(http.exchange(RequestFor(c, path, params, upload)).text).value.ok
    ensures r.error.None? ==> r.body == Some(http.exchange(RequestFor(c, path, params, upload)).text)
  {
    match http.parseUrl(c.baseUrl + path)
    case Some(e) => Reply(None, Some("cannot parse url: " + e))
    case None =>
      match http.exchange(RequestFor(c, path, params, upload))
      case TransportError(e) => Reply(Some(""), Some("cannot make request to bot api: " + e))
      case ReadError(e) => Reply(Some(""), Some("cannot read body: " + e))
      case Body(text) =>
        match http.decodeStatus(text)
        case Err(e) => Reply(None, Some("cannot unmarshal json: " + e))
        case Ok(status) =>
          if !status.ok then Reply(Some(text), Some("error status from API: " + status.description))
          else Reply(Some(text), None)
  }

  /** `GetInfo`: `/self/get` without parameters, then the bot's description decoded. */
  function GetInfo<I>(c: Client, http: Http, decode: string -> Result<I>): (r: Result<I>)
    ensures Do(c, "/self/get", Empty, None, http).error.Some? ==>
              r == Err("error while receiving information: " + Do(c, "/self/get", Empty, None, http).error.value)
    ensures Do(c, "/self/get", Empty, None, http).error.None? ==>
              var body := Do(c, "/self/get", Empty, None, http).body.value;
              && (decode(body).Err? ==> r == Err("error while unmarshalling information: " + decode(body).error))
              && (decode(body).Ok? ==> r == Ok(decode(body).value))
  {
    var reply := Do(c, "/self/get", Empty, None, http);
    if reply.error.Some? then Err("error while receiving information: " + reply.error.value)
    else match decode(reply.body.value)
      case Err(e) => Err("error while unmarshalling information: " + e)
      case Ok(info) => Ok(info)
  }

  /** `strconv.FormatBool`. */
  function FormatBool(b: bool): (r: string)
    ensures r == "true" <==> b
    ensures r == "false" <==> !b
  {
    if b then "true" else "false"
  }

  /** The endpoint, the parameters and the upload of one client operation, before `Do` adds the token. */
  datatype Call = Call(path: string, params: Values, upload: Option<string>)

  /** The first occurrence of each action, in the order given. */
  function FirstOccurrences(s: seq<string>): (r: seq<string>)
    ensures GoMaps.Distinct(r)
    ensures forall x :: x in r <==> x in s
    ensures |r| <= |s|
    decreases |s|
  {
    if |s| == 0 then []
    else
      var prior := FirstOccurrences(s[..|s| - 1]);
      var last := s[|s| - 1];
      assert s == s[..|s| - 1] + [last];
      if last in prior then prior else prior + [last]
  }

  /** Where `x` first occurs in `s`. */
  function FirstIndex(s: seq<string>, x: string): (i: nat)
    requires x in s
    ensures i < |s| && s[i] == x && x !in s[..i]
  {
    if s[0] == x then 0
    else
      var i := 1 + FirstIndex(s[1..], x);
      assert s[..i] == [s[0]] + s[1..][..i - 1];
      i
  }

  /** A position holding `x` with no `x` before it is where `x` first occurs. */
  lemma FirstIndexUnique(s: seq<string>, x: string, i: int)
    requires 0 <= i < |s| && s[i] == x && x !in s[..i]
    ensures FirstIndex(s, x) == i
  {
    var k := FirstIndex(s, x);
    assert forall j :: 0 <= j < i ==> s[..i][j] == s[j];
    assert forall j :: 0 <= j < k ==> s[..k][j] == s[j];
  }

  /**
   The actions are kept in the order of their first occurrence: an earlier
   kept action first occurs earlier.
   */
  lemma {:induction false} FirstOccurrencesInOrder(s: seq<string>, i: int, j: int)
    requires 0 <= i < j < |FirstOccurrences(s)|
    ensures FirstIndex(s, FirstOccurrences(s)[i]) < FirstIndex(s, FirstOccurrences(s)[j])
    decreases |s|
  {
    var init := s[..|s| - 1];
    var last := s[|s| - 1];
    var prior := FirstOccurrences(init);
    var r := FirstOccurrences(s);
    assert s == init + [last];
    var a := r[i];
    var b := r[j];
    assert i < |prior| && a == prior[i];
    FirstIndexUnique(s, a, FirstIndex(init, a)) by {
      assert s[..FirstIndex(init, a)] == init[..FirstIndex(init, a)];
    }
    if j < |prior| {
      assert r[j] == prior[j] && r[i] == prior[i];
      FirstOccurrencesInOrder(init, i, j);
      FirstIndexUnique(s, b, FirstIndex(init, b)) by {
        assert s[..FirstIndex(init, b)] == init[..FirstIndex(init, b)];
      }
    } else {
      assert r == prior + [last] && b == last && last !in init;
      FirstIndexUnique(s, b, |init|) by {
        assert s[..|init|] == init;
      }
    }
  }

  /** A list without repeats is kept as it is. */
  lemma {:induction false} FirstOccurrencesOfDistinct(s: seq<string>)
    requires GoMaps.Distinct(s)
    ensures FirstOccurrences(s) == s
    decreases |s|
  {
    if |s| > 0 {
      var init := s[..|s| - 1];
      assert GoMaps.Distinct(init);
      FirstOccurrencesOfDistinct(init);
      assert s[|s| - 1] !in init;
      assert init + [s[|s| - 1]] == s;
    }
  }

  /** Removing repeats twice is removing them once. */
  lemma FirstOccurrencesIdempotent(s: seq<string>)
    ensures FirstOccurrences(FirstOccurrences(s)) == FirstOccurrences(s)
  {
    FirstOccurrencesOfDistinct(FirstOccurrences(s));
  }

  /** The filtering loop of `SendChatActions`, with a set for the map of seen actions. */
  method FilterActions(actions: seq<string>) returns (filtered: seq<string>)
    ensures filtered == FirstOccurrences(actions)
    ensures GoMaps.Distinct(filtered)
    ensures forall x :: x in filtered <==> x in actions
  {
    var seen: set<string> := {};
    filtered := [];
    var i := 0;
    while i < |actions|
      invariant 0 <= i <= |actions|
      invariant filtered == FirstOccurrences(actions[..i])
      invariant forall x :: x in seen <==> x in filtered
    {
      assert actions[..i + 1][..i] == actions[..i];
      if actions[i] !in seen {
        filtered := filtered + [actions[i]];
        seen := seen + {actions[i]};
      }
      i := i + 1;
    }
    assert actions[..i] == actions;
  }

  /** `SendChatActions`: the chat id and the actions without repeats. */
  function ChatActionsCall(chatId: string, actions: seq<string>): (r: Call)
    ensures r.path == "/chats/sendActions" && r.upload.None?
    ensures r.params.Keys == {"chatId", "actions"}
    ensures r.params["chatId"] == [chatId]
    ensures GoMaps.Distinct(r.params["actions"])
    ensures forall x :: x in r.params["actions"] <==> x in actions
  {
    Call("/chats/sendActions", map["chatId" := [chatId], "actions" := FirstOccurrences(actions)], None)
  }

  /**
   `ResolveChatPending`: the chat and the decision always; then either
   `everyone=true` and no user, or the user and no `everyone`.
   */
  function ChatPendingCall(chatId: string, userId: string, approve: bool, everyone: bool): (r: Call)
    ensures r.path == "/chats/resolvePending" && r.upload.None?
    ensures "chatId" in r.params && r.params["chatId"] == [chatId]
    ensures "approve" in r.params && r.params["approve"] == [FormatBool(approve)]
    ensures everyone ==> "everyone" in r.params && r.params["everyone"] == ["true"] && "userId" !in r.params
    ensures !everyone ==> "userId" in r.params && r.params["userId"] == [userId] && "everyone" !in r.params
    ensures |r.params.Keys| == 3
  {
    var params := map["chatId" := [chatId], "approve" := [FormatBool(approve)]];
    if everyone then Call("/chats/resolvePending", Set(params, "everyone", "true"), None)
    else Call("/chats/resolvePending", Set(params, "userId", userId), None)
  }

  /** The call behind each chat operation, addressed to `chatId`. */
  function ChatCall(chatId: string, op: BotChat.Operation): (r: Call)
    ensures "chatId" in r.params && r.params["chatId"] == [chatId]
    ensures r.upload.None?
    ensures op.ResolveJoinRequest? ==> r == ChatPendingCall(chatId, op.user, op.accept, false)
    ensures op.ResolveAllJoinRequests? ==> r == ChatPendingCall(chatId, "", op.acceptAll, true)
  {
    var id := map["chatId" := [chatId]];
    match op
    case SendActions(actions) => ChatActionsCall(chatId, actions)
    case GetAdmins => Call("/chats/getAdmins", id, None)
    case GetMembers => Call("/chats/getMembers", id, None)
    case GetBlockedUsers => Call("/chats/getBlockedUsers", id, None)
    case GetPendingUsers => Call("/chats/getPendingUsers", id, None)
    case BlockUser(userId, deleteLast) =>
      Call("/chats/blockUser", id["userId" := [userId]]["delLastMessages" := [FormatBool(deleteLast)]], None)
    case UnblockUser(userId) => Call("/chats/unblockUser", id["userId" := [userId]], None)
    case ResolveJoinRequest(userId, accept) => ChatPendingCall(chatId, userId, accept, false)
    case ResolveAllJoinRequests(accept) => ChatPendingCall(chatId, "", accept, true)
    case SetTitle(title) => Call("/chats/setTitle", id["title" := [title]], None)
    case SetAbout(about) => Call("/chats/setAbout", id["about" := [about]], None)
    case SetRules(rules) => Call("/chats/setRules", id["rules" := [rules]], None)
  }

  /** A `Chat` method: the call goes to the identifier `BotChat.Target` picks. */
  function ChatRequest(c: BotChat.Chat, op: BotChat.Operation): (r: Call)
    ensures "chatId" in r.params
    ensures r.params["chatId"] == [if op.SendActions? && c.kind == BotChat.Private then c.nick else c.id]
  {
    ChatCall(BotChat.Target(c, op), op)
  }

  /** A private chat's actions go to the user's nick; everything else about it goes to its id. */
  lemma PrivateChatAddressing(c: BotChat.Chat, actions: seq<string>, op: BotChat.Operation)
    requires c.kind == BotChat.Private
    ensures ChatRequest(c, BotChat.SendActions(actions)).params["chatId"] == [c.nick]
    ensures !op.SendActions? ==> ChatRequest(c, op).params["chatId"] == [c.id]
  {
  }

  /** `GetFileInfo`: the file id, at `/files/getInfo`. */
  function FileInfoCall(fileId: string): (r: Call)
    ensures r.path == "/files/getInfo" && r.upload.None?
    ensures r.params == map["fileId" := [fileId]]
  {
    Call("/files/getInfo", map["fileId" := [fileId]], None)
  }

  /** `GetFileInfo`: the call, then the decoded file; each failure keeps its own prefix. */
  function GetFileInfo<F>(c: Client, fileId: string, http: Http, decode: string -> Result<F>): (r: Result<F>)
    ensures Do(c, "/files/getInfo", map["fileId" := [fileId]], None, http).error.Some? ==>
              r == Err("error while receiving information: "
                       + Do(c, "/files/getInfo", map["fileId" := [fileId]], None, http).error.value)
    ensures r.Ok? ==> Do(c, "/files/getInfo", map["fileId" := [fileId]], None, http).error.None?
  {
    var call := FileInfoCall(fileId);
    var reply := Do(c, call.path, call.params, call.upload, http);
    if reply.error.Some? then Err("error while receiving information: " + reply.error.value)
    else match decode(reply.body.value)
      case Err(e) => Err("error while unmarshalling information: " + e)
      case Ok(f) => Ok(f)
  }

  /** `GetVoiceInfo` is `GetFileInfo`. */
  function GetVoiceInfo<F>(c: Client, fileId: string, http: Http, decode: string -> Result<F>): (r: Result<F>)
    ensures r == GetFileInfo(c, fileId, http, decode)
  {
    GetFileInfo(c, fileId, http, decode)
  }

  /** `GetEvents`: the cursor and the poll time in decimal. */
  function EventsCall(lastEventId: int, pollTime: int): (r: Call)
    ensures r.path == "/events/get" && r.upload.None?
    ensures r.params == map["lastEventId" := [Decimal.FormatInt(lastEventId)],
                            "pollTime" := [Decimal.FormatInt(pollTime)]]
  {
    Call("/events/get", map["lastEventId" := [Decimal.FormatInt(lastEventId)],
                            "pollTime" := [Decimal.FormatInt(pollTime)]], None)
  }

  /** Events asked with a different cursor are asked differently. */
  lemma EventsCallNamesCursor(a: int, b: int, pollTime: int)
    requires EventsCall(a, pollTime) == EventsCall(b, pollTime)
    ensures a == b
  {
    assert EventsCall(a, pollTime).params["lastEventId"] == [Decimal.FormatInt(a)];
    Decimal.FormatIntInjective(a, b);
  }

  /**
   `GetEvents`: the events of the answer, or no events and the error of the
   call or of decoding.
   */
  function GetEvents<E>(c: Client, lastEventId: int, pollTime: int, http: Http,
                        decode: string -> Result<seq<E>>): (r: (seq<E>, Status))
    ensures r.1.None? ==>
              var reply := Do(c, "/events/get", EventsCall(lastEventId, pollTime).params, None, http);
              && reply.error.None?
              && decode(reply.body.value).Ok?
              && r.0 == decode(reply.body.value).value
    ensures r.1.Some? ==> r.0 == []
  {
    var call := EventsCall(lastEventId, pollTime);
    var reply := Do(c, call.path, call.params, call.upload, http);
    if reply.error.Some? then ([], Some("error while making request: " + reply.error.value))
    else match decode(reply.body.value)
      case Err(e) => ([], Some("cannot parse events: " + e))
      case Ok(events) => (events, None)
  }

  /** The path of each message operation. */
  function PathOf(op: M.Operation): string
  {
    match op
    case SendTextMessage => "/messages/sendText"
    case EditMessage => "/messages/editText"
    case DeleteMessage => "/messages/deleteMessages"
    case SendFileMessage => "/messages/sendFile"
    case UploadFile => "/messages/sendFile"
    case SendVoiceMessage => "/messages/sendVoice"
    case UploadVoice => "/messages/sendVoice"
    case PinMessage => "/chats/pinMessage"
    case UnpinMessage => "/chats/unpinMessage"
  }

  /** The operations that pass on the reply and forward ids. */
  predicate Threads(op: M.Operation)
  {
    op.SendTextMessage? || op.SendFileMessage? || op.SendVoiceMessage?
  }

  /** The operations that send the inline keyboard. */
  predicate CarriesKeyboard(op: M.Operation)
  {
    !(op.DeleteMessage? || op.PinMessage? || op.UnpinMessage?)
  }

  predicate IsUpload(op: M.Operation)
  {
    op.UploadFile? || op.UploadVoice?
  }

  /** The optional reply and forward parameters: each only when its id is set. */
  function WithThread(params: Values, m: M.Message): (r: Values)
    ensures "replyMsgId" in r <==> "replyMsgId" in params || m.replyMsgId != ""
    ensures m.replyMsgId != "" ==> r["replyMsgId"] == [m.replyMsgId]
    ensures "forwardMsgId" in r <==> "forwardMsgId" in params || m.forwardMsgId != ""
    ensures "forwardChatId" in r <==> "forwardChatId" in params || m.forwardMsgId != ""
    ensures m.forwardMsgId != "" ==> r["forwardMsgId"] == [m.forwardMsgId] && r["forwardChatId"] == [m.forwardChatId]
    ensures forall k :: k in params && k !in {"replyMsgId", "forwardMsgId", "forwardChatId"} ==>
              k in r && r[k] == params[k]
  {
    var withReply := SetIf(params, m.replyMsgId != "", "replyMsgId", m.replyMsgId);
    var withForward := SetIf(withReply, m.forwardMsgId != "", "forwardMsgId", m.forwardMsgId);
    SetIf(withForward, m.forwardMsgId != "", "forwardChatId", m.forwardChatId)
  }

  /** The parameters every message operation starts from. */
  function BaseParams(op: M.Operation, m: M.Message): (r: Values)
    ensures "chatId" in r && r["chatId"] == [m.chat.id]
    ensures r.Keys !! {"replyMsgId", "forwardMsgId", "forwardChatId", "inlineKeyboardMarkup", "token"}
  {
    match op
    case SendTextMessage => map["chatId" := [m.chat.id], "text" := [m.text]]
    case EditMessage => map["msgId" := [m.id], "chatId" := [m.chat.id], "text" := [m.text]]
    case DeleteMessage => map["msgId" := [m.id], "chatId" := [m.chat.id]]
    case SendFileMessage => map["chatId" := [m.chat.id], "caption" := [m.text], "fileId" := [m.fileId]]
    case SendVoiceMessage => map["chatId" := [m.chat.id], "caption" := [m.text], "fileId" := [m.fileId]]
    case UploadFile => map["chatId" := [m.chat.id], "caption" := [m.text]]
    case UploadVoice => map["chatId" := [m.chat.id], "caption" := [m.text]]
    case PinMessage => map["chatId" := [m.chat.id], "msgId" := [m.id]]
    case UnpinMessage => map["chatId" := [m.chat.id], "msgId" := [m.id]]
  }

  /** The parameters of a message operation before the keyboard: the base ones, and the thread ids where it passes them on. */
  function OpParams(op: M.Operation, m: M.Message): (r: Values)
    ensures "chatId" in r && r["chatId"] == [m.chat.id]
    ensures "replyMsgId" in r <==> Threads(op) && m.replyMsgId != ""
    ensures "forwardMsgId" in r <==> Threads(op) && m.forwardMsgId != ""
    ensures "forwardChatId" in r <==> Threads(op) && m.forwardMsgId != ""
    ensures "inlineKeyboardMarkup" !in r && "token" !in r
  {
    var base := BaseParams(op, m);
    if Threads(op) then WithThread(base, m) else base
  }

  /**
   The call of a message operation: its base parameters, the reply and
   forward ids where the operation passes them on, and the keyboard as JSON
   where it sends one, whose encoding can fail.
   */
  function MessageCall(d: M.Dispatch, marshal: seq<seq<BotKeyboard.Button>> -> Result<string>): (r: Result<Call>)
    ensures r.Err? <==>
              CarriesKeyboard(d.op) && d.message.inlineKeyboard.Some?
              && marshal(d.message.inlineKeyboard.value.rows).Err?
    ensures r.Err? ==>
              r.error == "cannot marshal inline keyboard markup: " + marshal(d.message.inlineKeyboard.value.rows).error
    ensures r.Ok? ==>
              var call := r.value;
              && call.path == PathOf(d.op)
              && (call.upload.Some? <==> IsUpload(d.op) && d.message.file.Some?)
              && (IsUpload(d.op) ==> call.upload == d.message.file)
              && "chatId" in call.params && call.params["chatId"] == [d.message.chat.id]
              && ("replyMsgId" in call.params <==> Threads(d.op) && d.message.replyMsgId != "")
              && ("forwardMsgId" in call.params <==> Threads(d.op) && d.message.forwardMsgId != "")
              && ("forwardChatId" in call.params <==> Threads(d.op) && d.message.forwardMsgId != "")
              && ("inlineKeyboardMarkup" in call.params <==> CarriesKeyboard(d.op) && d.message.inlineKeyboard.Some?)
              && "token" !in call.params
  {
    var m := d.message;
    var params := OpParams(d.op, m);
    var upload := if IsUpload(d.op) then m.file else None;
    if CarriesKeyboard(d.op) && m.inlineKeyboard.Some? then
      match marshal(m.inlineKeyboard.value.rows)
      case Err(e) => Err("cannot marshal inline keyboard markup: " + e)
      case Ok(data) => Ok(Call(PathOf(d.op), Set(params, "inlineKeyboardMarkup", data), upload))
    else Ok(Call(PathOf(d.op), params, upload))
  }

  /** The prefix of a failed `Do` in each message operation's error. */
  function RequestErrorPrefix(op: M.Operation): string
  {
    match op
    case SendTextMessage => "error while sending text: "
    case EditMessage => "error while editing text: "
    case DeleteMessage => "error while deleting message: "
    case PinMessage => "error while pinning message: "
    case UnpinMessage => "error while unpinning message: "
    case _ => "error while making request: "
  }

  /** The operations that decode the answer back into the message. */
  predicate ReadsBack(op: M.Operation)
  {
    !(op.DeleteMessage? || op.PinMessage? || op.UnpinMessage?)
  }

  function DecodeErrorPrefix(op: M.Operation): string
  {
    if op.SendTextMessage? || op.EditMessage? then "cannot unmarshal response from API: "
    else "cannot unmarshal response: "
  }

  /** The message after a message operation, and its error. */
  datatype Sent = Sent(message: M.Message, error: Status)

  /**
   A message operation: build the call, make it, and read the answer back
   into the message (`absorb` is `json.Unmarshal` into it) where the
   operation does so.
   */
  function Deliver(c: Client, d: M.Dispatch, http: Http,
                   marshal: seq<seq<BotKeyboard.Button>> -> Result<string>,
                   absorb: (string, M.Message) -> Result<M.Message>): (r: Sent)
    ensures MessageCall(d, marshal).Err? ==> r == Sent(d.message, Some(MessageCall(d, marshal).error))
    ensures MessageCall(d, marshal).Ok? ==>
              var call := MessageCall(d, marshal).value;
              var reply := Do(c, call.path, call.params, call.upload, http);
              && (reply.error.Some? ==> r == Sent(d.message, Some(RequestErrorPrefix(d.op) + reply.error.value)))
              && (reply.error.None? && !ReadsBack(d.op) ==> r == Sent(d.message, None))
              && (reply.error.None? && ReadsBack(d.op) ==>
                    var back := absorb(reply.body.value, d.message);
                    && (back.Err? ==> r == Sent(d.message, Some(DecodeErrorPrefix(d.op) + back.error)))
                    && (back.Ok? ==> r == Sent(back.value, None)))
    ensures r.error.None? ==> MessageCall(d, marshal).Ok?
  {
    match MessageCall(d, marshal)
    case Err(e) => Sent(d.message, Some(e))
    case Ok(call) =>
      var reply := Do(c, call.path, call.params, call.upload, http);
      if reply.error.Some? then Sent(d.message, Some(RequestErrorPrefix(d.op) + reply.error.value))
      else if !ReadsBack(d.op) then Sent(d.message, None)
      else match absorb(reply.body.value, d.message)
        case Err(e) => Sent(d.message, Some(DecodeErrorPrefix(d.op) + e))
        case Ok(back) => Sent(back, None)
  }

  /** A reply sends the text to the same chat, naming the replied message. */
  lemma ReplyCarriesReplyId(m: M.Message, text: string, marshal: seq<seq<BotKeyboard.Button>> -> Result<string>)
    requires m.id != ""
    requires MessageCall(M.Act(m, M.Reply(text)).value, marshal).Ok?
    ensures var params := MessageCall(M.Act(m, M.Reply(text)).value, marshal).value.params;
            && params["replyMsgId"] == [m.id]
            && params["text"] == [text]
            && params["chatId"] == [m.chat.id]
  {
  }

  /**
   A forward sends to the new chat and names the original message and chat;
   without an id set before, it names no reply.
   */
  lemma ForwardNamesOrigin(m: M.Message, chatId: string, marshal: seq<seq<BotKeyboard.Button>> -> Result<string>)
    requires m.id != ""
    requires MessageCall(M.Act(m, M.Forward(chatId)).value, marshal).Ok?
    ensures var params := MessageCall(M.Act(m, M.Forward(chatId)).value, marshal).value.params;
            && params["forwardMsgId"] == [m.id]
            && params["forwardChatId"] == [m.chat.id]
            && params["chatId"] == [chatId]
            && ("replyMsgId" in params <==> m.replyMsgId != "")
  {
  }

  /** `SendAnswerCallbackQuery`: the query, the text, the URL and the alert flag. */
  function AnswerCallbackCall(queryId: string, text: string, url: string, showAlert: bool): (r: Call)
    ensures r.path == "/messages/answerCallbackQuery" && r.upload.None?
    ensures r.params.Keys == {"queryId", "text", "url", "showAlert"}
    ensures r.params["showAlert"] == [FormatBool(showAlert)]
  {
    Call("/messages/answerCallbackQuery",
         map["queryId" := [queryId], "text" := [text], "url" := [url], "showAlert" := [FormatBool(showAlert)]], None)
  }
}
