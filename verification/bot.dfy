/**
 The bot of the mail.ru bot library
 (`vendor/github.com/mail-ru-im/bot-golang/bot.go`, `options.go`): how
 `NewBot` folds its options into the API URL and the debug flag, the
 message constructors, and `SendMessage`. Logging is left out.
 */
module Bot {
  import opened Wrappers
  import BotChat
  import BotKeyboard
  import M = BotMessage
  import C = BotClient
  import U = BotUpdates

  const DefaultApiUrl: string := "https://api.icq.net/bot/v1"
  const DefaultDebug: bool := false

  /** What an option's `Value()` returns, an `interface{}`. */
  datatype Any = AString(s: string) | ABool(b: bool) | AOther

  /** A `BotOption`: its `Type()` and its `Value()`. */
  datatype BotOption = BotOption(kind: string, value: Any)

  /** `BotApiURL`. */
  function ApiUrl(url: string): BotOption
  {
    BotOption("api_url", AString(url))
  }

  /** `BotDebug`. */
  function Debug(on: bool): BotOption
  {
    BotOption("debug", ABool(on))
  }

  datatype Settings = Settings(apiUrl: string, debug: bool)

  const Defaults: Settings := Settings(DefaultApiUrl, DefaultDebug)

  /**
   One step of the option loop: `api_url` and `debug` overwrite their
   setting, any other type is ignored. A value of the wrong type fails the
   type assertion, which panics: `None`.
   */
  function Apply(acc: Settings, o: BotOption): (r: Option<Settings>)
    ensures o.kind != "api_url" && o.kind != "debug" ==> r == Some(acc)
    ensures o.kind == "api_url" ==> (r.Some? <==> o.value.AString?)
    ensures o.kind == "api_url" && o.value.AString? ==> r == Some(acc.(apiUrl := o.value.s))
    ensures o.kind == "debug" ==> (r.Some? <==> o.value.ABool?)
    ensures o.kind == "debug" && o.value.ABool? ==> r == Some(acc.(debug := o.value.b))
  {
    if o.kind == "api_url" then
      if o.value.AString? then Some(acc.(apiUrl := o.value.s)) else None
    else if o.kind == "debug" then
      if o.value.ABool? then Some(acc.(debug := o.value.b)) else None
    else Some(acc)
  }

  /** The loop of `NewBot` over its options, in order. */
  function Fold(opts: seq<BotOption>, acc: Settings): (r: Option<Settings>)
    decreases |opts|
  {
    if |opts| == 0 then Some(acc)
    else match Apply(acc, opts[0])
      case None => None
      case Some(next) => Fold(opts[1..], next)
  }

  /** Every recognised option carries a value of its own type. */
  predicate WellTyped(opts: seq<BotOption>)
  {
    forall i :: 0 <= i < |opts| ==>
      (opts[i].kind == "api_url" ==> opts[i].value.AString?) && (opts[i].kind == "debug" ==> opts[i].value.ABool?)
  }

  /** The URL of the last `api_url` option, or `otherwise` when there is none. */
  function LastApiUrl(opts: seq<BotOption>, otherwise: string): string
    requires WellTyped(opts)
  {
    if |opts| == 0 then otherwise
    else if opts[|opts| - 1].kind == "api_url" then opts[|opts| - 1].value.s
    else LastApiUrl(opts[..|opts| - 1], otherwise)
  }

  /** The flag of the last `debug` option, or `otherwise` when there is none. */
  function LastDebug(opts: seq<BotOption>, otherwise: bool): bool
    requires WellTyped(opts)
  {
    if |opts| == 0 then otherwise
    else if opts[|opts| - 1].kind == "debug" then opts[|opts| - 1].value.b
    else LastDebug(opts[..|opts| - 1], otherwise)
  }

  /** Folding one more option is applying it to the fold of the others. */
  lemma {:induction false} FoldSnoc(opts: seq<BotOption>, o: BotOption, acc: Settings)
    ensures Fold(opts + [o], acc) == (if Fold(opts, acc).None? then None else Apply(Fold(opts, acc).value, o))
    decreases |opts|
  {
    if |opts| == 0 {
      assert opts + [o] == [o];
      assert [o][1..] == [];
    } else {
      assert (opts + [o])[0] == opts[0];
      assert (opts + [o])[1..] == opts[1..] + [o];
      match Apply(acc, opts[0])
      case None =>
      case Some(next) => FoldSnoc(opts[1..], o, next);
    }
  }

  /**
   With well-typed options the fold never panics, and each setting is the
   value of the last option of its type; options of any other type change
   nothing.
   */
  lemma {:induction false} FoldIsLastWins(opts: seq<BotOption>, acc: Settings)
    requires WellTyped(opts)
    ensures Fold(opts, acc) == Some(Settings(LastApiUrl(opts, acc.apiUrl), LastDebug(opts, acc.debug)))
    decreases |opts|
  {
    if |opts| > 0 {
      var init := opts[..|opts| - 1];
      var o := opts[|opts| - 1];
      assert init + [o] == opts;
      assert WellTyped(init) by {
        forall i | 0 <= i < |init|
          ensures init[i] == opts[i]
        {
        }
      }
      FoldIsLastWins(init, acc);
      FoldSnoc(init, o, acc);
    }
  }

  /** Only the defaults when no option is given. */
  lemma NoOptionsMeansDefaults()
    ensures Fold([], Defaults) == Some(Settings("https://api.icq.net/bot/v1", false))
  {
  }

  /** A later option overrides an earlier one of the same type. */
  lemma LaterUrlWins(first: string, second: string, on: bool)
    ensures Fold([ApiUrl(first), Debug(on), ApiUrl(second)], Defaults) == Some(Settings(second, on))
  {
    var opts := [ApiUrl(first), Debug(on), ApiUrl(second)];
    assert WellTyped(opts);
    FoldIsLastWins(opts, Defaults);
    assert opts[..2] == [ApiUrl(first), Debug(on)];
    assert opts[..2][..1] == [ApiUrl(first)];
  }

  /** A bot: its client, its updater, the description of itself it was given, and the debug flag. */
  datatype Bot<I> = Bot(client: C.Client, updater: U.Updater, info: I, debug: bool)

  datatype Created<I> = Made(bot: Bot<I>) | Refused(error: string) | Panicked

  /**
   `NewBot`: fold the options, build the client on the chosen URL and an
   updater with the default poll time, then ask the API about the bot; a
   failure of that question is the error of `NewBot`.
   */
  function NewBot<I>(token: string, opts: seq<BotOption>, http: C.Http, decode: string -> Result<I>): (r: Created<I>)
    ensures Fold(opts, Defaults).None? <==> r.Panicked?
    ensures Fold(opts, Defaults).Some? ==>
              var s := Fold(opts, Defaults).value;
              var info := C.GetInfo(C.Client(token, s.apiUrl), http, decode);
              && (info.Err? ==> r == Refused("cannot get info about bot: " + info.error))
              && (info.Ok? ==> r.Made? && r.bot.info == info.value)
    ensures r.Made? ==>
              && r.bot.client.token == token
              && r.bot.updater == U.NewUpdater(r.bot.client, 0)
              && r.bot.updater.pollTime == U.DefaultPollTime
  {
    match Fold(opts, Defaults)
    case None => Panicked
    case Some(s) =>
      var client := C.Client(token, s.apiUrl);
      match C.GetInfo(client, http, decode)
      case Err(e) => Refused("cannot get info about bot: " + e)
      case Ok(info) => Made(Bot(client, U.NewUpdater(client, 0), info, s.debug))
  }

  /** A bot made with well-typed options talks to the last URL given, or to the default one. */
  lemma NewBotUsesLastUrl<I>(token: string, opts: seq<BotOption>, http: C.Http, decode: string -> Result<I>)
    requires WellTyped(opts)
    requires NewBot(token, opts, http, decode).Made?
    ensures NewBot(token, opts, http, decode).bot.client.baseUrl == LastApiUrl(opts, DefaultApiUrl)
    ensures NewBot(token, opts, http, decode).bot.debug == LastDebug(opts, DefaultDebug)
  {
    FoldIsLastWins(opts, Defaults);
  }

  /** `NewMessage`: a message to the chat, with nothing in it yet. */
  function NewMessage(chatId: string): (m: M.Message)
    ensures m.chat == BotChat.WithId(chatId) && m.contentType == M.Unknown && m.bound
    ensures m.id == "" && m.text == "" && m.fileId == "" && m.file.None? && m.inlineKeyboard.None?
  {
    M.Fresh(BotChat.WithId(chatId))
  }

  /** `NewTextMessage`: a text message. */
  function NewTextMessage(chatId: string, text: string): (m: M.Message)
    ensures m.contentType == M.Text && m.text == text && m.chat.id == chatId && m.bound
    ensures m.(contentType := M.Unknown, text := "") == NewMessage(chatId)
  {
    NewMessage(chatId).(text := text, contentType := M.Text)
  }

  /** `NewInlineKeyboardMessage`: a text message with a keyboard. */
  function NewInlineKeyboardMessage(chatId: string, text: string, k: BotKeyboard.Keyboard): (m: M.Message)
    ensures m.contentType == M.Text && m.inlineKeyboard == Some(k)
    ensures m.(inlineKeyboard := None) == NewTextMessage(chatId, text)
  {
    NewTextMessage(chatId, text).(inlineKeyboard := Some(k))
  }

  /** `NewFileMessage`: a file to upload. */
  function NewFileMessage(chatId: string, file: string): (m: M.Message)
    ensures m.contentType == M.OtherFile && m.file == Some(file) && m.fileId == ""
    ensures m == M.AttachNewFile(NewMessage(chatId), file)
  {
    NewMessage(chatId).(file := Some(file), contentType := M.OtherFile)
  }

  /** `NewFileMessageByFileID`: an uploaded file by its id. */
  function NewFileMessageByFileId(chatId: string, fileId: string): (m: M.Message)
    ensures m.contentType == M.OtherFile && m.fileId == fileId && m.file.None?
    ensures m == M.AttachExistingFile(NewMessage(chatId), fileId)
  {
    NewMessage(chatId).(fileId := fileId, contentType := M.OtherFile)
  }

  /** `NewVoiceMessage`: a voice file to upload. */
  function NewVoiceMessage(chatId: string, file: string): (m: M.Message)
    ensures m.contentType == M.Voice && m.file == Some(file) && m.fileId == ""
    ensures m == M.AttachNewVoice(NewMessage(chatId), file)
  {
    NewMessage(chatId).(file := Some(file), contentType := M.Voice)
  }

  /** `NewVoiceMessageByFileID`: an uploaded voice file by its id. */
  function NewVoiceMessageByFileId(chatId: string, fileId: string): (m: M.Message)
    ensures m.contentType == M.Voice && m.fileId == fileId && m.file.None?
    ensures m == M.AttachExistingVoice(NewMessage(chatId), fileId)
  {
    NewMessage(chatId).(fileId := fileId, contentType := M.Voice)
  }

  /**
   Each constructor's message goes where its name says once it has a chat:
   text to the text operation, a file or voice upload to its upload, a file
   or voice id to its send; the bare message has nothing to send.
   */
  lemma ConstructorsRoute(chatId: string, text: string, file: string, fileId: string)
    requires chatId != "" && fileId != ""
    ensures M.Send(NewTextMessage(chatId, text)).value.op == M.SendTextMessage
    ensures M.Send(NewFileMessage(chatId, file)).value.op == M.UploadFile
    ensures M.Send(NewFileMessageByFileId(chatId, fileId)).value.op == M.SendFileMessage
    ensures M.Send(NewVoiceMessage(chatId, file)).value.op == M.UploadVoice
    ensures M.Send(NewVoiceMessageByFileId(chatId, fileId)).value.op == M.SendVoiceMessage
    ensures M.Send(NewMessage(chatId)) == Err(M.NoData)
  {
  }

  /** `PartMessage`: a message quoted inside another. */
  datatype PartMessage = PartMessage(from: U.Contact, msgId: string, text: string, timestamp: int)

  /**
   `NewMessageFromPart`: the quoted message, addressed to its author (a chat
   whose id is the author's user id and whose title is the author's first
   name).
   */
  function NewMessageFromPart(p: PartMessage): (m: M.Message)
    ensures m.bound && m.contentType == M.Unknown
    ensures m.chat == BotChat.WithId(p.from.userId).(title := p.from.firstName)
    ensures m.id == p.msgId && m.text == p.text && m.timestamp == p.timestamp
  {
    M.Fresh(BotChat.WithId(p.from.userId).(title := p.from.firstName)).(id := p.msgId, text := p.text, timestamp := p.timestamp)
  }

  /** A reply to a quoted message goes to its author and names the quoted message. */
  lemma ReplyToPartGoesToAuthor(p: PartMessage, text: string)
    requires p.msgId != ""
    ensures var sent := M.Act(NewMessageFromPart(p), M.Reply(text)).value.message;
            sent.chat.id == p.from.userId && sent.replyMsgId == p.msgId
  {
  }

  /**
   `SendMessage`: the message is bound to the bot's client first, so
   `Message.Send` never refuses it for want of one; then it is sent as
   `Message.Send` decides.
   */
  function SendMessage<I>(b: Bot<I>, m: M.Message, http: C.Http,
                          marshal: seq<seq<BotKeyboard.Button>> -> Result<string>,
                          absorb: (string, M.Message) -> Result<M.Message>): (r: C.Sent)
    ensures M.Send(m.(bound := true)) != Err(M.NoClient)
    ensures M.Send(m.(bound := true)).Err? ==> r == C.Sent(m.(bound := true), Some(M.Send(m.(bound := true)).error))
    ensures M.Send(m.(bound := true)).Ok? ==>
              r == C.Deliver(b.client, M.Send(m.(bound := true)).value, http, marshal, absorb)
  {
    var bound := m.(bound := true);
    match M.Send(bound)
    case Err(e) => C.Sent(bound, Some(e))
    case Ok(d) =>
      C.Deliver(b.client, d, http, marshal, absorb)
  }
}
