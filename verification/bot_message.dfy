/**
 A message of the mail.ru bot library
 (`vendor/github.com/mail-ru-im/bot-golang/message.go`, `voice.go`): which
 client operation `Send` picks for it, what the other message operations
 demand and change, and the attachment helpers. The client operation itself
 is in `BotClient`; here a message operation ends with the `Dispatch` it
 hands to the client.
 */
module BotMessage {
  import opened Wrappers
  import BotKeyboard
  import BotChat

  datatype ContentType = Unknown | Text | OtherFile | Voice

  /** The extensions of an uploaded file that make an unknown message a voice message. */
  const VoiceExtensions: set<string> := {".aac", ".ogg", ".m4a"}

  /** The first character of every voice file id. */
  const VoiceLeadingChar: char := 'I'

  datatype Message = Message(
    bound: bool,                  // `client != nil`
    contentType: ContentType,
    id: string,
    file: Option<string>,         // the attached `*os.File`, by its name
    fileId: string,
    text: string,
    chat: BotChat.Chat,
    replyMsgId: string,
    forwardMsgId: string,
    forwardChatId: string,
    timestamp: int,
    inlineKeyboard: Option<BotKeyboard.Keyboard>)

  /**
   A message as the constructors make it: bound to the bot's client,
   addressed to `chat`, every other field zero.
   */
  function Fresh(chat: BotChat.Chat): (m: Message)
    ensures m.bound && m.chat == chat && m.contentType == Unknown
    ensures m.id == "" && m.fileId == "" && m.file.None? && m.text == ""
  {
    Message(true, Unknown, "", None, "", "", chat, "", "", "", 0, None)
  }

  /** `AttachNewFile`: the file is attached and the message becomes a file message. */
  function AttachNewFile(m: Message, name: string): (r: Message)
    ensures r.file == Some(name) && r.contentType == OtherFile
    ensures r.(file := m.file, contentType := m.contentType) == m
  {
    m.(file := Some(name), contentType := OtherFile)
  }

  /** `AttachExistingFile`: an uploaded file by its id; the message becomes a file message. */
  function AttachExistingFile(m: Message, fileId: string): (r: Message)
    ensures r.fileId == fileId && r.contentType == OtherFile
    ensures r.(fileId := m.fileId, contentType := m.contentType) == m
  {
    m.(fileId := fileId, contentType := OtherFile)
  }

  /** `AttachNewVoice`: the file is attached and the message becomes a voice message. */
  function AttachNewVoice(m: Message, name: string): (r: Message)
    ensures r.file == Some(name) && r.contentType == Voice
    ensures r.(file := m.file, contentType := m.contentType) == m
  {
    m.(file := Some(name), contentType := Voice)
  }

  /** `AttachExistingVoice`: an uploaded voice file by its id; the message becomes a voice message. */
  function AttachExistingVoice(m: Message, fileId: string): (r: Message)
    ensures r.fileId == fileId && r.contentType == Voice
    ensures r.(fileId := m.fileId, contentType := m.contentType) == m
  {
    m.(fileId := fileId, contentType := Voice)
  }

  /** `AttachInlineKeyboard`: the keyboard replaces any earlier one; nothing else changes. */
  function AttachInlineKeyboard(m: Message, k: BotKeyboard.Keyboard): (r: Message)
    ensures r.inlineKeyboard == Some(k)
    ensures r.(inlineKeyboard := m.inlineKeyboard) == m
  {
    m.(inlineKeyboard := Some(k))
  }

  /** The part of a path after its last `/`. */
  function LastElement(path: string): (r: string)
    ensures '/' !in r
  {
    if |path| == 0 || path[|path| - 1] == '/' then ""
    else LastElement(path[..|path| - 1]) + [path[|path| - 1]]
  }

  /**
   `filepath.Ext` with `/` as the separator: the suffix of the path from the
   last `.` of its last element, or "" when that element has no `.`.
   */
  function Ext(path: string): (r: string)
    ensures |r| <= |path|
  {
    if |path| == 0 || path[|path| - 1] == '/' then ""
    else if path[|path| - 1] == '.' then "."
    else
      var e := Ext(path[..|path| - 1]);
      if e == "" then "" else e + [path[|path| - 1]]
  }

  /**
   What `Ext` returns: nothing exactly when the last element has no `.`;
   otherwise a suffix of the path that starts with its only `.` and holds no
   `/`.
   */
  lemma {:induction false} ExtShape(path: string)
    ensures var r := Ext(path);
            && (r == "" <==> '.' !in LastElement(path))
            && (r != "" ==> r[0] == '.' && '.' !in r[1..] && '/' !in r)
            && r == path[|path| - |r|..]
    decreases |path|
  {
    var r := Ext(path);
    if |path| == 0 || path[|path| - 1] == '/' {
    } else {
      var n := |path|;
      var init := path[..n - 1];
      var c := path[n - 1];
      assert path == init + [c];
      assert LastElement(path) == LastElement(init) + [c];
      if c == '.' {
        assert r == ".";
        assert '.' in LastElement(path) by {
          assert LastElement(path)[|LastElement(path)| - 1] == '.';
        }
      } else {
        ExtShape(init);
        var e := Ext(init);
        if e == "" {
          assert r == "";
          assert '.' !in LastElement(path);
        } else {
          assert r == e + [c];
          assert '.' in LastElement(init);
          assert r[1..] == e[1..] + [c];
          assert r == path[n - |r|..] by {
            assert e == init[|init| - |e|..];
            assert path[n - |r|..] == init[|init| - |e|..] + [c];
          }
        }
      }
    }
  }

  /** A name `stem.ext` whose `ext` has neither `.` nor `/` has the extension `.ext`. */
  lemma {:induction false} ExtOfName(stem: string, ext: string)
    requires '.' !in ext && '/' !in ext
    ensures Ext(stem + "." + ext) == "." + ext
    decreases |ext|
  {
    var path := stem + "." + ext;
    if |ext| == 0 {
      assert |path| > 0;
      assert path[|path| - 1] == '.';
    } else {
      var shorter := ext[..|ext| - 1];
      assert path[..|path| - 1] == stem + "." + shorter;
      assert '.' !in shorter && '/' !in shorter by {
        forall i | 0 <= i < |shorter|
          ensures shorter[i] == ext[i]
        {
        }
      }
      ExtOfName(stem, shorter);
      assert path[|path| - 1] == ext[|ext| - 1];
      assert "." + shorter + [ext[|ext| - 1]] == "." + ext;
    }
  }

  /** An uploaded file that an unknown message sends as voice. */
  predicate IsVoiceFile(name: string)
  {
    Ext(name) in VoiceExtensions
  }

  /** The client operations a message is handed to. */
  datatype Operation =
    | SendVoiceMessage
    | UploadVoice
    | SendFileMessage
    | UploadFile
    | SendTextMessage
    | EditMessage
    | DeleteMessage
    | PinMessage
    | UnpinMessage

  /** A client operation and the message it is given. */
  datatype Dispatch = Dispatch(op: Operation, message: Message)

  const NoClient: string := "client is not inited, create message with constructor NewMessage, NewTextMessage, etc"
  const NoChat: string := "message should have chat id"
  const NoData: string := "cannot send message or file without data"

  /** Whether a message has something `Send` can send, by content type. */
  predicate HasData(m: Message)
  {
    match m.contentType
    case Text => true
    case Voice => m.fileId != "" || m.file.Some?
    case OtherFile => m.fileId != "" || m.file.Some?
    case Unknown => m.fileId != "" || m.file.Some? || m.text != ""
  }

  /**
   The switch of `Send`: a file id wins over a file; a text message always
   sends text; an unknown message is recognised as voice by a file id that
   starts with `I` or by the extension of the uploaded file's name.
   */
  function Route(m: Message): (r: Option<Operation>)
    ensures r.Some? <==> HasData(m)
    ensures r == Some(UploadVoice) || r == Some(UploadFile) ==> m.fileId == "" && m.file.Some?
    ensures r == Some(SendVoiceMessage) || r == Some(SendFileMessage) ==> m.fileId != ""
    ensures r == Some(SendTextMessage) <==>
              m.contentType == Text || (m.contentType == Unknown && m.fileId == "" && m.file.None? && m.text != "")
    ensures m.contentType == Voice && r.Some? ==> r.value == SendVoiceMessage || r.value == UploadVoice
    ensures m.contentType == OtherFile && r.Some? ==> r.value == SendFileMessage || r.value == UploadFile
    ensures m.contentType == Unknown && m.fileId != "" ==>
              (r == Some(SendVoiceMessage) <==> m.fileId[0] == VoiceLeadingChar)
    ensures m.contentType == Unknown && m.fileId == "" && m.file.Some? ==>
              (r == Some(UploadVoice) <==> IsVoiceFile(m.file.value))
  {
    match m.contentType
    case Voice =>
      if m.fileId != "" then Some(SendVoiceMessage)
      else if m.file.Some? then Some(UploadVoice)
      else None
    case OtherFile =>
      if m.fileId != "" then Some(SendFileMessage)
      else if m.file.Some? then Some(UploadFile)
      else None
    case Text => Some(SendTextMessage)
    case Unknown =>
      if m.fileId != "" then
        if m.fileId[0] == VoiceLeadingChar then Some(SendVoiceMessage) else Some(SendFileMessage)
      else if m.file.Some? then
        if IsVoiceFile(m.file.value) then Some(UploadVoice) else Some(UploadFile)
      else if m.text != "" then Some(SendTextMessage)
      else None
  }

  /**
   `Message.Send`: without a client or a chat id nothing is chosen; otherwise
   the message goes, unchanged, to the operation `Route` picks, or fails
   without data.
   */
  function Send(m: Message): (r: Result<Dispatch>)
    ensures !m.bound ==> r == Err(NoClient)
    ensures m.bound && m.chat.id == "" ==> r == Err(NoChat)
    ensures m.bound && m.chat.id != "" && !HasData(m) ==> r == Err(NoData)
    ensures r.Ok? <==> m.bound && m.chat.id != "" && HasData(m)
    ensures r.Ok? ==> r.value.message == m && Some(r.value.op) == Route(m)
  {
    if !m.bound then Err(NoClient)
    else if m.chat.id == "" then Err(NoChat)
    else
      match Route(m)
      case Some(op) => Ok(Dispatch(op, m))
      case None => Err(NoData)
  }

  /** The message operations that need the message's id. */
  datatype Action = Edit | Delete | Reply(replyText: string) | Forward(toChat: string) | Pin | Unpin

  /** The verb of each action's error. */
  function Verb(a: Action): string
  {
    match a
    case Edit => "edit"
    case Delete => "delete"
    case Reply(_) => "reply to"
    case Forward(_) => "forward"
    case Pin => "pin"
    case Unpin => "unpin"
  }

  /**
   `Edit`, `Delete`, `Reply`, `Forward`, `Pin` and `Unpin`: each fails on an
   empty id; `Reply` and `Forward` rewrite the message before it goes to the
   send-text operation, the others hand it over as it is.
   */
  function Act(m: Message, a: Action): (r: Result<Dispatch>)
    ensures r.Err? <==> m.id == ""
    ensures r.Err? ==> r.error == "cannot " + Verb(a) + " message without id"
    ensures r.Ok? && a.Edit? ==> r.value == Dispatch(EditMessage, m)
    ensures r.Ok? && a.Delete? ==> r.value == Dispatch(DeleteMessage, m)
    ensures r.Ok? && a.Pin? ==> r.value == Dispatch(PinMessage, m)
    ensures r.Ok? && a.Unpin? ==> r.value == Dispatch(UnpinMessage, m)
    ensures r.Ok? && a.Reply? ==>
              var sent := r.value.message;
              && r.value.op == SendTextMessage
              && sent.replyMsgId == m.id && sent.text == a.replyText
              && sent.(replyMsgId := m.replyMsgId, text := m.text) == m
    ensures r.Ok? && a.Forward? ==>
              var sent := r.value.message;
              && r.value.op == SendTextMessage
              && sent.forwardChatId == m.chat.id && sent.forwardMsgId == m.id
              && sent.chat.id == a.toChat
              && sent.(forwardChatId := m.forwardChatId, forwardMsgId := m.forwardMsgId,
                       chat := sent.chat.(id := m.chat.id)) == m
  {
    if m.id == "" then Err("cannot " + Verb(a) + " message without id")
    else
      match a
      case Edit => Ok(Dispatch(EditMessage, m))
      case Delete => Ok(Dispatch(DeleteMessage, m))
      case Reply(text) => Ok(Dispatch(SendTextMessage, m.(replyMsgId := m.id, text := text)))
      case Forward(chatId) =>
        Ok(Dispatch(SendTextMessage, m.(forwardChatId := m.chat.id, forwardMsgId := m.id,
                                        chat := m.chat.(id := chatId))))
      case Pin => Ok(Dispatch(PinMessage, m))
      case Unpin => Ok(Dispatch(UnpinMessage, m))
  }

  /** An uploaded voice file is sent by its id once it has one, whatever file is still attached. */
  lemma FileIdWins(m: Message, fileId: string)
    requires m.bound && m.chat.id != "" && fileId != ""
    ensures Send(AttachExistingVoice(m, fileId)).value.op == SendVoiceMessage
    ensures Send(AttachExistingFile(m, fileId)).value.op == SendFileMessage
  {
  }

  /** A new voice file attached to a message without a file id is uploaded as voice. */
  lemma NewVoiceIsUploaded(m: Message, name: string)
    requires m.bound && m.chat.id != "" && m.fileId == ""
    ensures Send(AttachNewVoice(m, name)).value.op == UploadVoice
    ensures Send(AttachNewFile(m, name)).value.op == UploadFile
  {
  }

  /** An unknown message with an `.ogg` upload and no file id is sent as voice. */
  lemma OggIsVoice(m: Message, stem: string)
    requires m.bound && m.chat.id != "" && m.contentType == Unknown && m.fileId == ""
    requires m.file == Some(stem + ".ogg")
    ensures Send(m).value.op == UploadVoice
  {
    ExtOfName(stem, "ogg");
    assert stem + "." + "ogg" == stem + ".ogg";
    assert "." + "ogg" == ".ogg";
    assert ".ogg" in VoiceExtensions;
    assert IsVoiceFile(m.file.value);
    assert Route(m) == Some(UploadVoice);
  }
}
