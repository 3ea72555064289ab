/**
 The event updater of the mail.ru bot library
 (`vendor/github.com/mail-ru-im/bot-golang/updates.go`, the event types of
 `types.go`): the poll time it starts with, the cursor it keeps between
 polls, and the message it builds from an event.
 */
module BotUpdates {
  import opened Wrappers
  import BotChat
  import M = BotMessage
  import C = BotClient

  /** `Contact`: a user with a name. */
  datatype Contact = Contact(userId: string, firstName: string, lastName: string)

  /** `EventPayload`, the fields a message is built from. */
  datatype EventPayload = EventPayload(
    msgId: string,
    chat: BotChat.Chat,
    from: Contact,
    text: string,
    timestamp: int,
    queryId: string,
    callbackData: string)

  datatype Event = Event(eventId: int, kind: string, payload: EventPayload)

  datatype Updater = Updater(client: C.Client, lastEventId: int, pollTime: int)

  /** The poll time used when none is given. */
  const DefaultPollTime: int := 60

  /** `NewUpdater`: a zero poll time means the default; the cursor starts at 0. */
  function NewUpdater(client: C.Client, pollTime: int): (u: Updater)
    ensures u.client == client && u.lastEventId == 0
    ensures pollTime == 0 ==> u.pollTime == DefaultPollTime
    ensures pollTime != 0 ==> u.pollTime == pollTime
    ensures u.pollTime != 0
  {
    Updater(client, 0, if pollTime == 0 then DefaultPollTime else pollTime)
  }

  /** The updater after a poll, the events it returned, and its error. */
  datatype Poll = Poll(updater: Updater, events: seq<Event>, error: Status)

  /**
   `GetLastEvents`: ask for the events after the cursor; after a successful
   poll with events the cursor is the id of the last event received. A
   failed or empty poll keeps the cursor.
   */
  function GetLastEvents(u: Updater, pollTime: int, http: C.Http, decode: string -> Result<seq<Event>>): (r: Poll)
    ensures r.updater.client == u.client && r.updater.pollTime == u.pollTime
    ensures (r.error.Some? || |r.events| == 0) ==> r.updater == u
    ensures r.error.None? && |r.events| > 0 ==> r.updater.lastEventId == r.events[|r.events| - 1].eventId
    ensures r.error.None? ==> r.events == C.GetEvents(u.client, u.lastEventId, pollTime, http, decode).0
    ensures r.error.Some? ==>
              var failed := C.GetEvents(u.client, u.lastEventId, pollTime, http, decode).1;
              failed.Some? && r.error.value == "cannot get events: " + failed.value
  {
    var (events, err) := C.GetEvents(u.client, u.lastEventId, pollTime, http, decode);
    if err.Some? then Poll(u, events, Some("cannot get events: " + err.value))
    else if |events| > 0 then Poll(u.(lastEventId := events[|events| - 1].eventId), events, None)
    else Poll(u, events, None)
  }

  /**
   The cursor follows the order of the answer, not the largest id: events
   answered out of order move the cursor back.
   */
  lemma CursorIsLastNotLargest(u: Updater, pollTime: int, http: C.Http, decode: string -> Result<seq<Event>>,
                               first: Event, second: Event)
    requires C.GetEvents(u.client, u.lastEventId, pollTime, http, decode) == ([first, second], None)
    requires first.eventId > second.eventId
    ensures GetLastEvents(u, pollTime, http, decode).updater.lastEventId == second.eventId
    ensures GetLastEvents(u, pollTime, http, decode).updater.lastEventId < first.eventId
  {
  }

  /** Each poll asks from the cursor the previous successful poll left. */
  lemma NextPollAsksFromCursor(u: Updater, pollTime: int, http: C.Http, decode: string -> Result<seq<Event>>)
    requires GetLastEvents(u, pollTime, http, decode).error.None?
    requires |GetLastEvents(u, pollTime, http, decode).events| > 0
    ensures var next := GetLastEvents(u, pollTime, http, decode).updater;
            var events := GetLastEvents(u, pollTime, http, decode).events;
            C.EventsCall(next.lastEventId, pollTime) == C.EventsCall(events[|events| - 1].eventId, pollTime)
  {
  }

  /**
   `NewMessageFromPayload`: the message is addressed to the sender (a chat
   whose id is the sender's user id and whose title is the sender's first
   name) and carries the event's id, text and time.
   */
  function NewMessageFromPayload(p: EventPayload): (m: M.Message)
    ensures m.bound && m.contentType == M.Unknown
    ensures m.chat == BotChat.WithId(p.from.userId).(title := p.from.firstName)
    ensures m.id == p.msgId && m.text == p.text && m.timestamp == p.timestamp
    ensures m.fileId == "" && m.file.None? && m.inlineKeyboard.None?
  {
    M.Fresh(BotChat.WithId(p.from.userId).(title := p.from.firstName)).(id := p.msgId, text := p.text, timestamp := p.timestamp)
  }

  /** `EventPayload.Message`: the same fields, but addressed to the event's chat. */
  function PayloadMessage(p: EventPayload): (m: M.Message)
    ensures m.bound && m.chat == p.chat
    ensures m.id == p.msgId && m.text == p.text && m.timestamp == p.timestamp
  {
    M.Fresh(p.chat).(id := p.msgId, text := p.text, timestamp := p.timestamp)
  }

  /**
   The two ways to turn an event into a message differ only in the chat: a
   reply to a group message built by `NewMessageFromPayload` goes to the
   sender, one built by `Message` goes to the group.
   */
  lemma PayloadMessagesDifferInChat(p: EventPayload, text: string)
    requires p.msgId != ""
    ensures NewMessageFromPayload(p).(chat := p.chat) == PayloadMessage(p)
    ensures M.Act(NewMessageFromPayload(p), M.Reply(text)).value.message.chat.id == p.from.userId
    ensures M.Act(PayloadMessage(p), M.Reply(text)).value.message.chat.id == p.chat.id
  {
  }
}
