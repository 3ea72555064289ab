/**
 A chat of the mail.ru bot library
 (`vendor/github.com/mail-ru-im/bot-golang/chat.go`): its fields, and which
 identifier each chat operation hands to the client.
 */
module BotChat {

  const Private: string := "private"
  const Group: string := "group"
  const Channel: string := "channel"

  const TypingAction: string := "typing"
  const LookingAction: string := "looking"

  datatype Chat = Chat(
    id: string,
    kind: string,       // `Type`: "private", "group" or "channel"
    firstName: string,
    lastName: string,
    nick: string,
    about: string,
    rules: string,
    title: string,
    isBot: bool,
    public: bool,
    joinModeration: bool,
    inviteLink: string)

  /** `Chat{ID: id}`: every other field is zero. */
  function WithId(id: string): Chat
  {
    Chat(id, "", "", "", "", "", "", "", false, false, false, "")
  }

  /** `resolveID`: a private chat is addressed by the user's nick, any other by its id. */
  function ResolveId(c: Chat): (r: string)
    ensures c.kind == Private ==> r == c.nick
    ensures c.kind != Private ==> r == c.id
  {
    if c.kind == Private then c.nick else c.id
  }

  /** The operations of `Chat`, with the arguments each takes. */
  datatype Operation =
    | SendActions(actions: seq<string>)
    | GetAdmins
    | GetMembers
    | GetBlockedUsers
    | GetPendingUsers
    | BlockUser(userId: string, deleteLastMessages: bool)
    | UnblockUser(userId: string)
    | ResolveJoinRequest(user: string, accept: bool)
    | ResolveAllJoinRequests(acceptAll: bool)
    | SetTitle(title: string)
    | SetAbout(about: string)
    | SetRules(rules: string)

  /** The chat identifier an operation passes on: `resolveID` for actions, `ID` for all others. */
  function Target(c: Chat, op: Operation): (r: string)
    ensures op.SendActions? ==> r == ResolveId(c)
    ensures !op.SendActions? ==> r == c.id
  {
    if op.SendActions? then ResolveId(c) else c.id
  }

  /** Only the actions of a private chat go to a different identifier than the chat's id. */
  lemma TargetDiffersOnlyForPrivateActions(c: Chat, op: Operation)
    ensures Target(c, op) != c.id ==> op.SendActions? && c.kind == Private && c.nick != c.id
  {
  }
}
