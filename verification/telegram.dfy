/**
 * The messaging platform as the monitor sees it: the incoming update, reduced
 * to a tagged variant, and the outgoing API calls, recorded as effects.
 */
module Telegram {
  import opened Wrappers
  import opened Decimal
  import AuthUtil

  datatype ChatType = Private | Group | SuperGroup | Channel | PrivateChannel

  /** A chat member's role in a chat (telebot.MemberStatus). */
  datatype Role = Creator | Administrator | Member | Restricted | Left | Kicked

  datatype ChatMember = ChatMember(userId: Int64, role: Role)

  datatype Chat = Chat(id: Int64, chatType: ChatType)

  /** The user an update is attributed to. */
  datatype Sender = Sender(id: Int64, isBot: bool, firstName: string, lastName: string, username: string)

  /** A chat message: its id, its text and whether it is a join or leave notice. */
  datatype Post = Post(id: int, text: string, userJoined: bool, userLeft: bool)

  /** A chat-member update: the member's entry before and after. */
  datatype MemberChange = MemberChange(before: Option<ChatMember>, after: Option<ChatMember>)

  /**
   * One update, tagged by the part it carries. A callback query carries the
   * message its button is attached to, when there is one.
   */
  datatype Update =
    | MessageUpdate(updateId: int, chat: Chat, sender: Sender, post: Post)
    | ChatMemberUpdate(updateId: int, chat: Chat, sender: Sender, change: MemberChange)
    | CallbackUpdate(updateId: int, chat: Chat, sender: Sender, data: string, origin: Option<Post>)
    | OtherUpdate(updateId: int, chat: Chat, sender: Sender)
  {
    /** The context's Message(): the message itself, or the callback's message. */
    function MessageOf(): Option<Post>
    {
      match this
      case MessageUpdate(_, _, _, post) => Some(post)
      case CallbackUpdate(_, _, _, _, origin) => origin
      case _ => None
    }
  }

  /** What the login greeting shows: the mention, the deadline and its three buttons. */
  datatype Greeting = Greeting(
    name: string, mentionId: Int64, minutes: int,
    loginUrl: string, acceptData: string, kickData: string)

  /** Outgoing platform calls, in the order they are made. */
  datatype Effect =
    | DeleteMessage(chatId: int, messageId: string)
    | SendGreeting(chatId: int, greeting: Greeting)
    | RemoveMember(chatId: int, userId: int)
    | Reply(chatId: int, text: string)
    | SendLoginLink(chatId: int, url: AuthUtil.Url)
    | Respond(text: string)
}
