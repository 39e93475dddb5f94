/**
 * The stored records (internal/models): members, greeting-ledger rows and
 * per-chat state.
 */
module Models {
  import opened Wrappers
  import opened Decimal
  import opened Text
  import Telegram

  /** A member's verification status. */
  datatype UserStatus = JustJoined | Banned | Active | Kicked

  /** The text stored for each status. */
  function StatusText(s: UserStatus): (t: string)
    ensures |t| > 0
  {
    match s
    case JustJoined => "just_joined"
    case Banned => "banned"
    case Active => "active"
    case Kicked => "kicked"
  }

  /** Distinct statuses are stored as distinct texts. */
  lemma StatusTextInjective(a: UserStatus, b: UserStatus)
    ensures StatusText(a) == StatusText(b) <==> a == b
  {
    if a != b {
      assert StatusText(a)[0] != StatusText(b)[0];
    }
  }

  /** Member ids are UUID text, which is plain ASCII. */
  type UserId = PlainText

  /**
   * A member of one chat. The primary key is id; (chatId, telegramId) is a
   * unique key; ctftimeUserId is zero until the member is authorized.
   */
  datatype User = User(id: UserId, chatId: Int64, telegramId: Int64, ctftimeUserId: Int64, status: UserStatus)

  datatype UserKey = UserKey(chatId: int, telegramId: int)

  function KeyOf(u: User): UserKey { UserKey(u.chatId, u.telegramId) }

  /** The only kind of ledger row. */
  datatype MessageType = Greeting

  /**
   * A bot message awaiting cleanup; (chatId, messageId) is the primary key,
   * createdAt is stamped when the row is created.
   */
  datatype Message = Message(
    chatId: Int64, messageId: string, messageType: MessageType,
    associatedUserId: string, createdAt: int)

  datatype MessageKey = MessageKey(chatId: int, messageId: string)

  function MessageKeyOf(m: Message): MessageKey { MessageKey(m.chatId, m.messageId) }

  /** The platform reference of a ledger row: message id first, then chat id. */
  function MessageSig(m: Message): (sig: (string, int))
    ensures MessageKey(sig.1, sig.0) == MessageKeyOf(m)
  {
    (m.messageId, m.chatId)
  }

  /** The platform call that deletes a ledger row's message. */
  function DeleteOf(m: Message): Telegram.Effect
  {
    var sig := MessageSig(m);
    Telegram.DeleteMessage(sig.1, sig.0)
  }

  /** The delete calls for a batch of ledger rows, one per row, in order. */
  function DeletesOf(rows: seq<Message>): (r: seq<Telegram.Effect>)
    ensures |r| == |rows|
    ensures forall i :: 0 <= i < |rows| ==> r[i] == DeleteOf(rows[i])
  {
    seq(|rows|, i requires 0 <= i < |rows| => DeleteOf(rows[i]))
  }

  /**
   * What the bot knows about a chat: its type, and the bot's own membership
   * and the admin list as last cached by the admin sync.
   */
  datatype ChatState = ChatState(
    chatId: Int64, chatType: Telegram.ChatType,
    member: Option<Telegram.ChatMember>, admins: seq<Telegram.ChatMember>)
  {
    predicate IsGroup()
    {
      chatType == Telegram.Group || chatType == Telegram.SuperGroup
    }
  }

  /** IsGroup holds for groups and supergroups and for nothing else. */
  lemma IsGroupCases(cs: ChatState)
    ensures cs.chatType == Telegram.Group ==> cs.IsGroup()
    ensures cs.chatType == Telegram.SuperGroup ==> cs.IsGroup()
    ensures cs.chatType !in {Telegram.Group, Telegram.SuperGroup} ==> !cs.IsGroup()
  {
  }
}
