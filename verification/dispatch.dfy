/**
 * Update classification (HandleAnyUpdate in internal/monitor/monitor.go):
 * which single handler an update reaches, given the chat's stored state.
 */
module Dispatch {
  import opened Wrappers
  import opened Decimal
  import opened Text
  import opened Telegram
  import Models
  import opened Action

  /** The chat types whose updates are handled. */
  const AllowedChatTypes: seq<ChatType> := [Group, SuperGroup, Private]

  /** The entry is present and plainly a member. */
  predicate IsMemberStatus(m: Option<ChatMember>)
  {
    m.Some? && m.value.role == Member
  }

  /** The entry is absent, or the user has left or been kicked. */
  predicate IsLeftStatus(m: Option<ChatMember>)
  {
    m.None? || m.value.role == Left || m.value.role == Kicked
  }

  /** No entry is both a member and gone. */
  lemma MemberNotLeft(m: Option<ChatMember>)
    ensures !(IsMemberStatus(m) && IsLeftStatus(m))
  {
  }

  /** A member-change update in a group that takes the user from gone to member. */
  predicate Joined(u: Update, cs: Models.ChatState)
  {
    u.ChatMemberUpdate? && cs.IsGroup() && IsLeftStatus(u.change.before) && IsMemberStatus(u.change.after)
  }

  /** A member-change update in a group that takes the user from member to gone. */
  predicate LeftChat(u: Update, cs: Models.ChatState)
  {
    u.ChatMemberUpdate? && cs.IsGroup() && IsMemberStatus(u.change.before) && IsLeftStatus(u.change.after)
  }

  /** The bot's cached role in a group is known and is not Administrator. */
  predicate BotNotAdmin(cs: Models.ChatState)
  {
    cs.IsGroup() && cs.member.Some? && cs.member.value.role != Administrator
  }

  /** The sender must be in the cached admin list, which must not be empty. */
  function CheckSenderAdmin(admins: seq<ChatMember>, senderId: int): (r: Result<(), string>)
    ensures r.Ok? <==> exists i :: 0 <= i < |admins| && admins[i].userId == senderId
    ensures admins == [] ==> r == Err("no admins synced for chat")
    ensures admins != [] && r.Err? ==> r.error == "user is not one of " + FormatInt(|admins|) + " known admins"
  {
    if |admins| == 0 then Err("no admins synced for chat")
    else if exists i :: 0 <= i < |admins| && admins[i].userId == senderId then Ok(())
    else Err("user is not one of " + FormatInt(|admins|) + " known admins")
  }

  datatype DropReason = UnknownUpdate | ChatTypeNotAllowed | NotAdmin

  /** The one handler an update reaches. */
  datatype Handler =
    | Dropped(reason: DropReason)
    | PrivateMessage
    | DeleteJoinNotice
    | DeleteLeaveNotice
    | MemberLeft
    | NewMember
    | NewMemberCallback(action: CallbackAction)
    | ChatMessage

  /**
   * The dispatch order: unknown updates, then the live chat type against the
   * allow-list, then the admin gate on the stored state, then the handler cases
   * in the order the source tries them.
   */
  function Classify(u: Update, cs: Models.ChatState): (h: Handler)
    ensures h == Dropped(UnknownUpdate) <==> u.OtherUpdate?
    ensures h == NewMember ==> Joined(u, cs)
    ensures h == MemberLeft ==> LeftChat(u, cs)
    ensures h.NewMemberCallback? ==> u.CallbackUpdate? && cs.IsGroup() && h.action.DataMatches(u.data)
    ensures h in {DeleteJoinNotice, DeleteLeaveNotice} ==> cs.IsGroup() && u.MessageOf().Some?
    ensures h == DeleteJoinNotice ==> u.MessageOf().value.userJoined
    ensures h == DeleteLeaveNotice ==> u.MessageOf().value.userLeft
  {
    if u.OtherUpdate? then Dropped(UnknownUpdate)
    else if u.chat.chatType !in AllowedChatTypes then Dropped(ChatTypeNotAllowed)
    else if BotNotAdmin(cs) then Dropped(NotAdmin)
    else if u.chat.chatType == Private then PrivateMessage
    else if cs.IsGroup() && u.MessageOf().Some? && u.MessageOf().value.userJoined then DeleteJoinNotice
    else if cs.IsGroup() && u.MessageOf().Some? && u.MessageOf().value.userLeft then DeleteLeaveNotice
    else if LeftChat(u, cs) then MemberLeft
    else if Joined(u, cs) then NewMember
    else if cs.IsGroup() && u.CallbackUpdate? && NewMemberAccept.DataMatches(u.data) then NewMemberCallback(NewMemberAccept)
    else if cs.IsGroup() && u.CallbackUpdate? && NewMemberKick.DataMatches(u.data) then NewMemberCallback(NewMemberKick)
    else ChatMessage
  }

  /**
   * Nothing runs for updates of an unknown kind, from chat types outside the
   * allow-list, or from a group whose cached bot role is known and is not
   * Administrator; every other update reaches a handler.
   */
  lemma DroppedExactly(u: Update, cs: Models.ChatState)
    ensures Classify(u, cs).Dropped? <==>
      u.OtherUpdate? || u.chat.chatType !in {Group, SuperGroup, Private} || BotNotAdmin(cs)
  {
    if !u.OtherUpdate? {
      assert u.chat.chatType in AllowedChatTypes <==> u.chat.chatType in {Group, SuperGroup, Private};
    }
  }

  /** Every handled update from a private chat goes to the private-message handler. */
  lemma PrivateChatsToPrivateHandler(u: Update, cs: Models.ChatState)
    requires !u.OtherUpdate? && u.chat.chatType == Private && !BotNotAdmin(cs)
    ensures Classify(u, cs) == PrivateMessage
  {
    assert AllowedChatTypes[2] == Private;
  }

  /** A member change is never both a join and a leave, so at most one of the two handlers applies. */
  lemma JoinedLeftExclusive(u: Update, cs: Models.ChatState)
    ensures !(Joined(u, cs) && LeftChat(u, cs))
  {
    if u.ChatMemberUpdate? {
      MemberNotLeft(u.change.before);
    }
  }

  /**
   * A greeting button pressed in a group where the bot may act reaches the
   * callback handler for the button's own action.
   */
  lemma ButtonReachesItsAction(u: Update, cs: Models.ChatState, a: CallbackAction, payload: string)
    requires u.CallbackUpdate? && u.data == ButtonData(a, payload)
    requires u.chat.chatType in {Group, SuperGroup} && cs.IsGroup() && !BotNotAdmin(cs)
    requires u.origin.Some? ==> !u.origin.value.userJoined && !u.origin.value.userLeft
    ensures Classify(u, cs) == NewMemberCallback(a)
  {
    assert u.chat.chatType in AllowedChatTypes;
    ButtonDataMatches(a, payload);
    NoDataMatchesBoth(u.data);
  }

  /** A join or leave notice: a group message, or a callback on one, flagged as such. */
  predicate IsNotice(u: Update, cs: Models.ChatState)
  {
    cs.IsGroup() && u.MessageOf().Some? && (u.MessageOf().value.userJoined || u.MessageOf().value.userLeft)
  }

  /** A press on a button carrying either action's data, in a group. */
  predicate IsActionPress(u: Update, cs: Models.ChatState)
  {
    cs.IsGroup() && u.CallbackUpdate? && (NewMemberAccept.DataMatches(u.data) || NewMemberKick.DataMatches(u.data))
  }

  /**
   * The converse of Classify's guards for a handled group update: a notice
   * reaches the matching notice deletion, a leave (when no notice) the
   * leave handler, a join the join handler, and everything else that is no
   * action press the plain chat-message handler.
   */
  lemma GroupUpdatesReachTheirHandler(u: Update, cs: Models.ChatState)
    requires !u.OtherUpdate? && u.chat.chatType in {Group, SuperGroup} && !BotNotAdmin(cs)
    ensures IsNotice(u, cs) && u.MessageOf().value.userJoined ==> Classify(u, cs) == DeleteJoinNotice
    ensures IsNotice(u, cs) && !u.MessageOf().value.userJoined ==> Classify(u, cs) == DeleteLeaveNotice
    ensures !IsNotice(u, cs) && LeftChat(u, cs) ==> Classify(u, cs) == MemberLeft
    ensures !IsNotice(u, cs) && Joined(u, cs) ==> Classify(u, cs) == NewMember
    ensures Classify(u, cs) == ChatMessage <==>
      !IsNotice(u, cs) && !LeftChat(u, cs) && !Joined(u, cs) && !IsActionPress(u, cs)
  {
    assert u.chat.chatType in AllowedChatTypes;
    assert u.chat.chatType != Private;
  }
}
