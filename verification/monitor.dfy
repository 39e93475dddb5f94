/**
 * The member-verification state machine (internal/monitor/monitor.go): the
 * per-update handlers over the store, the platform calls they make recorded
 * in an append-only effect log, and one tick of the ledger cleaner.
 */
module Monitor {
  import opened Wrappers
  import opened Decimal
  import opened Text
  import opened Models
  import opened Storage
  import T = Telegram
  import opened Action
  import AuthUtil
  import opened Dispatch

  /** Nanoseconds in a minute (time.Minute). */
  const NsPerMinute: int := 60_000_000_000

  /** Duration division by time.Minute: whole minutes, truncated toward zero. */
  function WholeMinutes(ns: int): (m: int)
    ensures ns >= 0 ==> 0 <= m && m * NsPerMinute <= ns < (m + 1) * NsPerMinute
    ensures ns < 0 ==> m <= 0 && (m - 1) * NsPerMinute < ns <= m * NsPerMinute
  {
    if ns >= 0 then ns / NsPerMinute else -((-ns) / NsPerMinute)
  }

  /** How the greeting names the newcomer: first and last name, else the username. */
  function DisplayName(s: T.Sender): (name: string)
    ensures s.firstName != "" || s.lastName != "" ==>
      && |name| == |s.firstName| + 1 + |s.lastName| && HasPrefix(name, s.firstName)
      && name[|s.firstName|] == ' ' && name[|s.firstName| + 1..] == s.lastName
    ensures s.firstName == "" && s.lastName == "" ==> name == s.username
  {
    if s.firstName != "" || s.lastName != "" then s.firstName + " " + s.lastName else s.username
  }

  /** The deep link that opens a private chat with the bot and sends "/start <chat id>". */
  function StartLink(botUsername: string, chatId: Int64): (link: string)
    ensures HasPrefix(link, "t.me/" + botUsername + "?start=")
    ensures link[|"t.me/" + botUsername + "?start="|..] == FormatInt(chatId)
  {
    assert ("t.me/" + botUsername + "?start=" + FormatInt(chatId))[..|"t.me/" + botUsername + "?start="|]
      == "t.me/" + botUsername + "?start=";
    "t.me/" + botUsername + "?start=" + FormatInt(chatId)
  }

  /** The greeting for a newcomer: mention, deadline in minutes, login link and the two admin buttons. */
  function GreetingFor(sender: T.Sender, chatId: Int64, botUsername: string, joinLoginTimeout: int): (g: T.Greeting)
    ensures g.name == DisplayName(sender) && g.mentionId == sender.id
    ensures g.minutes == WholeMinutes(joinLoginTimeout) && g.loginUrl == StartLink(botUsername, chatId)
    ensures SplitPipe2(g.acceptData) == [[FormFeed] + NewMemberAccept.String(), FormatInt(sender.id)]
    ensures SplitPipe2(g.kickData) == [[FormFeed] + NewMemberKick.String(), FormatInt(sender.id)]
  {
    T.Greeting(
      DisplayName(sender), sender.id, WholeMinutes(joinLoginTimeout), StartLink(botUsername, chatId),
      ButtonData(NewMemberAccept, FormatInt(sender.id)), ButtonData(NewMemberKick, FormatInt(sender.id)))
  }

  /** The private message text, read as a /start command. */
  datatype StartCommand = NotStart | BadChatId | StartFor(chatId: Int64)

  function ParseStart(text: string): (r: StartCommand)
    ensures r != NotStart <==> |Fields(text)| >= 2 && Fields(text)[0] == "/start"
    ensures r.StartFor? ==> ParseInt(Fields(text)[1]) == Some(r.chatId)
    ensures r != NotStart ==> (r == BadChatId <==> ParseInt(Fields(text)[1]).None?)
  {
    var tokens := Fields(text);
    if |tokens| < 2 || tokens[0] != "/start" then NotStart
    else match ParseInt(tokens[1])
      case None => BadChatId
      case Some(c) => StartFor(c)
  }

  /** Decimal text has no whitespace. */
  lemma FormatIntNoSpace(n: int)
    ensures NoSpace(FormatInt(n))
  {
    var s := FormatInt(n);
    forall i | 0 <= i < |s|
      ensures !IsSpace(s[i])
    {
      assert IsDigit(s[i]) || s[i] == '-';
    }
  }

  /**
   * The command the start link makes the platform send, "/start" and the
   * text after "?start=", names the chat the link was made for.
   */
  lemma StartLinkNamesChat(botUsername: string, chatId: Int64)
    ensures var link := StartLink(botUsername, chatId);
      var payload := link[|"t.me/" + botUsername + "?start="|..];
      ParseStart("/start" + " " + payload) == StartFor(chatId)
  {
    FormatIntNoSpace(chatId);
    FieldsOfCommand("/start", FormatInt(chatId));
    ParseFormatInt(chatId);
  }

  /** Both buttons of a greeting carry the newcomer's id, which the callback handler parses back. */
  lemma GreetingButtonsNameNewcomer(sender: T.Sender, chatId: Int64, botUsername: string, timeout: int)
    ensures var g := GreetingFor(sender, chatId, botUsername, timeout);
      ParseInt(SplitPipe2(g.acceptData)[1]) == Some(sender.id) &&
      ParseInt(SplitPipe2(g.kickData)[1]) == Some(sender.id) &&
      NewMemberAccept.DataMatches(g.acceptData) && NewMemberKick.DataMatches(g.kickData)
  {
    ParseFormatInt(sender.id);
    ButtonDataMatches(NewMemberAccept, FormatInt(sender.id));
    ButtonDataMatches(NewMemberKick, FormatInt(sender.id));
  }

  /** The delete call for a platform message in a chat. */
  function DeletePost(chatId: int, post: T.Post): T.Effect
  {
    T.DeleteMessage(chatId, FormatInt(post.id))
  }

  function UnexpectedStatusText(s: UserStatus): string
  {
    "You have an unexpected status `" + StatusText(s) + "`"
  }

  /** The reply names the member's status: different statuses get different replies. */
  lemma UnexpectedStatusTextNamesStatus(a: UserStatus, b: UserStatus)
    ensures UnexpectedStatusText(a) == UnexpectedStatusText(b) <==> a == b
  {
    var prefix := "You have an unexpected status `";
    if UnexpectedStatusText(a) == UnexpectedStatusText(b) {
      var ta, tb := UnexpectedStatusText(a), UnexpectedStatusText(b);
      assert ta[|prefix|..|ta| - 1] == StatusText(a);
      assert tb[|prefix|..|tb| - 1] == StatusText(b);
      StatusTextInjective(a, b);
    }
  }

  // --------------------------------------------------------------- cleaner

  /**
   * One fetched row of the cleaner: a greeting whose member is still
   * JustJoined gets the member removed and marked Kicked; every row's
   * platform message is deleted.
   */
  ghost function SweepRow(users: Users, m: Message): (r: (Users, seq<T.Effect>))
    requires UsersValid(users)
    ensures UsersValid(r.0)
  {
    var found := FindById(users, m.associatedUserId);
    if m.messageType == Greeting && found.Some? && found.value.status == JustJoined then
      WithStatusValid(users, found.value.id, Kicked);
      (WithStatus(users, found.value.id, Kicked),
       [T.RemoveMember(found.value.chatId, found.value.telegramId), DeleteOf(m)])
    else
      (users, [DeleteOf(m)])
  }

  /** The cleaner's per-row steps over a batch, in order. */
  ghost function Sweep(users: Users, rows: seq<Message>): (r: (Users, seq<T.Effect>))
    requires UsersValid(users)
    ensures UsersValid(r.0)
    decreases |rows|
  {
    if rows == [] then (users, [])
    else
      var before := Sweep(users, rows[..|rows| - 1]);
      var step := SweepRow(before.0, rows[|rows| - 1]);
      (step.0, before.1 + step.1)
  }

  /** The members a batch of rows is associated with. */
  function AssociatedIds(rows: seq<Message>): set<string>
  {
    set i | 0 <= i < |rows| :: rows[i].associatedUserId
  }

  /**
   * After the cleaner's steps, exactly the members that were JustJoined and
   * have a fetched greeting are Kicked; every other field and row is as before.
   */
  lemma {:induction false} SweepStatuses(users: Users, rows: seq<Message>)
    requires UsersValid(users)
    ensures var users' := Sweep(users, rows).0;
      users'.Keys == users.Keys &&
      (forall k :: k in users ==> users'[k].(status := users[k].status) == users[k]) &&
      (forall k :: k in users ==>
        users'[k].status == if users[k].status == JustJoined && users[k].id in AssociatedIds(rows) then Kicked else users[k].status)
    decreases |rows|
  {
    if rows != [] {
      var init := rows[..|rows| - 1];
      var m := rows[|rows| - 1];
      SweepStatuses(users, init);
      var mid := Sweep(users, init).0;
      assert AssociatedIds(rows) == AssociatedIds(init) + {m.associatedUserId} by {
        assert forall i :: 0 <= i < |init| ==> init[i] == rows[i];
        assert rows[|rows| - 1] == m;
      }
      var found := FindById(mid, m.associatedUserId);
      if found.Some? && found.value.status == JustJoined {
        WithStatusFound(mid, m.associatedUserId, Kicked);
      }
    }
  }

  /**
   * The delete calls among the effects: all of them, each as often as it
   * was made, in the order made (DeletionsKeepCount, DeletionsAppend).
   */
  function Deletions(log: seq<T.Effect>): (r: seq<T.Effect>)
    ensures forall e :: e in r ==> e.DeleteMessage? && e in log
    decreases |log|
  {
    if log == [] then []
    else Deletions(log[..|log| - 1]) + (if log[|log| - 1].DeleteMessage? then [log[|log| - 1]] else [])
  }

  /** Every delete call of the log is kept, as often as it was made. */
  lemma {:induction false} DeletionsKeepCount(log: seq<T.Effect>, e: T.Effect)
    requires e.DeleteMessage?
    ensures multiset(Deletions(log))[e] == multiset(log)[e]
    decreases |log|
  {
    if log != [] {
      assert log == log[..|log| - 1] + [log[|log| - 1]];
      DeletionsKeepCount(log[..|log| - 1], e);
    }
  }

  lemma {:induction false} DeletionsAppend(a: seq<T.Effect>, b: seq<T.Effect>)
    ensures Deletions(a + b) == Deletions(a) + Deletions(b)
    decreases |b|
  {
    if b == [] {
      assert a + b == a;
    } else {
      var b' := b[..|b| - 1];
      assert (a + b)[..|a + b| - 1] == a + b';
      DeletionsAppend(a, b');
    }
  }

  /** One row's steps make exactly one delete call, for that row. */
  lemma SweepRowDeletes(users: Users, m: Message)
    requires UsersValid(users)
    ensures Deletions(SweepRow(users, m).1) == [DeleteOf(m)]
  {
    var log := SweepRow(users, m).1;
    if |log| == 2 {
      assert log[..1] == [log[0]] && [log[0]][..0] == [];
      assert Deletions(log[..1]) == [];
    } else {
      assert log[..0] == [];
    }
  }

  /** The cleaner's delete calls are exactly one per fetched row, in fetch order. */
  lemma {:induction false} SweepDeletesEachRow(users: Users, rows: seq<Message>)
    requires UsersValid(users)
    ensures Deletions(Sweep(users, rows).1) == DeletesOf(rows)
    decreases |rows|
  {
    if rows != [] {
      var init := rows[..|rows| - 1];
      var m := rows[|rows| - 1];
      SweepDeletesEachRow(users, init);
      var before := Sweep(users, init);
      SweepRowDeletes(before.0, m);
      DeletionsAppend(before.1, SweepRow(before.0, m).1);
      assert DeletesOf(rows) == DeletesOf(init) + [DeleteOf(m)];
    }
  }

  /** The members the cleaner removes from their chats. */
  function Removals(log: seq<T.Effect>): set<UserKey>
  {
    set i | 0 <= i < |log| && log[i].RemoveMember? :: UserKey(log[i].chatId, log[i].userId)
  }

  /** The members a batch's greetings find JustJoined at the start of the tick. */
  function Expired(users: Users, rows: seq<Message>): set<UserKey>
  {
    set k | k in users && users[k].status == JustJoined && users[k].id in AssociatedIds(rows)
  }

  lemma AssociatedIdsSnoc(init: seq<Message>, m: Message)
    ensures AssociatedIds(init + [m]) == AssociatedIds(init) + {m.associatedUserId}
  {
    var rows := init + [m];
    assert forall i :: 0 <= i < |init| ==> init[i] == rows[i];
    assert rows[|init|] == m;
  }

  /** A row whose member the earlier rows left JustJoined removes that member, who is newly expired. */
  lemma RowRemovesMember(users: Users, init: seq<Message>, m: Message)
    requires UsersValid(users)
    requires var found := FindById(Sweep(users, init).0, m.associatedUserId);
      found.Some? && found.value.status == JustJoined
    ensures Removals(SweepRow(Sweep(users, init).0, m).1) + Expired(users, init) == Expired(users, init + [m])
  {
    var mid := Sweep(users, init).0;
    var u := FindById(mid, m.associatedUserId).value;
    var log := SweepRow(mid, m).1;
    SweepStatuses(users, init);
    AssociatedIdsSnoc(init, m);
    var k :| k in mid && mid[k] == u;
    assert k == KeyOf(u);
    assert log == [T.RemoveMember(u.chatId, u.telegramId), DeleteOf(m)];
    assert Removals(log) == {k} by {
      assert log[0].RemoveMember? && !log[1].RemoveMember?;
    }
    assert users[k].id == m.associatedUserId;
    forall k2 | k2 in Expired(users, init + [m]) && k2 !in Expired(users, init)
      ensures k2 == k
    {
      assert mid[k2].id == m.associatedUserId;
    }
  }

  /** A row whose member is missing or no longer JustJoined removes nobody new. */
  lemma RowRemovesNobody(users: Users, init: seq<Message>, m: Message)
    requires UsersValid(users)
    requires var found := FindById(Sweep(users, init).0, m.associatedUserId);
      !(found.Some? && found.value.status == JustJoined)
    ensures Removals(SweepRow(Sweep(users, init).0, m).1) + Expired(users, init) == Expired(users, init + [m])
  {
    var mid := Sweep(users, init).0;
    var found := FindById(mid, m.associatedUserId);
    var log := SweepRow(mid, m).1;
    SweepStatuses(users, init);
    AssociatedIdsSnoc(init, m);
    assert log == [DeleteOf(m)];
    assert Removals(log) == {};
    forall k | k in users && users[k].id == m.associatedUserId && users[k].status == JustJoined
      ensures users[k].id in AssociatedIds(init)
    {
      assert mid[k].id == m.associatedUserId;
      assert HasId(mid, m.associatedUserId);
      var k' :| k' in mid && mid[k'] == found.value;
      assert k' == k;
    }
  }

  /**
   * The cleaner removes exactly the members that were JustJoined and have a
   * fetched greeting: each of them, and nobody else.
   */
  lemma {:induction false} SweepRemovesExactly(users: Users, rows: seq<Message>)
    requires UsersValid(users)
    ensures Removals(Sweep(users, rows).1) == Expired(users, rows)
    decreases |rows|
  {
    if rows != [] {
      var init := rows[..|rows| - 1];
      var m := rows[|rows| - 1];
      assert rows == init + [m];
      SweepRemovesExactly(users, init);
      var before := Sweep(users, init);
      RemovalsAppend(before.1, SweepRow(before.0, m).1);
      var found := FindById(before.0, m.associatedUserId);
      if found.Some? && found.value.status == JustJoined {
        RowRemovesMember(users, init, m);
      } else {
        RowRemovesNobody(users, init, m);
      }
    }
  }

  lemma RemovalsAppend(a: seq<T.Effect>, b: seq<T.Effect>)
    ensures Removals(a + b) == Removals(a) + Removals(b)
  {
    var ab := a + b;
    forall k | k in Removals(ab)
      ensures k in Removals(a) + Removals(b)
    {
      var i :| 0 <= i < |ab| && ab[i].RemoveMember? && k == UserKey(ab[i].chatId, ab[i].userId);
      if i >= |a| { assert b[i - |a|] == ab[i]; }
    }
    forall k | k in Removals(a)
      ensures k in Removals(ab)
    {
      var i :| 0 <= i < |a| && a[i].RemoveMember? && k == UserKey(a[i].chatId, a[i].userId);
      assert ab[i] == a[i];
    }
    forall k | k in Removals(b)
      ensures k in Removals(ab)
    {
      var i :| 0 <= i < |b| && b[i].RemoveMember? && k == UserKey(b[i].chatId, b[i].userId);
      assert ab[|a| + i] == b[i];
    }
  }

  /** The cleaner never fetches a row younger than the timeout: its age strictly exceeds it. */
  lemma FetchedRowsExpired(messages: Ledger, rows: seq<Message>, now: int, timeout: int)
    requires IsPage(messages, rows, OlderThanKeys(messages, now - timeout))
    ensures forall i :: 0 <= i < |rows| ==> now - rows[i].createdAt > timeout
  {
  }

  /** A tick that finds any expired row removes at least one row from the ledger. */
  lemma TickMakesProgress(messages: Ledger, rows: seq<Message>, cutoff: int)
    requires LedgerKeyed(messages)
    requires IsPage(messages, rows, OlderThanKeys(messages, cutoff))
    requires OlderThanKeys(messages, cutoff) != {}
    ensures rows != [] && |DeleteRows(messages, rows).value| < |messages|
  {
    DeleteRowsShrinks(messages, rows);
  }

  // ---------------------------------------------------------------- class

  /** What the handlers learn from outside: the clock, the next UUID and the platform's answers. */
  datatype Env = Env(
    now: int,
    freshId: UserId,
    sentMessageId: Option<Int64>,  // the greeting's message id, or None when sending failed
    unbanOk: bool,                 // the removal call succeeded
    loginLinkSent: bool)           // the login-link message was sent

  datatype StartOutcome =
    | Ignored
    | InvalidChatId
    | UnknownMember
    | UnexpectedStatus(status: UserStatus)
    | LinkNotSent
    | LinkSent(cleared: seq<Message>)

  datatype CallbackOutcome =
    | SenderNotAdmin(reason: string)
    | BadCallbackData
    | BadUserId
    | UnknownTarget
    | TargetNotJustJoined
    | RemovalFailed
    | Resolved(cleared: seq<Message>)

  /** The part of the state the update handlers change: the members, the message ledger and the platform calls. */
  datatype World = World(users: Users, messages: Ledger, effects: seq<T.Effect>)

  class Monitor {
    const store: Store
    /** JoinLoginTimeout, in nanoseconds. */
    const joinLoginTimeout: int
    const botUsername: string
    const oauth: AuthUtil.OAuthConfig
    /** The platform calls made so far, oldest first. */
    var effects: seq<T.Effect>

    constructor (store: Store, joinLoginTimeout: int, botUsername: string, oauth: AuthUtil.OAuthConfig)
      ensures this.store == store && this.joinLoginTimeout == joinLoginTimeout
      ensures this.botUsername == botUsername && this.oauth == oauth
      ensures effects == []
    {
      this.store := store;
      this.joinLoginTimeout := joinLoginTimeout;
      this.botUsername := botUsername;
      this.oauth := oauth;
      effects := [];
    }

    ghost function Snapshot(): World
      reads this, store
    {
      World(store.users, store.messages, effects)
    }

    /**
     * A message in a group: the sender is looked up or created Active, and
     * the message is deleted while the sender is JustJoined or Kicked.
     */
    ghost predicate ChatMessageStep(w: World, w': World, chatId: Int64, senderId: Int64, post: Option<T.Post>,
                                    freshId: UserId)
    {
      UsersKeyed(w.users) &&
      var (r, users') := GetOrCreate(w.users, chatId, senderId, Active, freshId);
      && w'.users == users' && w'.messages == w.messages
      && w'.effects == w.effects +
           if r.Ok? && r.value.status in {JustJoined, Kicked} && post.Some? then [DeletePost(chatId, post.value)] else []
    }

    /**
     * A join: bots are ignored; the member is looked up or created JustJoined;
     * a Kicked member is reset to JustJoined; a JustJoined member is greeted
     * and the greeting is recorded in the ledger under the member's id.
     */
    ghost predicate NewMemberStep(w: World, w': World, chatId: Int64, sender: T.Sender, env: Env,
                                  greeting: Option<Message>)
    {
      UsersKeyed(w.users) &&
      if sender.isBot then w' == w && greeting.None?
      else
        var (got, users1) := GetOrCreate(w.users, chatId, sender.id, JustJoined, env.freshId);
        if got.Err? || got.value.status in {Active, Banned} then w' == w.(users := users1) && greeting.None?
        else
          && w'.users == (if got.value.status == Kicked then WithStatus(users1, got.value.id, JustJoined) else users1)
          && w'.effects == w.effects + [T.SendGreeting(chatId, GreetingFor(sender, chatId, botUsername, joinLoginTimeout))]
          && if env.sentMessageId.None? then w'.messages == w.messages && greeting.None?
             else
               var row := Message(chatId, FormatInt(env.sentMessageId.value), Greeting, got.value.id, env.now);
               match AddRow(w.messages, row)
               case Ok(ledger) => w'.messages == ledger && greeting == Some(row)
               case Err(_) => w'.messages == w.messages && greeting.None?
    }

    /** A leave: the member's greeting messages are deleted from the chat; the store is untouched. */
    ghost predicate MemberLeftStep(w: World, w': World, chatId: Int64, senderId: Int64, cleared: seq<Message>)
    {
      && w'.users == w.users && w'.messages == w.messages
      && var key := UserKey(chatId, senderId);
         if key !in w.users then cleared == [] && w'.effects == w.effects
         else
           var u := w.users[key];
           IsPage(w.messages, cleared, ForUserKeys(w.messages, u.id, u.chatId, Greeting)) &&
           w'.effects == w.effects + DeletesOf(cleared)
    }

    /**
     * A private message: a "/start <chat id>" from a JustJoined member gets
     * the login link, and then the greetings are deleted; every other case
     * is answered or ignored. The store is never written.
     */
    ghost predicate PrivateMessageStep(w: World, w': World, chatId: Int64, senderId: Int64, post: Option<T.Post>,
                                       env: Env, outcome: StartOutcome)
    {
      && w'.users == w.users && w'.messages == w.messages
      && (post.None? || ParseStart(post.value.text) == NotStart <==> outcome == Ignored)
      && (outcome == Ignored ==> w'.effects == w.effects)
      && (post.Some? && ParseStart(post.value.text) == BadChatId <==> outcome == InvalidChatId)
      && (outcome == InvalidChatId ==> w'.effects == w.effects + [T.Reply(chatId, "Invalid chat id")])
      && (post.Some? && ParseStart(post.value.text).StartFor? ==>
            var key := UserKey(ParseStart(post.value.text).chatId, senderId);
            && (key !in w.users ==> outcome == UnknownMember && w'.effects == w.effects)
            && (key in w.users && w.users[key].status != JustJoined ==>
                  var s := w.users[key].status;
                  outcome == UnexpectedStatus(s) && w'.effects == w.effects + [T.Reply(chatId, UnexpectedStatusText(s))])
            && (key in w.users && w.users[key].status == JustJoined ==>
                  var u := w.users[key];
                  var sent := w.effects + [T.SendLoginLink(chatId, AuthUtil.GetOAuthUrl(u.id, u.chatId, oauth))];
                  && (!env.loginLinkSent ==> outcome == LinkNotSent && w'.effects == sent)
                  && (env.loginLinkSent ==>
                        && outcome.LinkSent? && w'.effects == sent + DeletesOf(outcome.cleared)
                        && IsPage(w.messages, outcome.cleared, ForUserKeys(w.messages, u.id, u.chatId, Greeting)))))
    }

    /**
     * An admin's press on a greeting button: the sender must be a cached
     * admin, the data must carry a parsable member id, and the member must be
     * JustJoined. Accept makes the member Active; kick removes the member from
     * the chat and then marks them Kicked. Either way the greetings are then
     * deleted from the chat.
     */
    ghost predicate CallbackStep(w: World, w': World, chatId: Int64, senderId: Int64, cs: ChatState, data: string,
                                 action: CallbackAction, env: Env, outcome: CallbackOutcome)
    {
      && w'.messages == w.messages
      && (CheckSenderAdmin(cs.admins, senderId).Err? ==>
            var reason := CheckSenderAdmin(cs.admins, senderId).error;
            outcome == SenderNotAdmin(reason) && w'.users == w.users &&
            w'.effects == w.effects + [T.Respond("you are not an admin: " + reason)])
      && (CheckSenderAdmin(cs.admins, senderId).Ok? && |SplitPipe2(data)| != 2 ==>
            outcome == BadCallbackData && w'.users == w.users &&
            w'.effects == w.effects + [T.Respond("bad callback data")])
      && (CheckSenderAdmin(cs.admins, senderId).Ok? && |SplitPipe2(data)| == 2 && ParseInt(SplitPipe2(data)[1]).None? ==>
            outcome == BadUserId && w'.users == w.users &&
            w'.effects == w.effects + [T.Respond("bad user id")])
      && (CheckSenderAdmin(cs.admins, senderId).Ok? && |SplitPipe2(data)| == 2 && ParseInt(SplitPipe2(data)[1]).Some? ==>
            var key := UserKey(chatId, ParseInt(SplitPipe2(data)[1]).value);
            && (key !in w.users ==> outcome == UnknownTarget && w'.users == w.users && w'.effects == w.effects)
            && (key in w.users && w.users[key].status != JustJoined ==>
                  outcome == TargetNotJustJoined && w'.users == w.users &&
                  w'.effects == w.effects + [T.Respond("user status is not just joined")])
            && (key in w.users && w.users[key].status == JustJoined ==>
                  var u := w.users[key];
                  var removal := if action == NewMemberKick then [T.RemoveMember(chatId, key.telegramId)] else [];
                  && (action == NewMemberKick && !env.unbanOk ==>
                        outcome == RemovalFailed && w'.users == w.users && w'.effects == w.effects + removal)
                  && (action == NewMemberAccept || env.unbanOk ==>
                        && outcome.Resolved?
                        && w'.users == WithStatus(w.users, u.id, if action == NewMemberAccept then Active else Kicked)
                        && w'.effects == w.effects + removal + DeletesOf(outcome.cleared)
                        && IsPage(w.messages, outcome.cleared, ForUserKeys(w.messages, u.id, u.chatId, Greeting)))))
    }

    /** Deletes the platform messages of up to a page of the member's greeting rows; the rows stay. */
    method RemoveGreetingsForUser(u: User) returns (rows: seq<Message>)
      requires store.Valid()
      modifies this
      ensures IsPage(store.messages, rows, ForUserKeys(store.messages, u.id, u.chatId, Greeting))
      ensures effects == old(effects) + DeletesOf(rows)
    {
      rows := store.GetMessagesForUser(u.id, u.chatId, Greeting);
      for i := 0 to |rows|
        invariant effects == old(effects) + DeletesOf(rows[..i])
      {
        assert DeletesOf(rows[..i + 1]) == DeletesOf(rows[..i]) + [DeleteOf(rows[i])];
        effects := effects + [DeleteOf(rows[i])];
      }
      assert rows[..|rows|] == rows;
    }

    /** A message in a group; the change is ChatMessageStep's. */
    method HandleChatMessage(chatId: Int64, senderId: Int64, post: Option<T.Post>, freshId: UserId)
      returns (r: Result<User, StoreError>)
      requires store.Valid()
      modifies this, store
      ensures store.Valid()
      ensures r == GetOrCreate(old(store.users), chatId, senderId, Active, freshId).0
      ensures ChatMessageStep(old(Snapshot()), Snapshot(), chatId, senderId, post, freshId)
      ensures store.chatStates == old(store.chatStates) && store.lastUpdateId == old(store.lastUpdateId)
    {
      r := store.GetOrCreateUser(chatId, senderId, Active, freshId);
      if r.Ok? && (r.value.status == JustJoined || r.value.status == Kicked) && post.Some? {
        effects := effects + [DeletePost(chatId, post.value)];
      }
    }

    /** A join; the change is NewMemberStep's. */
    method HandleNewMember(chatId: Int64, sender: T.Sender, env: Env) returns (greeting: Option<Message>)
      requires store.Valid()
      modifies this, store
      ensures store.Valid()
      ensures store.chatStates == old(store.chatStates) && store.lastUpdateId == old(store.lastUpdateId)
      ensures NewMemberStep(old(Snapshot()), Snapshot(), chatId, sender, env, greeting)
      ensures greeting.Some? ==> !sender.isBot && greeting.value.messageType == Greeting && greeting.value.chatId == chatId
    {
      greeting := None;
      if sender.isBot {
        return;
      }
      var got := store.GetOrCreateUser(chatId, sender.id, JustJoined, env.freshId);
      if got.Err? {
        return;
      }
      var user := got.value;
      if user.status == Kicked {
        store.SetUserStatus(user.id, JustJoined);
        user := user.(status := JustJoined);
      }
      if user.status == JustJoined {
        effects := effects + [T.SendGreeting(chatId, GreetingFor(sender, chatId, botUsername, joinLoginTimeout))];
        if env.sentMessageId.None? {
          return;
        }
        var added := store.AddMessage(chatId, FormatInt(env.sentMessageId.value), Greeting, user.id, env.now);
        if added.Ok? {
          greeting := Some(added.value);
        }
      }
    }

    /** A leave; the change is MemberLeftStep's. */
    method HandleMemberLeft(chatId: Int64, senderId: Int64) returns (cleared: seq<Message>)
      requires store.Valid()
      modifies this
      ensures MemberLeftStep(old(Snapshot()), Snapshot(), chatId, senderId, cleared)
    {
      cleared := [];
      var got := store.GetChatUser(chatId, senderId);
      if got.Ok? {
        cleared := RemoveGreetingsForUser(got.value);
      }
    }

    /** A private message; the change is PrivateMessageStep's. */
    method HandlePrivateMessage(chatId: Int64, senderId: Int64, post: Option<T.Post>, env: Env)
      returns (outcome: StartOutcome)
      requires store.Valid()
      modifies this
      ensures PrivateMessageStep(old(Snapshot()), Snapshot(), chatId, senderId, post, env, outcome)
    {
      if post.None? {
        return Ignored;
      }
      match ParseStart(post.value.text)
      case NotStart =>
        outcome := Ignored;
      case BadChatId =>
        effects := effects + [T.Reply(chatId, "Invalid chat id")];
        outcome := InvalidChatId;
      case StartFor(target) =>
        var got := store.GetChatUser(target, senderId);
        if got.Err? {
          return UnknownMember;
        }
        var user := got.value;
        if user.status != JustJoined {
          effects := effects + [T.Reply(chatId, UnexpectedStatusText(user.status))];
          return UnexpectedStatus(user.status);
        }
        effects := effects + [T.SendLoginLink(chatId, AuthUtil.GetOAuthUrl(user.id, user.chatId, oauth))];
        if !env.loginLinkSent {
          return LinkNotSent;
        }
        var cleared := RemoveGreetingsForUser(user);
        outcome := LinkSent(cleared);
    }

    /** An admin's press on a greeting button; the change is CallbackStep's. */
    method HandleNewMemberCallbackAction(chatId: Int64, senderId: Int64, cs: ChatState, data: string,
                                         action: CallbackAction, env: Env)
      returns (outcome: CallbackOutcome)
      requires store.Valid()
      modifies this, store
      ensures store.Valid()
      ensures store.chatStates == old(store.chatStates) && store.lastUpdateId == old(store.lastUpdateId)
      ensures CallbackStep(old(Snapshot()), Snapshot(), chatId, senderId, cs, data, action, env, outcome)
    {
      var admin := CheckSenderAdmin(cs.admins, senderId);
      if admin.Err? {
        effects := effects + [T.Respond("you are not an admin: " + admin.error)];
        return SenderNotAdmin(admin.error);
      }
      var tokens := SplitPipe2(data);
      if |tokens| != 2 {
        effects := effects + [T.Respond("bad callback data")];
        return BadCallbackData;
      }
      var target := ParseInt(tokens[1]);
      if target.None? {
        effects := effects + [T.Respond("bad user id")];
        return BadUserId;
      }
      var got := store.GetChatUser(chatId, target.value);
      if got.Err? {
        return UnknownTarget;
      }
      var user := got.value;
      if user.status != JustJoined {
        effects := effects + [T.Respond("user status is not just joined")];
        return TargetNotJustJoined;
      }
      match action {
        case NewMemberAccept =>
          store.SetUserStatus(user.id, Active);
        case NewMemberKick =>
          effects := effects + [T.RemoveMember(chatId, target.value)];
          if !env.unbanOk {
            return RemovalFailed;
          }
          store.SetUserStatus(user.id, Kicked);
      }
      var cleared := RemoveGreetingsForUser(user);
      outcome := Resolved(cleared);
    }

    /** The cleaner's steps for one fetched row. */
    method CleanRow(m: Message)
      requires store.Valid()
      modifies this, store
      ensures store.Valid()
      ensures store.users == SweepRow(old(store.users), m).0
      ensures effects == old(effects) + SweepRow(old(store.users), m).1
      ensures store.messages == old(store.messages) && store.chatStates == old(store.chatStates)
      ensures store.lastUpdateId == old(store.lastUpdateId)
    {
      SweepRowStep(store.users, m);
      if m.messageType == Greeting {
        var found := store.GetUser(m.associatedUserId);
        if found.Ok? && found.value.status == JustJoined {
          effects := effects + [T.RemoveMember(found.value.chatId, found.value.telegramId)];
          store.SetUserStatus(found.value.id, Kicked);
        }
      }
      effects := effects + [DeleteOf(m)];
    }

    /**
     * One cleaner run: fetch up to a page of ledger rows older than the
     * timeout, take the per-row steps, then delete every fetched row.
     */
    method CleanerTick(now: int) returns (rows: seq<Message>)
      requires store.Valid()
      modifies this, store
      ensures store.Valid()
      ensures IsPage(old(store.messages), rows, OlderThanKeys(old(store.messages), now - joinLoginTimeout))
      ensures rows == [] ==> store.users == old(store.users) && store.messages == old(store.messages) && effects == old(effects)
      ensures rows != [] ==>
        && store.users == Sweep(old(store.users), rows).0 && effects == old(effects) + Sweep(old(store.users), rows).1
        && store.messages == DeleteRows(old(store.messages), rows).value
      ensures store.chatStates == old(store.chatStates) && store.lastUpdateId == old(store.lastUpdateId)
    {
      rows := store.GetMessagesOlderThan(now - joinLoginTimeout);
      if |rows| == 0 {
        return;
      }
      assert rows[..0] == [];
      for i := 0 to |rows|
        invariant store.Valid()
        invariant store.messages == old(store.messages)
        invariant store.chatStates == old(store.chatStates) && store.lastUpdateId == old(store.lastUpdateId)
        invariant store.users == Sweep(old(store.users), rows[..i]).0
        invariant effects == old(effects) + Sweep(old(store.users), rows[..i]).1
      {
        assert rows[..i + 1][..i] == rows[..i];
        ghost var before := Sweep(old(store.users), rows[..i]);
        assert Sweep(old(store.users), rows[..i + 1]) ==
          (SweepRow(before.0, rows[i]).0, before.1 + SweepRow(before.0, rows[i]).1);
        CleanRow(rows[i]);
      }
      assert rows[..|rows|] == rows;
      var deleted := store.DeleteMessages(rows);
    }

    /**
     * One update: the chat's state is fetched or created, the last update id
     * recorded, and the update dispatched to the handler Classify names.
     */
    method HandleAnyUpdate(u: T.Update, env: Env) returns (h: Handler)
      requires store.Valid()
      modifies this, store
      ensures store.Valid()
      ensures var (cs, states) := GetOrCreateChat(old(store.chatStates), u.chat.id, u.chat.chatType);
        h == Classify(u, cs) && store.chatStates == states
      ensures store.lastUpdateId == if old(store.lastUpdateId).Some? then Some(u.updateId) else None
      ensures h.Dropped? ==> Snapshot() == old(Snapshot())
      ensures h in {DeleteJoinNotice, DeleteLeaveNotice} ==>
        Snapshot() == old(Snapshot()).(effects := old(effects) + [DeletePost(u.chat.id, u.MessageOf().value)])
      ensures h == PrivateMessage ==>
        exists o :: PrivateMessageStep(old(Snapshot()), Snapshot(), u.chat.id, u.sender.id, u.MessageOf(), env, o)
      ensures h == MemberLeft ==> exists c :: MemberLeftStep(old(Snapshot()), Snapshot(), u.chat.id, u.sender.id, c)
      ensures h == NewMember ==> exists g :: NewMemberStep(old(Snapshot()), Snapshot(), u.chat.id, u.sender, env, g)
      ensures h.NewMemberCallback? ==>
        var cs := GetOrCreateChat(old(store.chatStates), u.chat.id, u.chat.chatType).0;
        exists o :: CallbackStep(old(Snapshot()), Snapshot(), u.chat.id, u.sender.id, cs, u.data, h.action, env, o)
      ensures h == ChatMessage ==>
        ChatMessageStep(old(Snapshot()), Snapshot(), u.chat.id, u.sender.id, u.MessageOf(), env.freshId)
    {
      ghost var w := Snapshot();
      var cs := store.GetOrCreateChatState(u.chat.id, u.chat.chatType);
      store.UpdateLastUpdate(u.updateId);
      assert Snapshot() == w;
      h := Classify(u, cs);
      match h
      case Dropped(_) =>
      case PrivateMessage =>
        var o := HandlePrivateMessage(u.chat.id, u.sender.id, u.MessageOf(), env);
        assert PrivateMessageStep(w, Snapshot(), u.chat.id, u.sender.id, u.MessageOf(), env, o);
      case DeleteJoinNotice =>
        effects := effects + [DeletePost(u.chat.id, u.MessageOf().value)];
      case DeleteLeaveNotice =>
        effects := effects + [DeletePost(u.chat.id, u.MessageOf().value)];
      case MemberLeft =>
        var c := HandleMemberLeft(u.chat.id, u.sender.id);
        assert MemberLeftStep(w, Snapshot(), u.chat.id, u.sender.id, c);
      case NewMember =>
        var g := HandleNewMember(u.chat.id, u.sender, env);
        assert NewMemberStep(w, Snapshot(), u.chat.id, u.sender, env, g);
      case NewMemberCallback(action) =>
        var o := HandleNewMemberCallbackAction(u.chat.id, u.sender.id, cs, u.data, action, env);
        assert CallbackStep(w, Snapshot(), u.chat.id, u.sender.id, cs, u.data, action, env, o);
      case ChatMessage =>
        var _ := HandleChatMessage(u.chat.id, u.sender.id, u.MessageOf(), env.freshId);
    }
  }

  /**
   * Only unfolds SweepRow for CleanRow, whose steps follow the branches one
   * by one; it states nothing beyond SweepRow's definition.
   */
  lemma SweepRowStep(users: Users, m: Message)
    requires UsersValid(users)
    ensures var found := FindById(users, m.associatedUserId);
      SweepRow(users, m) ==
        if found.Some? && found.value.status == JustJoined then
          (WithStatus(users, found.value.id, Kicked),
           [T.RemoveMember(found.value.chatId, found.value.telegramId), DeleteOf(m)])
        else (users, [DeleteOf(m)])
  {
  }
}
