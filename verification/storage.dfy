/**
 * The store (internal/storage/storage.go) as in-memory tables: members keyed
 * by (chat, platform user), greeting-ledger rows keyed by (chat, message id),
 * one chat state per chat and the single global-state row. Every operation is
 * atomic; transient database failures are not modelled, only the outcomes
 * the constraints and queries themselves produce.
 */
module Storage {
  import opened Wrappers
  import opened Decimal
  import opened Models
  import Telegram

  /** The row limit of the ledger queries. */
  const PageLimit: nat := 100

  datatype StoreError =
    | NotFound            // First found no row
    | DuplicateKey        // an insert hit a primary key that exists
    | MissingWhereClause  // a batch delete was given no rows

  type Users = map<UserKey, User>
  type Ledger = map<MessageKey, Message>

  // ---------------------------------------------------------------- users

  /** Every row sits under its own (chat, platform user) key. */
  predicate UsersKeyed(users: Users)
  {
    forall k :: k in users ==> KeyOf(users[k]) == k
  }

  /** The primary key: no two rows share an id. */
  predicate UniqueIds(users: Users)
  {
    forall k1, k2 :: k1 in users && k2 in users && users[k1].id == users[k2].id ==> k1 == k2
  }

  predicate UsersValid(users: Users)
  {
    UsersKeyed(users) && UniqueIds(users)
  }

  predicate HasId(users: Users, id: string)
  {
    exists k :: k in users && users[k].id == id
  }

  /** The row with this id, if there is one. */
  ghost function FindById(users: Users, id: string): (r: Option<User>)
    requires UniqueIds(users)
    ensures r.Some? <==> HasId(users, id)
    ensures r.Some? ==> r.value.id == id
    ensures r.Some? ==> exists k :: k in users && users[k] == r.value
  {
    if HasId(users, id) then
      var k :| k in users && users[k].id == id;
      Some(users[k])
    else
      None
  }

  /** At most one member per (chat, platform user): rows with one key are one row. */
  lemma OneUserPerKey(users: Users, a: User, b: User)
    requires UsersKeyed(users)
    requires a in users.Values && b in users.Values
    requires a.chatId == b.chatId && a.telegramId == b.telegramId
    ensures a == b
  {
    var ka :| ka in users && users[ka] == a;
    var kb :| kb in users && users[kb] == b;
    assert ka == KeyOf(a) && kb == KeyOf(b);
  }

  /**
   * Get-or-create: the existing row for (chat, platform user) unchanged, or a
   * new row with the default status under the fresh id, or an error when the
   * fresh id is already taken.
   */
  function GetOrCreate(users: Users, chatId: Int64, telegramId: Int64, defaultStatus: UserStatus, freshId: UserId)
    : (r: (Result<User, StoreError>, Users))
    requires UsersKeyed(users)
    ensures UserKey(chatId, telegramId) in users ==> r == (Ok(users[UserKey(chatId, telegramId)]), users)
    ensures r.0.Err? ==> r.0.error == DuplicateKey && r.1 == users && HasId(users, freshId)
    ensures r.0.Ok? ==> r.0.value.chatId == chatId && r.0.value.telegramId == telegramId
    ensures r.1 == users || r.1 == users[UserKey(chatId, telegramId) := r.0.value]
  {
    var key := UserKey(chatId, telegramId);
    if key in users then (Ok(users[key]), users)
    else if HasId(users, freshId) then (Err(DuplicateKey), users)
    else
      var u := User(freshId, chatId, telegramId, 0, defaultStatus);
      (Ok(u), users[key := u])
  }

  /** A new (chat, platform user) pair gets exactly one new row with the default status and no account. */
  lemma GetOrCreateInserts(users: Users, chatId: Int64, telegramId: Int64, defaultStatus: UserStatus, freshId: UserId)
    requires UsersKeyed(users)
    requires UserKey(chatId, telegramId) !in users && !HasId(users, freshId)
    ensures var (r, users') := GetOrCreate(users, chatId, telegramId, defaultStatus, freshId);
      r == Ok(User(freshId, chatId, telegramId, 0, defaultStatus)) &&
      users'.Keys == users.Keys + {UserKey(chatId, telegramId)} &&
      |users'| == |users| + 1 &&
      (forall k :: k in users ==> users'[k] == users[k])
  {
  }

  /** Get-or-create keeps the table well keyed and its ids unique. */
  lemma GetOrCreateValid(users: Users, chatId: Int64, telegramId: Int64, defaultStatus: UserStatus, freshId: UserId)
    requires UsersValid(users)
    ensures UsersValid(GetOrCreate(users, chatId, telegramId, defaultStatus, freshId).1)
  {
    var key := UserKey(chatId, telegramId);
    if key !in users && !HasId(users, freshId) {
      var users' := GetOrCreate(users, chatId, telegramId, defaultStatus, freshId).1;
      assert forall k :: k in users ==> users[k].id != freshId;
      forall k1, k2 | k1 in users' && k2 in users' && users'[k1].id == users'[k2].id
        ensures k1 == k2
      {
        if k1 != key && k2 != key {
          assert users'[k1] == users[k1] && users'[k2] == users[k2];
        }
      }
    }
  }

  /**
   * A second get-or-create for the same pair, with any default status and any
   * fresh id, returns the row the first one returned and changes nothing.
   */
  lemma GetOrCreateTwice(users: Users, chatId: Int64, telegramId: Int64,
                         s1: UserStatus, id1: UserId, s2: UserStatus, id2: UserId)
    requires UsersValid(users)
    requires GetOrCreate(users, chatId, telegramId, s1, id1).0.Ok?
    ensures UsersValid(GetOrCreate(users, chatId, telegramId, s1, id1).1)
    ensures var (r1, users1) := GetOrCreate(users, chatId, telegramId, s1, id1);
      GetOrCreate(users1, chatId, telegramId, s2, id2) == (r1, users1)
  {
    GetOrCreateValid(users, chatId, telegramId, s1, id1);
  }

  /** The table after setting the status of the row with this id. */
  function WithStatus(users: Users, id: string, status: UserStatus): (r: Users)
    ensures r.Keys == users.Keys
    ensures forall k :: k in r ==> r[k].(status := users[k].status) == users[k]
    ensures forall k :: k in r ==> r[k].status == (if users[k].id == id then status else users[k].status)
  {
    map k | k in users :: if users[k].id == id then users[k].(status := status) else users[k]
  }

  /** The table after authorizing the row with this id: account and status together. */
  function Authorized(users: Users, id: string, ctftimeUserId: Int64): (r: Users)
    ensures r.Keys == users.Keys
    ensures forall k :: k in r ==> r[k].(status := users[k].status, ctftimeUserId := users[k].ctftimeUserId) == users[k]
    ensures forall k :: k in r && users[k].id == id ==> r[k].status == Active && r[k].ctftimeUserId == ctftimeUserId
    ensures forall k :: k in r && users[k].id != id ==> r[k] == users[k]
  {
    map k | k in users :: if users[k].id == id then users[k].(status := Active, ctftimeUserId := ctftimeUserId) else users[k]
  }

  /** Field updates by id keep keys and ids, so the table stays valid. */
  lemma WithStatusValid(users: Users, id: string, status: UserStatus)
    requires UsersValid(users)
    ensures UsersValid(WithStatus(users, id, status))
  {
    var r := WithStatus(users, id, status);
    assert forall k :: k in r ==> r[k].id == users[k].id && KeyOf(r[k]) == KeyOf(users[k]);
  }

  lemma AuthorizedValid(users: Users, id: string, ctftimeUserId: Int64)
    requires UsersValid(users)
    ensures UsersValid(Authorized(users, id, ctftimeUserId))
  {
    var r := Authorized(users, id, ctftimeUserId);
    assert forall k :: k in r ==> r[k].id == users[k].id && KeyOf(r[k]) == KeyOf(users[k]);
  }

  /** With unique ids, a status update touches exactly one row, the one FindById names. */
  lemma WithStatusFound(users: Users, id: string, status: UserStatus)
    requires UsersValid(users) && HasId(users, id)
    ensures var u := FindById(users, id).value;
      WithStatus(users, id, status) == users[KeyOf(u) := u.(status := status)]
  {
    var u := FindById(users, id).value;
    var k0 :| k0 in users && users[k0] == u;
    var r := WithStatus(users, id, status);
    assert KeyOf(u) == k0;
    forall k | k in users
      ensures r[k] == users[KeyOf(u) := u.(status := status)][k]
    {
      if users[k].id == id { assert k == k0; }
    }
  }

  // --------------------------------------------------------------- ledger

  predicate LedgerKeyed(messages: Ledger)
  {
    forall k :: k in messages ==> MessageKeyOf(messages[k]) == k
  }

  /** Keys of the rows for one member in one chat with one type. */
  function ForUserKeys(messages: Ledger, userId: string, chatId: int, t: MessageType): (r: set<MessageKey>)
    ensures forall k :: k in r <==>
      k in messages && messages[k].associatedUserId == userId &&
      messages[k].chatId == chatId && messages[k].messageType == t
  {
    set k | k in messages && messages[k].associatedUserId == userId &&
      messages[k].chatId == chatId && messages[k].messageType == t
  }

  /** Keys of the rows created strictly before the cutoff. */
  function OlderThanKeys(messages: Ledger, cutoff: int): (r: set<MessageKey>)
    ensures forall k :: k in r <==> k in messages && messages[k].createdAt < cutoff
  {
    set k | k in messages && messages[k].createdAt < cutoff
  }

  /**
   * A query result under Limit(100) without an ordering: as many of the
   * matching rows as the limit allows, each at most once, in no promised order.
   */
  ghost predicate IsPage(messages: Ledger, rows: seq<Message>, matching: set<MessageKey>)
  {
    |rows| == (if |matching| < PageLimit then |matching| else PageLimit) &&
    (forall i :: 0 <= i < |rows| ==>
      MessageKeyOf(rows[i]) in matching && MessageKeyOf(rows[i]) in messages &&
      messages[MessageKeyOf(rows[i])] == rows[i]) &&
    (forall i, j :: 0 <= i < j < |rows| ==> MessageKeyOf(rows[i]) != MessageKeyOf(rows[j]))
  }

  /** The keys a sequence of rows names. */
  function KeysOf(rows: seq<Message>): (r: set<MessageKey>)
    ensures forall i :: 0 <= i < |rows| ==> MessageKeyOf(rows[i]) in r
    ensures forall k :: k in r ==> exists i :: 0 <= i < |rows| && MessageKeyOf(rows[i]) == k
  {
    set i | 0 <= i < |rows| :: MessageKeyOf(rows[i])
  }

  /** Inserting a ledger row: its primary key must be new. */
  function AddRow(messages: Ledger, m: Message): (r: Result<Ledger, StoreError>)
    ensures MessageKeyOf(m) in messages <==> r == Err(DuplicateKey)
    ensures r.Ok? ==> r.value.Keys == messages.Keys + {MessageKeyOf(m)} && r.value[MessageKeyOf(m)] == m
    ensures r.Ok? ==> forall k :: k in messages ==> r.value[k] == messages[k]
  {
    if MessageKeyOf(m) in messages then Err(DuplicateKey) else Ok(messages[MessageKeyOf(m) := m])
  }

  /** Batch delete by primary key; an empty batch is refused for want of a WHERE clause. */
  function DeleteRows(messages: Ledger, rows: seq<Message>): (r: Result<Ledger, StoreError>)
    ensures rows == [] <==> r == Err(MissingWhereClause)
    ensures r.Ok? ==> r.value.Keys == messages.Keys - KeysOf(rows)
    ensures r.Ok? ==> forall k :: k in r.value ==> r.value[k] == messages[k]
  {
    if rows == [] then Err(MissingWhereClause)
    else Ok(map k | k in messages && k !in KeysOf(rows) :: messages[k])
  }

  /** Inserting and deleting rows keeps every row under its own key. */
  lemma LedgerOpsKeyed(messages: Ledger, m: Message, rows: seq<Message>)
    requires LedgerKeyed(messages)
    ensures AddRow(messages, m).Ok? ==> LedgerKeyed(AddRow(messages, m).value)
    ensures DeleteRows(messages, rows).Ok? ==> LedgerKeyed(DeleteRows(messages, rows).value)
  {
  }

  /** Deleting a nonempty batch of stored rows shrinks the ledger. */
  lemma DeleteRowsShrinks(messages: Ledger, rows: seq<Message>)
    requires rows != [] && MessageKeyOf(rows[0]) in messages
    ensures |DeleteRows(messages, rows).value| < |messages|
  {
    var r := DeleteRows(messages, rows).value;
    assert r.Keys <= messages.Keys - {MessageKeyOf(rows[0])};
    assert |r.Keys| <= |messages.Keys - {MessageKeyOf(rows[0])}|;
  }

  // ----------------------------------------------------------- chat state

  /** Get-or-create of a chat state: an existing row wins, else a fresh row with nothing cached. */
  function GetOrCreateChat(states: map<int, ChatState>, chatId: Int64, chatType: Telegram.ChatType)
    : (r: (ChatState, map<int, ChatState>))
    ensures r.0.chatId == chatId || chatId in states
    ensures chatId in states ==> r == (states[chatId], states)
    ensures chatId !in states ==> r.0.chatType == chatType && r.0.member.None? && r.0.admins == []
    ensures r.1.Keys == states.Keys + {chatId} && r.1[chatId] == r.0
    ensures forall c :: c in states ==> r.1[c] == states[c]
  {
    if chatId in states then (states[chatId], states)
    else
      var cs := ChatState(chatId, chatType, None, []);
      (cs, states[chatId := cs])
  }

  /** A second get-or-create for the chat returns the same row, whatever chat type it is given. */
  lemma GetOrCreateChatTwice(states: map<int, ChatState>, chatId: Int64, t1: Telegram.ChatType, t2: Telegram.ChatType)
    ensures var (cs, states') := GetOrCreateChat(states, chatId, t1);
      GetOrCreateChat(states', chatId, t2) == (cs, states')
  {
  }

  // ---------------------------------------------------------------- class

  class Store {
    var users: Users
    var messages: Ledger
    var chatStates: map<int, ChatState>
    /** The global-state row (id 1): its last update id, when the row exists. */
    var lastUpdateId: Option<int>

    ghost predicate Valid()
      reads this
    {
      UsersValid(users) && LedgerKeyed(messages) &&
      (forall c :: c in chatStates ==> chatStates[c].chatId == c)
    }

    constructor ()
      ensures Valid()
      ensures users == map[] && messages == map[] && chatStates == map[] && lastUpdateId == None
    {
      users := map[];
      messages := map[];
      chatStates := map[];
      lastUpdateId := None;
    }

    /** The member with this id, or NotFound. */
    method GetUser(id: string) returns (r: Result<User, StoreError>)
      requires Valid()
      ensures r.Err? <==> !HasId(users, id)
      ensures r.Err? ==> r.error == NotFound
      ensures r.Ok? ==> r == Ok(FindById(users, id).value) && r.value.id == id && r.value in users.Values
    {
      if k :| k in users && users[k].id == id {
        r := Ok(users[k]);
        assert HasId(users, id);
        ghost var k' :| k' in users && users[k'] == FindById(users, id).value;
        assert FindById(users, id).Some?;
        assert users[k'].id == id;
      } else {
        r := Err(NotFound);
      }
    }

    /** The member of this chat with this platform id, or NotFound. */
    method GetChatUser(chatId: Int64, telegramId: Int64) returns (r: Result<User, StoreError>)
      requires Valid()
      ensures r.Err? <==> UserKey(chatId, telegramId) !in users
      ensures r.Err? ==> r.error == NotFound
      ensures r.Ok? ==> r.value in users.Values && r.value.chatId == chatId && r.value.telegramId == telegramId
    {
      var key := UserKey(chatId, telegramId);
      if key in users {
        r := Ok(users[key]);
      } else {
        r := Err(NotFound);
      }
    }

    method GetOrCreateUser(chatId: Int64, telegramId: Int64, defaultStatus: UserStatus, freshId: UserId)
      returns (r: Result<User, StoreError>)
      requires Valid()
      modifies this
      ensures Valid()
      ensures (r, users) == GetOrCreate(old(users), chatId, telegramId, defaultStatus, freshId)
      ensures messages == old(messages) && chatStates == old(chatStates) && lastUpdateId == old(lastUpdateId)
    {
      GetOrCreateValid(users, chatId, telegramId, defaultStatus, freshId);
      var key := UserKey(chatId, telegramId);
      if key in users {
        r := Ok(users[key]);
      } else if exists k :: k in users && users[k].id == freshId {
        r := Err(DuplicateKey);
      } else {
        var u := User(freshId, chatId, telegramId, 0, defaultStatus);
        users := users[key := u];
        r := Ok(u);
      }
    }

    /** Sets the status of the row with this id; no matching row is not an error. */
    method SetUserStatus(id: string, status: UserStatus)
      requires Valid()
      modifies this
      ensures Valid()
      ensures users == WithStatus(old(users), id, status)
      ensures messages == old(messages) && chatStates == old(chatStates) && lastUpdateId == old(lastUpdateId)
    {
      WithStatusValid(users, id, status);
      users := map k | k in users :: if users[k].id == id then users[k].(status := status) else users[k];
    }

    /** Records the account and makes the member Active, in one update. */
    method OnUserAuthorized(id: string, ctftimeUserId: Int64)
      requires Valid()
      modifies this
      ensures Valid()
      ensures users == Authorized(old(users), id, ctftimeUserId)
      ensures messages == old(messages) && chatStates == old(chatStates) && lastUpdateId == old(lastUpdateId)
    {
      AuthorizedValid(users, id, ctftimeUserId);
      users := map k | k in users :: if users[k].id == id then users[k].(status := Active, ctftimeUserId := ctftimeUserId) else users[k];
    }

    /** Inserts a ledger row stamped with the creation time. */
    method AddMessage(chatId: Int64, messageId: string, t: MessageType, associatedUserId: string, now: int)
      returns (r: Result<Message, StoreError>)
      requires Valid()
      modifies this
      ensures Valid()
      ensures var m := Message(chatId, messageId, t, associatedUserId, now);
        match AddRow(old(messages), m)
        case Ok(ledger) => r == Ok(m) && messages == ledger
        case Err(e) => r == Err(e) && messages == old(messages)
      ensures users == old(users) && chatStates == old(chatStates) && lastUpdateId == old(lastUpdateId)
    {
      var m := Message(chatId, messageId, t, associatedUserId, now);
      LedgerOpsKeyed(messages, m, []);
      if MessageKeyOf(m) in messages {
        r := Err(DuplicateKey);
      } else {
        messages := messages[MessageKeyOf(m) := m];
        r := Ok(m);
      }
    }

    /** Picks up to PageLimit of the given rows, one at a time, in no particular order. */
    method TakePage(matching: set<MessageKey>) returns (rows: seq<Message>)
      requires LedgerKeyed(messages) && matching <= messages.Keys
      ensures IsPage(messages, rows, matching)
    {
      rows := [];
      var pool := matching;
      ghost var taken: set<MessageKey> := {};
      while |rows| < PageLimit && pool != {}
        invariant pool <= matching && taken <= matching && pool !! taken
        invariant |taken| + |pool| == |matching| && |taken| == |rows|
        invariant taken + pool == matching
        invariant |rows| <= PageLimit
        invariant forall i :: 0 <= i < |rows| ==>
          MessageKeyOf(rows[i]) in taken && messages[MessageKeyOf(rows[i])] == rows[i]
        invariant forall i, j :: 0 <= i < j < |rows| ==> MessageKeyOf(rows[i]) != MessageKeyOf(rows[j])
        decreases |pool|
      {
        var k :| k in pool;
        rows := rows + [messages[k]];
        taken := taken + {k};
        pool := pool - {k};
      }
    }

    /** Greeting-ledger rows of one member in one chat, at most PageLimit of them. */
    method GetMessagesForUser(userId: string, chatId: int, t: MessageType) returns (rows: seq<Message>)
      requires Valid()
      ensures IsPage(messages, rows, ForUserKeys(messages, userId, chatId, t))
      ensures forall i :: 0 <= i < |rows| ==>
        rows[i].associatedUserId == userId && rows[i].chatId == chatId && rows[i].messageType == t
    {
      rows := TakePage(ForUserKeys(messages, userId, chatId, t));
    }

    /** Ledger rows created strictly before the cutoff, at most PageLimit of them. */
    method GetMessagesOlderThan(cutoff: int) returns (rows: seq<Message>)
      requires Valid()
      ensures IsPage(messages, rows, OlderThanKeys(messages, cutoff))
      ensures forall i :: 0 <= i < |rows| ==> rows[i].createdAt < cutoff
    {
      rows := TakePage(OlderThanKeys(messages, cutoff));
    }

    /** Deletes the given rows by primary key. */
    method DeleteMessages(rows: seq<Message>) returns (r: Result<(), StoreError>)
      requires Valid()
      modifies this
      ensures Valid()
      ensures match DeleteRows(old(messages), rows)
        case Ok(ledger) => r.Ok? && messages == ledger
        case Err(e) => r == Err(e) && messages == old(messages)
      ensures users == old(users) && chatStates == old(chatStates) && lastUpdateId == old(lastUpdateId)
    {
      LedgerOpsKeyed(messages, Message(0, "", Greeting, "", 0), rows);
      if |rows| == 0 {
        r := Err(MissingWhereClause);
      } else {
        var gone := set i | 0 <= i < |rows| :: MessageKeyOf(rows[i]);
        messages := map k | k in messages && k !in gone :: messages[k];
        r := Ok(());
      }
    }

    method GetOrCreateChatState(chatId: Int64, chatType: Telegram.ChatType) returns (cs: ChatState)
      requires Valid()
      modifies this
      ensures Valid()
      ensures (cs, chatStates) == GetOrCreateChat(old(chatStates), chatId, chatType)
      ensures users == old(users) && messages == old(messages) && lastUpdateId == old(lastUpdateId)
    {
      if chatId in chatStates {
        cs := chatStates[chatId];
      } else {
        cs := ChatState(chatId, chatType, None, []);
        chatStates := chatStates[chatId := cs];
      }
    }

    /** Creates the global-state row with last update id zero unless it exists; returns its id. */
    method GetOrCreateGlobalState() returns (last: int)
      requires Valid()
      modifies this
      ensures Valid()
      ensures lastUpdateId == (if old(lastUpdateId).Some? then old(lastUpdateId) else Some(0))
      ensures last == lastUpdateId.value
      ensures users == old(users) && messages == old(messages) && chatStates == old(chatStates)
    {
      if lastUpdateId.None? {
        lastUpdateId := Some(0);
      }
      last := lastUpdateId.value;
    }

    /** Records the last update id; with no global-state row, nothing is updated. */
    method UpdateLastUpdate(updateId: int)
      requires Valid()
      modifies this
      ensures Valid()
      ensures lastUpdateId == (if old(lastUpdateId).Some? then Some(updateId) else None)
      ensures users == old(users) && messages == old(messages) && chatStates == old(chatStates)
    {
      if lastUpdateId.Some? {
        lastUpdateId := Some(updateId);
      }
    }
  }
}
