/**
 * The OAuth callback of the web service (internal/api/service.go): an
 * early-return ladder over the query, the state token and the provider's
 * answers, then the authorization write and the greeting cleanup.
 */
module Service {
  import opened Wrappers
  import opened Decimal
  import opened Models
  import opened Storage
  import T = Telegram
  import AuthUtil

  /** The token exchange: a transport failure, or the HTTP status and the access token read. */
  datatype TokenOutcome = TokenTransportError | TokenResponse(status: int, accessToken: string)

  /** The identity fetch: a transport failure, or the HTTP status and the account id the body names. */
  datatype IdentityOutcome = IdentityTransportError | IdentityResponse(status: int, id: Int64)

  /**
   * The account id getUser returns for a response: the HTTP client decodes
   * the body into the result only for a 2xx status, so any other status
   * leaves the result at its zero value.
   */
  function AccountRead(identity: IdentityOutcome): Int64
    requires identity.IdentityResponse?
  {
    if 200 <= identity.status < 300 then identity.id else 0
  }

  /**
   * What the callback decides: the HTTP status and message, which provider
   * calls it makes, the authorization write it attempts and, on success,
   * whose greetings it clears.
   */
  datatype Decision = Decision(
    status: int,
    message: string,
    exchangesToken: bool,
    fetchesIdentity: bool,
    write: Option<(string, Int64)>,
    clearsFor: Option<AuthUtil.State>)

  function Reject(status: int, message: string, exchanged: bool, fetched: bool): Decision
  {
    Decision(status, message, exchanged, fetched, None, None)
  }

  /** HandleOAuthCallback's ladder, given the provider's and the store's answers. */
  function OAuthDecision(code: string, stateRaw: string, token: TokenOutcome, identity: IdentityOutcome, storeOk: bool)
    : (d: Decision)
    ensures d.status in {200, 400, 500}
    ensures d.status == 400 <==> code == "" || stateRaw == "" || AuthUtil.StateFromString(stateRaw).Err?
    ensures d.status == 400 ==> !d.exchangesToken && !d.fetchesIdentity && d.write.None?
    ensures d.fetchesIdentity ==> d.exchangesToken
    ensures d.write.Some? ==> d.fetchesIdentity && identity.IdentityResponse?
    ensures d.write.Some? <==>
      d.status != 400 && token.TokenResponse? && token.status == 200 && identity.IdentityResponse?
    ensures d.write.Some? ==>
      && AuthUtil.StateFromString(stateRaw).Ok?
      && d.write.value == (AuthUtil.StateFromString(stateRaw).value.userId, AccountRead(identity))
    ensures d.clearsFor.Some? ==>
      AuthUtil.StateFromString(stateRaw).Ok? && d.clearsFor.value == AuthUtil.StateFromString(stateRaw).value
    ensures d.status == 200 <==> d.write.Some? && storeOk
    ensures d.clearsFor.Some? <==> d.status == 200
  {
    if code == "" then Reject(400, "code is required", false, false)
    else if stateRaw == "" then Reject(400, "state is required", false, false)
    else match AuthUtil.StateFromString(stateRaw)
      case Err(_) => Reject(400, "failed to unmarshal state", false, false)
      case Ok(state) =>
        if !token.TokenResponse? || token.status != 200 then Reject(500, "failed to get oauth token", true, false)
        else if identity.IdentityTransportError? then Reject(500, "failed to get user", true, true)
        else
          var write := Some((state.userId, AccountRead(identity)));
          if !storeOk then Decision(500, "failed to set oauth token", true, true, write, None)
          else Decision(200, "Successfully authorized, you can close this page.", true, true, write, Some(state))
  }

  /** An empty code is refused first, whatever else the request carries. */
  lemma EmptyCodeFirst(stateRaw: string, token: TokenOutcome, identity: IdentityOutcome, storeOk: bool)
    ensures OAuthDecision("", stateRaw, token, identity, storeOk) == Reject(400, "code is required", false, false)
  {
  }

  /** A failed token exchange, by transport or by status, ends in 500 with no write and no identity fetch. */
  lemma TokenFailureWritesNothing(code: string, stateRaw: string, token: TokenOutcome, identity: IdentityOutcome, storeOk: bool)
    requires code != "" && stateRaw != "" && AuthUtil.StateFromString(stateRaw).Ok?
    requires token.TokenTransportError? || token.status != 200
    ensures var d := OAuthDecision(code, stateRaw, token, identity, storeOk);
      d.status == 500 && d.write.None? && !d.fetchesIdentity
  {
  }

  /**
   * The identity response's HTTP status is never checked: a refused fetch
   * (any status outside 2xx) still reaches the write, with account 0, and
   * authorizes the member when the store accepts it.
   */
  lemma RefusedIdentityWritesZero(code: string, stateRaw: string, accessToken: string, status: int, id: Int64, storeOk: bool)
    requires code != "" && stateRaw != "" && AuthUtil.StateFromString(stateRaw).Ok?
    requires !(200 <= status < 300)
    ensures var d := OAuthDecision(code, stateRaw, TokenResponse(200, accessToken), IdentityResponse(status, id), storeOk);
      && d.write == Some((AuthUtil.StateFromString(stateRaw).value.userId, 0))
      && (storeOk ==> d.status == 200)
  {
  }

  /**
   * A login link made for a member, coming back with a code the provider
   * accepts and an identity it serves, authorizes exactly that member with
   * the account the provider names.
   */
  lemma LoginLinkAuthorizesItsMember(userId: UserId, chatId: Int64, cfg: AuthUtil.OAuthConfig,
                                     code: string, accessToken: string, s: int, account: Int64)
    requires code != "" && 200 <= s < 300
    ensures var stateRaw := AuthUtil.GetOAuthUrl(userId, chatId, cfg).query["state"];
      var d := OAuthDecision(code, stateRaw, TokenResponse(200, accessToken), IdentityResponse(s, account), true);
      d.status == 200 && d.write == Some((userId, account)) && d.clearsFor == Some(AuthUtil.State(userId, chatId))
  {
    AuthUtil.OAuthUrlQuery(userId, chatId, cfg);
    var stateRaw := AuthUtil.GetOAuthUrl(userId, chatId, cfg).query["state"];
    assert |AuthUtil.StateJson(AuthUtil.State(userId, chatId))| > 0;
    assert |stateRaw| > 0;
  }

  /** The authorization write makes the member Active whatever their status was, Banned or Kicked included. */
  lemma AuthorizationIgnoresStatus(users: Users, k: UserKey, account: Int64)
    requires k in users
    ensures var users' := Authorized(users, users[k].id, account);
      users'[k].status == Active && users'[k].ctftimeUserId == account
  {
  }

  class Service {
    const store: Store
    /** The platform calls made so far, oldest first. */
    var effects: seq<T.Effect>

    constructor (store: Store)
      ensures this.store == store && effects == []
    {
      this.store := store;
      effects := [];
    }

    /**
     * Deletes the platform messages of up to a page of the member's greeting
     * rows in the state's chat; failures are collected and then dropped.
     */
    method RemoveGreetings(state: AuthUtil.State) returns (rows: seq<Message>)
      requires store.Valid()
      modifies this
      ensures IsPage(store.messages, rows, ForUserKeys(store.messages, state.userId, state.chatId, Greeting))
      ensures effects == old(effects) + DeletesOf(rows)
    {
      rows := store.GetMessagesForUser(state.userId, state.chatId, Greeting);
      for i := 0 to |rows|
        invariant effects == old(effects) + DeletesOf(rows[..i])
      {
        assert DeletesOf(rows[..i + 1]) == DeletesOf(rows[..i]) + [DeleteOf(rows[i])];
        effects := effects + [DeleteOf(rows[i])];
      }
      assert rows[..|rows|] == rows;
    }

    /**
     * The callback: the decision, the authorization write when the ladder
     * reaches it and the store accepts it, and the greeting cleanup on success.
     */
    method HandleOAuthCallback(code: string, stateRaw: string, token: TokenOutcome, identity: IdentityOutcome, storeOk: bool)
      returns (status: int, message: string)
      requires store.Valid()
      modifies this, store
      ensures store.Valid()
      ensures var d := OAuthDecision(code, stateRaw, token, identity, storeOk);
        && status == d.status && message == d.message
        && store.users == (if d.status == 200 then Authorized(old(store.users), d.write.value.0, d.write.value.1) else old(store.users))
        && (d.status != 200 ==> effects == old(effects))
        && (d.status == 200 ==> exists rows ::
              IsPage(store.messages, rows, ForUserKeys(store.messages, d.clearsFor.value.userId, d.clearsFor.value.chatId, Greeting)) &&
              effects == old(effects) + DeletesOf(rows))
      ensures store.messages == old(store.messages) && store.chatStates == old(store.chatStates)
      ensures store.lastUpdateId == old(store.lastUpdateId)
    {
      var d := OAuthDecision(code, stateRaw, token, identity, storeOk);
      status, message := d.status, d.message;
      if d.status == 200 {
        store.OnUserAuthorized(d.write.value.0, d.write.value.1);
        var _ := RemoveGreetings(d.clearsFor.value);
      }
    }
  }
}
