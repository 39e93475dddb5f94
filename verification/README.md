# shpaga member verification, in Dafny

shpaga is a Telegram bot with a small web service. It keeps newcomers to a
group chat silent until they log in with CTFTime:

- A member who joins is recorded as `just_joined` and greeted. The greeting
  has a login link and two admin-only buttons, accept and kick.
- Their chat messages are deleted until they authorize.
- `/start <chat id>` in a private chat hands them the provider's
  authorization link. Its `state` parameter carries the member's id and chat
  id as base64url-encoded JSON.
- The provider's callback lands on the web service. The service records the
  CTFTime account and makes the member `active`.
- A periodic cleaner kicks members who are still `just_joined` once their
  greeting is older than the join timeout. It deletes the greetings either way.

The model covers the following:

- The store's tables as in-memory maps inside a `Store` class (`storage.dfy`).
- The records (`models.dfy`) and the platform's updates and calls
  (`telegram.dfy`). Every call the bot makes goes into an append-only effect log.
- The callback-button actions (`action.dfy`).
- The dispatch of an update to exactly one handler, as a pure function
  (`dispatch.dfy`).
- The handlers and one cleaner tick, as methods of a `Monitor` class over the
  store and the log (`monitor.dfy`).
- The state-token codec and the authorization link (`authutil.dfy`), over
  concrete base64url (`base64.dfy`, section 5 of RFC 4648) and the Go number
  and string primitives the handlers use (`decimal.dfy`, `text.dfy`).
- The OAuth callback's decision ladder, as a pure function, and a `Service`
  class that applies it to the store (`service.dfy`).

Outside inputs are parameters:

- the clock (`now`);
- the next UUID (`freshId`);
- the platform's answers: the sent greeting's id, whether the removal call and
  the login-link message succeeded;
- the provider's answers;
- whether the store accepted the authorization write;
- the join timeout, in nanoseconds.

The source does not agree with itself on three points:

- The status set has a fourth member, `Kicked`. The handlers use it, but the
  user model's constant block does not declare it. Its stored text is taken to be
  `"kicked"`.
- The durations are parameters. The configuration record lacks them.
- The update context carries the chat's stored state, as the handlers read it.

In these places the model follows the code:

- Leaving, accepting, kicking, `/start` and the OAuth callback delete the
  greeting *messages* from the chat, but never the ledger *rows*. Only the
  cleaner deletes rows.
- The OAuth callback makes the member Active whatever their status was
  (`Service.AuthorizationIgnoresStatus`).
- The chat state is fetched or created before the update is classified, so
  even dropped updates create a chat-state row.
- The allow-list is checked against the chat type the update carries.
  `IsGroup` reads the stored type.

## Model

| member | source | states |
|---|---|---|
| Decimal.FormatInt | internal/monitor/monitor.go:216 | strconv.FormatInt: nonempty; a leading '-' exactly for negative numbers, digits otherwise |
| Decimal.ParseFormatInt | internal/monitor/monitor.go:281 | strconv.ParseInt(FormatInt(n), 10, 64) gives back n for every int64 |
| Decimal.NatDigitsValue | internal/monitor/monitor.go:232 | the decimal digits of a natural number read back as that number |
| Decimal.ParseInt | internal/monitor/monitor.go:350 | strconv.ParseInt(s, 10, 64): accepted iff an optional sign is followed by at least one decimal digit and the magnitude fits int64 (up to 2^63 after '-'); the result is the digits' value, negated after '-'; a negative result has a leading '-' |
| Decimal.ParseJsonFormatInt | internal/authutil/utils.go:50 | the int64 that json.Marshal writes is a JSON integer and json.Unmarshal reads it back |
| Decimal.ParseJsonInt64 | internal/authutil/utils.go:66 | only JSON integer syntax is accepted for an int64 field, and on that syntax the value is strconv.ParseInt's |
| Decimal.LiteralForms | internal/monitor/monitor.go:281 | ParseInt accepts "+5", "007" and "-0" and refuses "", "-" and "1_000"; the JSON reader accepts "-0" and refuses "+5", "007" and "1e3" |
| Text.Fields | internal/monitor/monitor.go:275 | strings.Fields: every token is nonempty and has no white space |
| Text.FieldsJoinAndCount | internal/monitor/monitor.go:275 | the tokens joined are exactly the non-space characters in order, and there is one token per maximal non-space run |
| Text.FieldsOfWord | internal/monitor/monitor.go:275 | a nonempty text without white space is the single token |
| Text.FieldsSplitAtSpace | internal/monitor/monitor.go:275 | white space at any position splits: the tokens are those before it followed by those after it, so runs are never split and never merged |
| Text.NonSpaceWord | internal/monitor/monitor.go:275 | a prefix without white space keeps all its characters among the non-space ones |
| Text.RunsInWord | internal/monitor/monitor.go:275 | a prefix without white space starts exactly one run |
| Text.WordLength | internal/monitor/monitor.go:275 | a token runs up to the first white-space character |
| Text.FieldsOfCommand | internal/monitor/monitor.go:275-276 | a command, one space and an argument without white space split into exactly those two tokens |
| Text.SplitPipe2 | internal/monitor/monitor.go:341-342 | strings.SplitN(s, "\|", 2): one part iff there is no '\|'; else the text before the first '\|' and the rest, which join back to s |
| Text.SplitPipe2Join | internal/monitor/monitor.go:341 | splitting a '\|'-free head joined to any tail by '\|' gives back head and tail |
| Text.IndexOf | internal/monitor/monitor.go:341 | the first position of the character, or the length when it is absent |
| Base64Url.Encode | internal/authutil/utils.go:54-55 | output length 4·⌈n/3⌉ over the base64url alphabet and '=' |
| Base64Url.Decode | internal/authutil/utils.go:60-63 | accepted input is alphabet, '=' and line breaks, with a multiple of four non-newline characters |
| Base64Url.DecodeEncode | internal/authutil/utils.go:54-55 | decoding an encoding gives back the bytes |
| Base64Url.DecodeQuantaEncode | internal/authutil/utils.go:60 | the group-wise decoder inverts the encoder on newline-free text |
| Base64Url.DecodeQuanta | internal/authutil/utils.go:60 | accepted newline-free text has a length that is a multiple of four, only alphabet and '=' characters, and yields at most three bytes per group |
| Base64Url.SextetChar | internal/authutil/utils.go:55 | every six-bit value maps into the URL-safe alphabet |
| Base64Url.CharSextet | internal/authutil/utils.go:60 | alphabet characters map back to their six-bit value, inverting SextetChar |
| Base64Url.StripNewlines | internal/authutil/utils.go:60 | the decoder skips line breaks: the result has none and holds exactly the input's other characters, and is no longer |
| Base64Url.StripKeepsCount | internal/authutil/utils.go:60 | every character other than a line break is kept as often as it occurs |
| Base64Url.StripConcat | internal/authutil/utils.go:60 | removing line breaks commutes with concatenation, so the kept characters stay in order |
| Base64Url.PaddingBitsIgnored | internal/authutil/utils.go:60 | the non-strict decoder ignores the unused low bits before "==" |
| Base64Url.NonCanonicalAccepted | internal/authutil/utils.go:60 | "AA==" and "AB==" both decode to the single byte 0, so decoding is not injective |
| Base64Url.OnePaddedByte | internal/authutil/utils.go:60 | a quantum with two '=' decodes to the one byte its first twelve bits carry |
| Base64Url.LineBreakSkipped | internal/authutil/utils.go:60 | a line feed anywhere in the token does not change the decoding |
| AuthUtil.StateJson | internal/authutil/utils.go:50 | json.Marshal of a State is ASCII text |
| AuthUtil.ParseStateJson | internal/authutil/utils.go:65-68 | accepted text starts with the user_id member and ends with '}' |
| AuthUtil.ParseStateJsonRoundTrip | internal/authutil/utils.go:50-66 | unmarshalling the marshalled State gives back the State |
| AuthUtil.Serialize | internal/authutil/utils.go:49-57 | length 4·⌈n/3⌉ for n JSON bytes, base64url alphabet with '=' padding |
| AuthUtil.StateFromString | internal/authutil/utils.go:59-71 | invalid padded base64url fails as such before any JSON decoding |
| AuthUtil.NonObjectRejected | internal/authutil/utils.go:65-68 | decoded bytes that can hold neither an object nor null fail as invalid JSON |
| AuthUtil.StateRoundTrip | internal/authutil/utils.go:49-71 | StateFromString(Serialize(s)) == s for every user id and chat id |
| AuthUtil.SerializeInjective | internal/authutil/utils.go:49-57 | distinct states serialize to distinct tokens |
| AuthUtil.GetOAuthUrl | internal/authutil/utils.go:12-37 | https, the configured host, /authorize, and exactly the five query keys |
| AuthUtil.OAuthUrlQuery | internal/authutil/utils.go:27-32 | client_id, redirect_uri, scope=profile:read, response_type=code, and a state that decodes to (user, chat) |
| Models.StatusText | internal/models/user.go:7-11 | every status is stored as nonempty text |
| Models.StatusTextInjective | internal/models/user.go:8-10 | the status texts, Kicked included, are pairwise distinct |
| Models.MessageSig | internal/models/message.go:25-27 | (message id, chat id), in that order: the row's primary key |
| Models.DeletesOf | internal/monitor/monitor.go:400-402 | one delete call per ledger row, in row order |
| Models.IsGroupCases | internal/models/chat_state.go:18-20 | IsGroup holds for groups and supergroups and for no other chat type |
| Action.CallbackAction.String | internal/monitor/action.go:10-16 | the action names are nonempty and contain neither '\|' nor the form feed |
| Action.DataMatchesSplit | internal/monitor/action.go:18-21 | data matches an action iff the text before its first '\|' is the form feed followed by the action's name |
| Action.ButtonData | internal/monitor/monitor.go:213-221 | a button's data splits at '\|' into the marked action name and the payload |
| Action.MatchStartsWithFormFeed | internal/monitor/action.go:19 | data without the leading form feed never matches an action |
| Action.ButtonDataMatches | internal/monitor/action.go:20 | "\f"+action+"\|"+payload matches the action for every payload |
| Action.NoDataMatchesBoth | internal/monitor/action.go:10-21 | no callback data matches both accept and kick |
| Action.ExtendedNameNoMatch | internal/monitor/action.go:20 | "\fnew_member_acceptX" does not match accept |
| Storage.OneUserPerKey | internal/models/user.go:15-16 | two stored members with one (chat, platform user) pair are the same row |
| Storage.GetOrCreate | internal/storage/storage.go:134-178 | an existing pair is returned unchanged with the table untouched; a failure is a taken fresh id |
| Storage.GetOrCreateInserts | internal/storage/storage.go:152-163 | a new pair gets exactly one row: the fresh id, the default status, no account |
| Storage.GetOrCreateValid | internal/storage/storage.go:152-160 | get-or-create keeps one row per pair and distinct ids |
| Storage.GetOrCreateTwice | internal/storage/storage.go:143-150 | a second get-or-create returns the same row, whatever default status and fresh id it is given |
| Storage.WithStatus | internal/storage/storage.go:196-209 | only the status changes, and only on the row with that id |
| Storage.Authorized | internal/storage/storage.go:180-194 | account id and Active are set together on the row with that id; nothing else changes |
| Storage.WithStatusValid | internal/storage/storage.go:196-209 | a status update keeps keys and ids, so the table stays valid |
| Storage.AuthorizedValid | internal/storage/storage.go:180-194 | an authorization keeps keys and ids, so the table stays valid |
| Storage.WithStatusFound | internal/storage/storage.go:196-209 | with unique ids a status update rewrites exactly the one row with that id |
| Storage.FindById | internal/storage/storage.go:114-120 | the row with the id exists exactly when some row has it |
| Storage.ForUserKeys | internal/storage/storage.go:226-232 | exactly the rows matching user id, chat id and message type |
| Storage.OlderThanKeys | internal/storage/storage.go:246 | exactly the rows created strictly before the cutoff |
| Storage.KeysOf | internal/storage/storage.go:256 | the primary keys a batch of rows names |
| Storage.AddRow | internal/storage/storage.go:211-216 | an existing key is refused; otherwise exactly one row is added and the others are kept |
| Storage.DeleteRows | internal/storage/storage.go:255-260 | an empty batch is refused; otherwise exactly the given keys are removed and the other rows are kept |
| Storage.LedgerOpsKeyed | internal/models/message.go:15-16 | inserts and deletes keep every ledger row under its own (chat, message id) key |
| Storage.DeleteRowsShrinks | internal/storage/storage.go:255-260 | deleting a nonempty batch of stored rows shrinks the ledger |
| Storage.GetOrCreateChat | internal/storage/storage.go:69-97 | an existing chat state is kept, its chat type included; a new one caches no member and no admins |
| Storage.GetOrCreateChatTwice | internal/storage/storage.go:69-97 | a second get-or-create of a chat state changes nothing, whatever chat type it is given |
| Storage.Store.constructor | internal/storage/storage.go:19-21 | an empty, valid store |
| Storage.Store.GetUser | internal/storage/storage.go:114-120 | the member with the id, or NotFound exactly when there is none |
| Storage.Store.GetChatUser | internal/storage/storage.go:122-132 | the member with the (chat, platform user) pair, or NotFound exactly when there is none |
| Storage.Store.GetOrCreateUser | internal/storage/storage.go:134-178 | the table and result follow GetOrCreate; the other tables are untouched |
| Storage.Store.SetUserStatus | internal/storage/storage.go:196-209 | the user table becomes WithStatus; nothing else changes |
| Storage.Store.OnUserAuthorized | internal/storage/storage.go:180-194 | the user table becomes Authorized; nothing else changes |
| Storage.Store.AddMessage | internal/storage/storage.go:211-216 | inserts the row stamped with the creation time, or reports the duplicate key |
| Storage.Store.TakePage | internal/storage/storage.go:233-234 | Limit(100) without ordering: min(100, matches) distinct matching rows |
| Storage.Store.GetMessagesForUser | internal/storage/storage.go:218-240 | at most 100 distinct rows, each matching user id, chat id and type, and as many as the limit allows |
| Storage.Store.GetMessagesOlderThan | internal/storage/storage.go:242-253 | at most 100 distinct rows, each created strictly before the cutoff |
| Storage.Store.DeleteMessages | internal/storage/storage.go:255-260 | the ledger becomes DeleteRows; an empty batch is an error |
| Storage.Store.GetOrCreateChatState | internal/storage/storage.go:69-97 | the chat-state table and result follow GetOrCreateChat |
| Storage.Store.GetOrCreateGlobalState | internal/storage/storage.go:30-55 | the global row is created with last update id 0 unless it exists |
| Storage.Store.UpdateLastUpdate | internal/storage/storage.go:57-67 | records the update id in the global row; with no row nothing changes |
| Dispatch.MemberNotLeft | internal/monitor/monitor.go:540-546 | isMemberStatus and isLeftStatus never hold together |
| Dispatch.JoinedLeftExclusive | internal/monitor/monitor.go:86-93 | one member change is never both a join and a leave |
| Dispatch.CheckSenderAdmin | internal/monitor/monitor.go:526-538 | passes iff the sender is in the cached admin list; the two error texts |
| Dispatch.Classify | internal/monitor/monitor.go:56-136 | unknown updates are dropped; each handler is reached only under its guard |
| Dispatch.DroppedExactly | internal/monitor/monitor.go:73-101 | no handler runs exactly for unknown updates, chat types other than group, supergroup and private, and groups whose cached bot role is known and not Administrator |
| Dispatch.PrivateChatsToPrivateHandler | internal/monitor/monitor.go:104-107 | handled private-chat updates always reach the private-message handler |
| Dispatch.ButtonReachesItsAction | internal/monitor/monitor.go:124-131 | a greeting button pressed in a group where the bot may act reaches its own action's handler |
| Dispatch.GroupUpdatesReachTheirHandler | internal/monitor/monitor.go:103-136 | in a group where the bot may act: a join or leave notice is deleted, then a leave and a join reach their handlers, and an update is a plain chat message iff it is none of these and no button press |
| Monitor.WholeMinutes | internal/monitor/monitor.go:205 | Duration / time.Minute: whole minutes, truncated toward zero |
| Monitor.DisplayName | internal/monitor/monitor.go:187-192 | when either name is set: the first name, one space, then the last name; otherwise the username |
| Monitor.StartLink | internal/monitor/monitor.go:195 | t.me/<bot>?start= followed directly by the decimal chat id and nothing else |
| Monitor.GreetingFor | internal/monitor/monitor.go:194-224 | names and mentions the newcomer; the deadline is the timeout in whole minutes; the login link is the start link for the chat; both buttons carry the action and the newcomer's id |
| Monitor.ParseStart | internal/monitor/monitor.go:275-288 | a start command iff two or more tokens with the first "/start"; then an invalid chat id iff ParseInt of the second token fails, else that chat id |
| Monitor.FormatIntNoSpace | internal/monitor/monitor.go:195 | the decimal chat id in the start link has no white space |
| Monitor.StartLinkNamesChat | internal/monitor/monitor.go:275-281 | the text after "?start=" in the start link, sent as "/start <payload>", parses to the chat the link was made for |
| Monitor.GreetingButtonsNameNewcomer | internal/monitor/monitor.go:341-350 | the greeting's button data parses back to the newcomer's id and matches its action |
| Monitor.UnexpectedStatusTextNamesStatus | internal/monitor/monitor.go:300 | the reply for an unexpected status names it: two statuses give the same reply iff they are equal |
| Monitor.SweepRow | internal/monitor/monitor.go:424-446 | a fetched row's step keeps the user table valid |
| Monitor.Sweep | internal/monitor/monitor.go:424-446 | the per-row steps keep the user table valid |
| Monitor.SweepStatuses | internal/monitor/monitor.go:429-441 | after a tick, exactly the members that were JustJoined and have a fetched greeting are Kicked; nothing else changes |
| Monitor.Deletions | internal/monitor/monitor.go:445 | only delete calls, each taken from the log |
| Monitor.DeletionsKeepCount | internal/monitor/monitor.go:445 | every delete call of the log is kept, as often as it was made |
| Monitor.DeletionsAppend | internal/monitor/monitor.go:445 | the delete calls of two logs are those of the first followed by those of the second |
| Monitor.SweepRowDeletes | internal/monitor/monitor.go:445 | a row's step makes exactly one delete call, for that row |
| Monitor.SweepDeletesEachRow | internal/monitor/monitor.go:424-446 | a tick deletes every fetched row's message exactly once, in fetch order |
| Monitor.AssociatedIdsSnoc | internal/monitor/monitor.go:426 | one more row adds its member's id to the batch's ids |
| Monitor.RowRemovesMember | internal/monitor/monitor.go:429-436 | a row whose member is still JustJoined removes exactly that newly expired member |
| Monitor.RowRemovesNobody | internal/monitor/monitor.go:427-429 | a row whose member is missing or no longer JustJoined removes nobody new |
| Monitor.RemovalsAppend | internal/monitor/monitor.go:432 | the removals of two logs are the union of each log's removals |
| Monitor.SweepRemovesExactly | internal/monitor/monitor.go:425-443 | a tick removes exactly the members that were JustJoined and have a fetched greeting |
| Monitor.FetchedRowsExpired | internal/monitor/monitor.go:411-414 | every fetched row is strictly older than the timeout |
| Monitor.TickMakesProgress | internal/monitor/monitor.go:448 | a tick that finds an expired row shrinks the ledger |
| Monitor.Monitor.constructor | internal/monitor/monitor.go:32-38 | the configuration is kept, and the effect log starts empty |
| Monitor.Monitor.RemoveGreetingsForUser | internal/monitor/monitor.go:394-405 | deletes the messages of a page of the member's greeting rows; the store is untouched |
| Monitor.Monitor.HandleChatMessage | internal/monitor/monitor.go:141-159 | the sender is looked up or created Active; the message is deleted iff the sender is JustJoined or Kicked; statuses are unchanged |
| Monitor.Monitor.HandleNewMember | internal/monitor/monitor.go:161-253 | bots are ignored; Kicked is reset to JustJoined; JustJoined gets one greeting and one ledger row under the member's id; Active and Banned get nothing |
| Monitor.Monitor.HandleMemberLeft | internal/monitor/monitor.go:255-270 | the member's greeting messages are deleted; the store is not written |
| Monitor.Monitor.HandlePrivateMessage | internal/monitor/monitor.go:272-326 | not a start command: ignored; bad chat id: "Invalid chat id"; not JustJoined: the status reply; otherwise the login link, then the greetings are deleted; the store is never written |
| Monitor.Monitor.HandleNewMemberCallbackAction | internal/monitor/monitor.go:328-392 | no state change unless the sender is a cached admin, the data has "\|" and an int64 id, and the target is JustJoined; accept sets Active; kick removes, then sets Kicked |
| Monitor.Monitor.CleanRow | internal/monitor/monitor.go:425-445 | one fetched row's step, as SweepRow states |
| Monitor.Monitor.CleanerTick | internal/monitor/monitor.go:410-451 | fetches a page of rows older than now − timeout, applies Sweep, then batch-deletes exactly the fetched rows |
| Monitor.Monitor.HandleAnyUpdate | internal/monitor/monitor.go:40-139 | the chat state is fetched or created and the last update id recorded first; the handler run is Classify's on that state; dropped updates change no member, row or effect; join and leave notices are only deleted; every other handler's change is that handler's own step (ChatMessageStep, NewMemberStep, MemberLeftStep, PrivateMessageStep, CallbackStep) |
| Service.OAuthDecision | internal/api/service.go:36-85 | 400 exactly for an empty code, an empty state or an undecodable state, with no provider call; a write iff the token call gave 200 and the identity call answered, and it is to the state's member with the account read; 200 iff the write succeeds; the greetings cleared are the state's |
| Service.EmptyCodeFirst | internal/api/service.go:38-41 | an empty code gets 400 before anything else is checked |
| Service.TokenFailureWritesNothing | internal/api/service.go:56-108 | a token transport error or a non-200 status gives 500, with no identity fetch and no write |
| Service.RefusedIdentityWritesZero | internal/api/service.go:113-126 | after a 200 token answer, a non-2xx identity answer leaves the account at zero; the member is still written with account 0 and the callback still succeeds when the store accepts |
| Service.LoginLinkAuthorizesItsMember | internal/api/service.go:48-83 | with a 2xx identity answer, the state of a login link authorizes exactly its member, with the account the provider names |
| Service.AuthorizationIgnoresStatus | internal/api/service.go:72 | the authorization write makes any member Active, whatever their status |
| Service.Service.constructor | internal/api/service.go:27-34 | the store is kept, and the effect log starts empty |
| Service.Service.RemoveGreetings | internal/api/service.go:129-143 | deletes the messages of a page of the state's member's greetings; errors are dropped |
| Service.Service.HandleOAuthCallback | internal/api/service.go:36-85 | the status is the decision's; the store is authorized only on success; on success the greetings are deleted |

## Left out

- Process wiring is not modelled: the two `main` programs, configuration
  loading and logging. The durations those programs would supply are
  constructor parameters.
- The ticker and cancellation loops around the cleaner are not modelled. One
  run is `CleanerTick`.
- `RunUpdateChatAdmins` is not modelled. It is timer-driven and calls the
  platform. The cached bot membership and admin list are therefore only read,
  never refreshed.
- The platform calls are effects in the log. Delete failures, including the
  not-found case, are never reported. The outcomes that steer control flow are
  inputs: the greeting send, the kick, the login-link send.
- Transient database failures are not modelled. Each store operation is atomic
  and sequential, so the get-or-create race between concurrent handlers is
  outside the model. The only store errors are the ones the constraints
  produce: not found, duplicate key, and an empty batch delete. The OAuth
  callback's write takes a `storeOk` input instead.
- The greeting's MarkdownV2 text and button labels are not modelled. The
  greeting is modelled as its parts: name, mention id, minutes, start link and
  button data. The login link is modelled as a URL record, without
  `url.Values` percent-encoding.
- A handler that would dereference an absent message stops there. In the
  source, these are the private-chat member updates and the chat-message
  deletion for a member update. The model records no further effect.
- Callback updates are modelled as always carrying a chat. The source takes
  the chat from the callback's message.
- The bot's polling asks only for message updates, and no callback handler is
  registered. Member-change and callback updates are still modelled as if
  delivered.
- The HTTP and JSON mechanics of the web service are not modelled. The
  provider's answers are inputs: transport error, or status plus the decoded
  field.
- `CreatedAt`/`UpdatedAt` on members are not modelled. `CreatedAt` on chat
  states is not modelled.
- AuthUtil.ParseStateJson: decodes only the form `json.Marshal` writes. That
  form is the two members in order, no white space, and a user id of printable
  ASCII without `"`, `\`, `<`, `>`, `&`, which covers the UUID text the store
  issues. `json.Unmarshal`'s leniency is not modelled: white space, other key
  orders, escapes, missing or unknown keys, and `null`.
- AuthUtil.StateFromString: its JSON failure case is stated only for decoded
  bytes that contain neither `{` nor `n`, because of the leniency above.
- Storage.Store.GetOrCreateGlobalState: the row's id (always 1) is not stored.
  The row is modelled by whether it exists and its last update id.
