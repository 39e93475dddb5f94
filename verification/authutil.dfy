/**
 * The OAuth "state" token and the provider's authorization link
 * (internal/authutil/utils.go). The state is the JSON object
 * {"user_id":...,"chat_id":...} (RFC 8259), encoded with base64url.
 */
module AuthUtil {
  import opened Wrappers
  import opened Decimal
  import opened Text
  import Base64Url

  /** The member's internal id and the group chat it belongs to. */
  datatype State = State(userId: PlainText, chatId: Int64)

  datatype StateError = InvalidBase64 | InvalidJson

  const UserIdMember: string := "{\"user_id\":\""
  const ChatIdMember: string := "\",\"chat_id\":"

  predicate IsAscii(t: string) { forall i :: 0 <= i < |t| ==> t[i] as int < 128 }

  /** json.Marshal of a State: its fields in declaration order, no white space. */
  function StateJson(s: State): (t: string)
    ensures IsAscii(t)
  {
    var t := UserIdMember + s.userId + ChatIdMember + FormatInt(s.chatId) + "}";
    assert forall i :: 0 <= i < |t| ==> t[i] in UserIdMember || t[i] in s.userId || t[i] in ChatIdMember || t[i] in FormatInt(s.chatId) || t[i] == '}';
    t
  }

  /** The bytes of ASCII text. */
  function AsciiBytes(t: string): (b: seq<Base64Url.Byte>)
    requires IsAscii(t)
    ensures |b| == |t|
    ensures forall i :: 0 <= i < |t| ==> b[i] == t[i] as int
  {
    seq(|t|, i requires 0 <= i < |t| => t[i] as int)
  }

  /** Bytes read one character per byte; anything above 0x7E fails the parser below. */
  function ByteChars(b: seq<Base64Url.Byte>): (t: string)
    ensures |t| == |b|
    ensures forall i :: 0 <= i < |b| ==> t[i] as int == b[i]
  {
    seq(|b|, i requires 0 <= i < |b| => b[i] as char)
  }

  /** The JSON text with the given user id and chat-id literal. */
  function Frame(id: string, num: string): string
  {
    UserIdMember + id + ChatIdMember + num + "}"
  }

  /**
   * json.Unmarshal into a State, for the form json.Marshal writes: the two
   * members in order, a user id made of plain characters, and an integer
   * chat id inside the int64 range.
   */
  function ParseStateJson(t: string): (r: Result<State, StateError>)
    ensures r.Ok? ==> HasPrefix(t, UserIdMember) && |t| > 0 && t[|t| - 1] == '}'
  {
    if !HasPrefix(t, UserIdMember) then Err(InvalidJson)
    else
      var rest := t[|UserIdMember|..];
      var q := IndexOf(rest, '"');
      var id := rest[..q];
      if q == |rest| || !IsPlainText(id) then Err(InvalidJson)
      else
        var after := rest[q..];
        if !HasPrefix(after, ChatIdMember) || |after| == |ChatIdMember| || after[|after| - 1] != '}' then Err(InvalidJson)
        else
          match ParseJsonInt64(after[|ChatIdMember|..|after| - 1])
          case None => Err(InvalidJson)
          case Some(n) => Ok(State(id, n))
  }

  /** State.Serialize: base64url over the JSON bytes; never fails for a State. */
  function Serialize(s: State): (token: string)
    ensures |token| == 4 * ((|StateJson(s)| + 2) / 3)
    ensures forall i :: 0 <= i < |token| ==> Base64Url.IsAlphabetChar(token[i]) || token[i] == Base64Url.Pad
  {
    Base64Url.Encode(AsciiBytes(StateJson(s)))
  }

  /** StateFromString: base64url decoding, then JSON decoding. */
  function StateFromString(token: string): (r: Result<State, StateError>)
    ensures Base64Url.Decode(token).None? ==> r == Err(InvalidBase64)
    ensures r.Ok? ==> Base64Url.Decode(token).Some?
  {
    match Base64Url.Decode(token)
    case None => Err(InvalidBase64)
    case Some(bytes) => ParseStateJson(ByteChars(bytes))
  }

  lemma FrameSplit(id: PlainText, num: string)
    ensures var t := Frame(id, num);
      && HasPrefix(t, UserIdMember)
      && t[|UserIdMember|..] == id + (ChatIdMember + num + "}")
  {
    var t := Frame(id, num);
    assert t == UserIdMember + (id + (ChatIdMember + num + "}"));
  }

  lemma FirstQuote(id: PlainText, tail: string)
    requires |tail| > 0 && tail[0] == '"'
    ensures IndexOf(id + tail, '"') == |id|
    ensures (id + tail)[..|id|] == id && (id + tail)[|id|..] == tail
  {
    var s := id + tail;
    assert forall i :: 0 <= i < |id| ==> s[i] == id[i] && s[i] != '"';
    assert s[|id|] == '"';
  }

  lemma ChatIdTail(num: string)
    requires |num| > 0
    ensures var after := ChatIdMember + num + "}";
      && HasPrefix(after, ChatIdMember) && |after| != |ChatIdMember| && after[|after| - 1] == '}'
      && after[|ChatIdMember|..|after| - 1] == num
  {
  }

  lemma {:induction false} ParseStateJsonRoundTrip(s: State)
    ensures ParseStateJson(StateJson(s)) == Ok(s)
  {
    var num := FormatInt(s.chatId);
    ParseJsonFormatInt(s.chatId);
    assert StateJson(s) == Frame(s.userId, num);
    FrameSplit(s.userId, num);
    FirstQuote(s.userId, ChatIdMember + num + "}");
    ChatIdTail(num);
  }

  /** Every state the bot puts in a link is read back unchanged by the callback. */
  lemma {:induction false} StateRoundTrip(s: State)
    ensures StateFromString(Serialize(s)) == Ok(s)
  {
    var b := AsciiBytes(StateJson(s));
    Base64Url.DecodeEncode(b);
    assert ByteChars(b) == StateJson(s);
    ParseStateJsonRoundTrip(s);
  }

  /** Distinct states give distinct tokens. */
  lemma SerializeInjective(a: State, b: State)
    ensures Serialize(a) == Serialize(b) ==> a == b
  {
    StateRoundTrip(a);
    StateRoundTrip(b);
  }

  /**
   * Decoded bytes with no '{' and no 'n' can hold neither an object nor
   * null, so they are not JSON for a State: the token is refused as such.
   */
  lemma NonObjectRejected(token: string)
    requires Base64Url.Decode(token).Some?
    requires var b := Base64Url.Decode(token).value;
      forall i :: 0 <= i < |b| ==> b[i] != '{' as int && b[i] != 'n' as int
    ensures StateFromString(token) == Err(InvalidJson)
  {
    var t := ByteChars(Base64Url.Decode(token).value);
    assert |t| == 0 || t[0] != '{';
    assert UserIdMember[0] == '{';
  }

  datatype OAuthConfig = OAuthConfig(host: string, clientId: string, clientSecret: string, redirectUrl: string)

  /** A URL as scheme, host, path and query values; percent-encoding is not modelled. */
  datatype Url = Url(scheme: string, host: string, path: string, query: map<string, string>)

  const QueryKeys: set<string> := {"client_id", "redirect_uri", "scope", "response_type", "state"}

  /**
   * GetCTFTimeOAuthURL: the provider's /authorize page with the client id,
   * the redirect URL, the profile:read scope, the code response type and the
   * serialized state. Its error return is unreachable, since Serialize
   * cannot fail.
   */
  function GetOAuthUrl(userId: PlainText, chatId: Int64, cfg: OAuthConfig): (u: Url)
    ensures u.scheme == "https" && u.host == cfg.host && u.path == "/authorize"
    ensures u.query.Keys == QueryKeys
  {
    Url("https", cfg.host, "/authorize",
      map["client_id" := cfg.clientId, "redirect_uri" := cfg.redirectUrl, "scope" := "profile:read",
          "response_type" := "code", "state" := Serialize(State(userId, chatId))])
  }

  /** The link carries the configured client and the state the callback decodes back. */
  lemma OAuthUrlQuery(userId: PlainText, chatId: Int64, cfg: OAuthConfig)
    ensures var q := GetOAuthUrl(userId, chatId, cfg).query;
      && q["client_id"] == cfg.clientId && q["redirect_uri"] == cfg.redirectUrl
      && q["scope"] == "profile:read" && q["response_type"] == "code"
      && StateFromString(q["state"]) == Ok(State(userId, chatId))
  {
    var q := GetOAuthUrl(userId, chatId, cfg).query;
    assert q["state"] == Serialize(State(userId, chatId));
    StateRoundTrip(State(userId, chatId));
  }
}
