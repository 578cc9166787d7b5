/**
 * The session checks of `AuthService`: the stored bearer token, its claims
 * segment, the expiry check, the user-info projection, logout and the
 * mapping of the login reply to a boolean.
 *
 * `atob` followed by `JSON.parse` is not modelled; it is the parameter
 * `decode`, a partial function that answers None wherever either would throw
 * or the parse gives no object.
 */
module AuthService {
  import opened Wrappers
  import opened Text
  import opened Domain

  /** The `jwt_token` entry of local storage. */
  type TokenStore = Option<string>

  /** Base64 decoding and JSON parsing of a claims segment. */
  type Decoder = string -> Option<JwtClaims>

  /** `s.split(sep)`: the pieces between separators, empty pieces included. */
  function Split(s: string, sep: char): (r: seq<string>)
    ensures |r| >= 1
    ensures forall k :: 0 <= k < |r| ==> sep !in r[k]
    decreases |s|
  {
    if |s| == 0 then [""]
    else if s[0] == sep then [""] + Split(s[1..], sep)
    else
      var t := Split(s[1..], sep);
      [[s[0]] + t[0]] + t[1..]
  }

  /** A string without the separator splits into itself alone. */
  lemma {:induction false} SplitWithoutSeparator(s: string, sep: char)
    requires sep !in s
    ensures Split(s, sep) == [s]
    decreases |s|
  {
    if |s| > 0 {
      SplitWithoutSeparator(s[1..], sep);
      assert [s[0]] + s[1..] == s;
    }
  }

  /** Splitting at a separator that follows a separator-free prefix yields that prefix first. */
  lemma {:induction false} SplitAtFirstSeparator(a: string, sep: char, b: string)
    requires sep !in a
    ensures Split(a + [sep] + b, sep) == [a] + Split(b, sep)
    decreases |a|
  {
    var s := a + [sep] + b;
    if |a| == 0 {
      assert s[1..] == b;
    } else {
      assert s[1..] == a[1..] + [sep] + b;
      SplitAtFirstSeparator(a[1..], sep, b);
      assert [a[0]] + a[1..] == a;
    }
  }

  /** `token.split('.')[1]`, or None when there is no second piece. */
  function ClaimsSegment(token: string): (r: Option<string>)
    ensures r.Some? ==> '.' in token && '.' !in r.value
  {
    var parts := Split(token, '.');
    if |parts| >= 2 then
      assert '.' in token by {
        if '.' !in token {
          SplitWithoutSeparator(token, '.');
        }
      }
      Some(parts[1])
    else None
  }

  /**
   * `decodeToken()`: None when no token is stored or it is empty, when the
   * token has no second `.`-piece (`atob(undefined)` throws), and when the
   * decoder fails; otherwise the decoded claims of the second piece.
   */
  function DecodeToken(store: TokenStore, decode: Decoder): (r: Option<JwtClaims>)
    ensures store.None? || store == Some("") ==> r.None?
    ensures store.Some? && '.' !in store.value ==> r.None?
    ensures r.Some? ==>
      store.Some? && ClaimsSegment(store.value).Some? && decode(ClaimsSegment(store.value).value) == r
  {
    match store
    case None => None
    case Some(token) =>
      if token == "" then None
      else match ClaimsSegment(token)
        case None => None
        case Some(payload) => decode(payload)
  }

  /** A token shaped `header.payload.signature` is decoded from its payload alone. */
  lemma DecodeThreePartToken(header: string, payload: string, signature: string, decode: Decoder)
    requires '.' !in header && '.' !in payload && '.' !in signature
    ensures DecodeToken(Some(header + "." + payload + "." + signature), decode) == decode(payload)
  {
    var token := header + "." + payload + "." + signature;
    assert token == header + ['.'] + (payload + ['.'] + signature);
    SplitAtFirstSeparator(header, '.', payload + ['.'] + signature);
    SplitAtFirstSeparator(payload, '.', signature);
    SplitWithoutSeparator(signature, '.');
  }

  /** Tokens with the same second piece decode identically, whatever the other pieces hold. */
  lemma DecodeDependsOnlyOnSegment(t1: string, t2: string, decode: Decoder)
    requires t1 != "" && t2 != ""
    requires ClaimsSegment(t1) == ClaimsSegment(t2)
    ensures DecodeToken(Some(t1), decode) == DecodeToken(Some(t2), decode)
  {
  }

  /** `isLoggedIn()`: claims are present and `exp > Math.floor(Date.now() / 1000)`. */
  function IsLoggedIn(store: TokenStore, decode: Decoder, nowMs: int): (r: bool)
    ensures r ==> DecodeToken(store, decode).Some?
  {
    match DecodeToken(store, decode)
    case None => false
    case Some(claims) => claims.exp > nowMs / 1000
  }

  /**
   * The expiry check in milliseconds: logged in exactly while `now` is
   * strictly before `exp` seconds, so the last logged-in instant is
   * `exp * 1000 - 1`.
   */
  lemma LoggedInIffBeforeExpiry(store: TokenStore, decode: Decoder, nowMs: int)
    ensures IsLoggedIn(store, decode, nowMs) <==>
      DecodeToken(store, decode).Some? && nowMs < DecodeToken(store, decode).value.exp * 1000
  {
    if DecodeToken(store, decode).Some? {
      var exp := DecodeToken(store, decode).value.exp;
      var q := nowMs / 1000;
      assert q * 1000 <= nowMs < q * 1000 + 1000;
      if exp > q {
        assert exp * 1000 >= (q + 1) * 1000;
      } else {
        assert exp * 1000 <= q * 1000;
      }
    }
  }

  /** What `getUserInfo()` returns: the given name and the role claim. */
  datatype UserInfo = UserInfo(name: string, role: string)

  /** `getUserInfo()`. */
  function GetUserInfo(store: TokenStore, decode: Decoder): (r: Option<UserInfo>)
    ensures r.None? <==> DecodeToken(store, decode).None?
    ensures r.Some? ==>
      r.value.name == DecodeToken(store, decode).value.givenName && r.value.role == DecodeToken(store, decode).value.role
  {
    match DecodeToken(store, decode)
    case None => None
    case Some(claims) => Some(UserInfo(claims.givenName, claims.role))
  }

  /** `logout()`. */
  function Logout(store: TokenStore): (r: TokenStore)
    ensures r.None?
  {
    None
  }

  /** After logout nobody is logged in and there is no user info, whatever the decoder and the clock. */
  lemma LogoutEndsSession(store: TokenStore, decode: Decoder, nowMs: int)
    ensures !IsLoggedIn(Logout(store), decode, nowMs)
    ensures GetUserInfo(Logout(store), decode).None?
  {
  }

  /** The login endpoint's answer: a transport error, or the response envelope. */
  datatype LoginReply = TransportError | Reply(success: bool, data: Option<seq<string>>)

  datatype LoginResult = LoginResult(ok: bool, store: TokenStore)

  /**
   * `login(...)` once the reply is in: true, with the first data element
   * stored untrimmed, exactly when the reply succeeded and that element is
   * not blank; otherwise false with the storage untouched. A transport error
   * is caught and becomes false.
   */
  function Login(store: TokenStore, reply: LoginReply): (r: LoginResult)
    ensures r.ok <==>
      reply.Reply? && reply.success && reply.data.Some? && |reply.data.value| > 0 && !IsBlank(reply.data.value[0])
    ensures r.ok ==> r.store == Some(reply.data.value[0])
    ensures !r.ok ==> r.store == store
  {
    match reply
    case TransportError => LoginResult(false, store)
    case Reply(success, data) =>
      if success && data.Some? && |data.value| > 0 then
        var token := data.value[0];
        TrimEmptyIffBlank(token);
        if token != "" && |Trim(token)| > 0 then LoginResult(true, Some(token))
        else LoginResult(false, store)
      else LoginResult(false, store)
  }

  /** After a successful login, the session decodes the payload piece of the token just stored. */
  lemma LoginThenDecode(store: TokenStore, header: string, payload: string, signature: string, decode: Decoder)
    requires '.' !in header && '.' !in payload && '.' !in signature
    ensures var token := header + "." + payload + "." + signature;
      var r := Login(store, Reply(true, Some([token])));
      r.ok && DecodeToken(r.store, decode) == decode(payload)
  {
    var token := header + "." + payload + "." + signature;
    assert token[|header|] == '.';
    assert !IsBlank(token);
    DecodeThreePartToken(header, payload, signature, decode);
  }

  /** Who the pages take to be logged in: what they read as `userInfo.id`, `name`, `surname` and `role`. */
  datatype PageUser = PageUser(id: Option<string>, name: string, surname: Option<string>, role: string)

  /** The pages' `!userInfo || !userInfo.id` guard: is there a user with a non-empty id? */
  predicate HasUserId(u: Option<PageUser>) {
    u.Some? && u.value.id.Some? && u.value.id.value != ""
  }

  /** What a page reads from `getUserInfo()` as written: there is no `id` and no `surname` field. */
  function AsWrittenPageUser(info: Option<UserInfo>): (r: Option<PageUser>)
    ensures r.Some? <==> info.Some?
    ensures r.Some? ==> r.value.id.None? && r.value.surname.None?
  {
    match info
    case None => None
    case Some(i) => Some(PageUser(None, i.name, None, i.role))
  }

  /** As written, no session whatsoever gives the pages a user id. */
  lemma AsWrittenSessionHasNoUserId(store: TokenStore, decode: Decoder)
    ensures !HasUserId(AsWrittenPageUser(GetUserInfo(store, decode)))
  {
  }

  /**
   * The identity the pages expect from the session (`{id, name, surname, role}`),
   * projected from the subject, given-name, family-name and role claims.
   */
  function CurrentIdentity(store: TokenStore, decode: Decoder): (r: Option<PageUser>)
    ensures r.None? <==> DecodeToken(store, decode).None?
    ensures r.Some? ==> var claims := DecodeToken(store, decode).value;
      r.value == PageUser(Some(claims.sub), claims.givenName, Some(claims.familyName), claims.role)
  {
    match DecodeToken(store, decode)
    case None => None
    case Some(claims) => Some(PageUser(Some(claims.sub), claims.givenName, Some(claims.familyName), claims.role))
  }

  /** With the intended projection, a page finds a user id exactly when the token decodes with a non-empty subject. */
  lemma IdentityHasUserIdIffSubject(store: TokenStore, decode: Decoder)
    ensures HasUserId(CurrentIdentity(store, decode)) <==>
      DecodeToken(store, decode).Some? && DecodeToken(store, decode).value.sub != ""
  {
  }

  /** The intended projection agrees with `getUserInfo()` on the fields both have. */
  lemma IdentityAgreesWithUserInfo(store: TokenStore, decode: Decoder)
    ensures CurrentIdentity(store, decode).Some? <==> GetUserInfo(store, decode).Some?
    ensures CurrentIdentity(store, decode).Some? ==>
      CurrentIdentity(store, decode).value.name == GetUserInfo(store, decode).value.name
      && CurrentIdentity(store, decode).value.role == GetUserInfo(store, decode).value.role
  {
  }
}
