/**
 * Registration, login, token refresh and the bearer-token check that guards
 * every other endpoint. Password hashing and JWT signing live in a security
 * module outside this model: hashing and verification are parameters, and a
 * token is represented by the claims it carries, with `decode` mapping a
 * token string to its claims (or to nothing when it is invalid or expired).
 */
module Auth {
  import opened Wrappers
  import opened Text
  import Decimal

  datatype User = User(id: nat, email: string, passwordHash: string, name: string, createdAt: int)

  /** The HTTP errors the handlers raise, with their details. */
  datatype AuthError =
    | EmailAlreadyRegistered        // 400 "Email already registered"
    | IncorrectEmailOrPassword      // 401
    | InvalidRefreshToken           // 401
    | NotAuthenticated              // 401, with WWW-Authenticate: Bearer
    | InvalidAuthorizationHeader    // 401
    | InvalidAuthenticationScheme   // 401
    | InvalidToken                  // 401
    | InvalidTokenPayload           // 401
    | UserNotFound                  // 401
    | MalformedSubject              // `int(sub)` raises: an unhandled server error

  function StatusCode(e: AuthError): (code: int)
    ensures code == 400 <==> e == EmailAlreadyRegistered
    ensures code == 500 <==> e == MalformedSubject
    ensures code == 400 || code == 500 || code == 401
  {
    match e
    case EmailAlreadyRegistered => 400
    case MalformedSubject => 500
    case _ => 401
  }

  /**
   * A token's claims: its type ("access" or "refresh"; "" when absent),
   * `sub`, and `email` (absent from refresh tokens).
   */
  datatype Claims = Claims(tokenType: string, sub: Option<string>, email: Option<string>)

  datatype TokenPair = TokenPair(access: Claims, refresh: Claims)

  /** The claims of the access token issued for `sub` and `email`. */
  function AccessClaims(sub: Option<string>, email: string): Claims {
    Claims("access", sub, Some(email))
  }

  /** The claims of the refresh token issued for `sub`: no email. */
  function RefreshClaims(sub: Option<string>): Claims {
    Claims("refresh", sub, None)
  }

  // ---------------------------------------------------------------------
  // The users table
  // ---------------------------------------------------------------------

  /** `select(User).where(User.email == email).first()`. */
  function FindByEmail(users: seq<User>, email: string): (r: Option<User>)
    ensures r.Some? <==> exists u :: u in users && u.email == email
    ensures r.Some? ==> r.value in users && r.value.email == email
  {
    if users == [] then None
    else if users[0].email == email then Some(users[0])
    else FindByEmail(users[1..], email)
  }

  /** `select(User).where(User.id == id).first()`. */
  function FindById(users: seq<User>, id: int): (r: Option<User>)
    ensures r.Some? <==> exists u :: u in users && u.id == id
    ensures r.Some? ==> r.value in users && r.value.id == id
  {
    if users == [] then None
    else if users[0].id == id then Some(users[0])
    else FindById(users[1..], id)
  }

  /** Rows get ids 1, 2, ... in insertion order, and emails are unique. */
  ghost predicate WellFormed(users: seq<User>) {
    && (forall i :: 0 <= i < |users| ==> users[i].id == i + 1)
    && (forall i, j :: 0 <= i < j < |users| ==> users[i].email != users[j].email)
  }

  class UserTable {
    var users: seq<User>

    ghost predicate Valid()
      reads this
    {
      WellFormed(users)
    }

    constructor ()
      ensures Valid() && users == []
    {
      users := [];
    }

    /**
     * `register`: an email already present is rejected with 400 and nothing
     * is stored; otherwise one user is appended with the next id and the
     * hashed password.
     */
    method Register(email: string, password: string, name: string, hash: string -> string, now: int)
      returns (r: Result<User, AuthError>)
      requires Valid()
      modifies this
      ensures Valid()
      ensures (exists u :: u in old(users) && u.email == email) ==>
                r == Err(EmailAlreadyRegistered) && users == old(users)
      ensures (forall u :: u in old(users) ==> u.email != email) ==>
                && r == Ok(User(|old(users)| + 1, email, hash(password), name, now))
                && users == old(users) + [r.value]
    {
      if FindByEmail(users, email).Some? {
        return Err(EmailAlreadyRegistered);
      }
      var user := User(|users| + 1, email, hash(password), name, now);
      users := users + [user];
      r := Ok(user);
    }
  }

  /** Registering a new email keeps the table well-formed. */
  lemma RegisterKeepsWellFormed(users: seq<User>, email: string, password: string, name: string, hash: string -> string, now: int)
    requires WellFormed(users) && FindByEmail(users, email).None?
    ensures WellFormed(users + [User(|users| + 1, email, hash(password), name, now)])
  {
  }

  // ---------------------------------------------------------------------
  // Login and refresh
  // ---------------------------------------------------------------------

  /**
   * `login`: the first user with the email, if the password verifies
   * against its hash, gets an access token with `sub` and `email` and a
   * refresh token with `sub` only.
   */
  function Login(users: seq<User>, email: string, password: string, verify: (string, string) -> bool)
    : (r: Result<TokenPair, AuthError>)
    ensures r.Err? ==> r.error == IncorrectEmailOrPassword
    ensures r.Ok? <==> (exists u :: u in users && u.email == email)
                       && verify(password, FindByEmail(users, email).value.passwordHash)
    ensures r.Ok? ==>
              var sub := Some(Decimal.NatToString(FindByEmail(users, email).value.id));
              && r.value.access == Claims("access", sub, Some(email))
              && r.value.refresh == Claims("refresh", sub, None)
  {
    match FindByEmail(users, email)
    case None => Err(IncorrectEmailOrPassword)
    case Some(u) =>
      if !verify(password, u.passwordHash) then Err(IncorrectEmailOrPassword)
      else
        var sub := Some(Decimal.NatToString(u.id));
        Ok(TokenPair(AccessClaims(sub, u.email), RefreshClaims(sub)))
  }

  /**
   * A missing user and a wrong password fail alike, and a login succeeds
   * exactly when a user with the email exists and its hash verifies.
   */
  lemma LoginFailsAlike(users: seq<User>, email: string, password: string, verify: (string, string) -> bool)
    ensures Login(users, email, password, verify).Err? ==>
              Login(users, email, password, verify).error == IncorrectEmailOrPassword
    ensures Login(users, email, password, verify).Ok? <==>
              exists u :: u in users && u.email == email && u == FindByEmail(users, email).value && verify(password, u.passwordHash)
  {
  }

  /** A user just registered can log in with the password it registered with. */
  lemma LoginAfterRegister(users: seq<User>, email: string, password: string, name: string,
                           hash: string -> string, verify: (string, string) -> bool, now: int)
    requires WellFormed(users) && FindByEmail(users, email).None?
    requires verify(password, hash(password))
    ensures var sub := Some(Decimal.NatToString(|users| + 1));
            Login(users + [User(|users| + 1, email, hash(password), name, now)], email, password, verify)
              == Ok(TokenPair(AccessClaims(sub, email), RefreshClaims(sub)))
  {
    var u := User(|users| + 1, email, hash(password), name, now);
    FindByEmailAppend(users, u);
  }

  lemma {:induction false} FindByEmailAppend(users: seq<User>, u: User)
    requires FindByEmail(users, u.email).None?
    ensures FindByEmail(users + [u], u.email) == Some(u)
  {
    if users != [] {
      assert (users + [u])[1..] == users[1..] + [u];
      FindByEmailAppend(users[1..], u);
    }
  }

  /**
   * `refresh_token`: only a payload of type "refresh" is accepted; the new
   * access token carries the payload's `sub` and its email, "" when absent.
   */
  function Refresh(payload: Option<Claims>): (r: Result<TokenPair, AuthError>)
    ensures r.Err? <==> payload.None? || payload.value.tokenType != "refresh"
    ensures r.Ok? ==> r.value.access == AccessClaims(payload.value.sub, payload.value.email.GetOr(""))
                      && r.value.refresh == RefreshClaims(payload.value.sub)
  {
    if payload.None? || payload.value.tokenType != "refresh" then Err(InvalidRefreshToken)
    else
      var p := payload.value;
      Ok(TokenPair(AccessClaims(p.sub, p.email.GetOr("")), RefreshClaims(p.sub)))
  }

  /**
   * Refresh tokens carry no email, so the access token a refresh issues
   * has email "", whatever email the login used; refreshing again is
   * stable.
   */
  lemma RefreshDropsEmail(users: seq<User>, email: string, password: string, verify: (string, string) -> bool)
    requires Login(users, email, password, verify).Ok?
    ensures var pair := Login(users, email, password, verify).value;
            && Refresh(Some(pair.refresh)) == Ok(TokenPair(AccessClaims(pair.refresh.sub, ""), pair.refresh))
            && Refresh(Some(Refresh(Some(pair.refresh)).value.refresh)) == Refresh(Some(pair.refresh))
  {
  }

  /** An access token is never accepted as a refresh token. */
  lemma AccessTokenCannotRefresh(sub: Option<string>, email: string)
    ensures Refresh(Some(AccessClaims(sub, email))) == Err(InvalidRefreshToken)
  {
  }

  // ---------------------------------------------------------------------
  // The bearer-token check
  // ---------------------------------------------------------------------

  /** The header is present, non-empty and splits into exactly two words. */
  predicate TwoWords(header: Option<string>) {
    header.Some? && header.value != "" && |Words(header.value)| == 2
  }

  /** A two-word header whose scheme is "bearer" in any case. */
  predicate Bearer(header: Option<string>) {
    TwoWords(header) && Lower(Words(header.value)[0]) == "bearer"
  }

  /** A bearer header whose token decodes to a payload of type "access". */
  predicate AccessToken(header: Option<string>, decode: string -> Option<Claims>) {
    && Bearer(header)
    && decode(Words(header.value)[1]).Some?
    && decode(Words(header.value)[1]).value.tokenType == "access"
  }

  /** An access token whose payload carries a non-empty `sub`. */
  predicate HasSubject(header: Option<string>, decode: string -> Option<Claims>) {
    && AccessToken(header, decode)
    && decode(Words(header.value)[1]).value.sub.Some?
    && decode(Words(header.value)[1]).value.sub.value != ""
  }

  /** `int(sub)` of the token's subject, `None` when it raises. */
  function SubjectId(header: Option<string>, decode: string -> Option<Claims>): Option<int>
    requires HasSubject(header, decode)
  {
    Decimal.ParseInt(decode(Words(header.value)[1]).value.sub.value)
  }

  /**
   * `get_current_user_dependency`: a missing or empty header is "Not
   * authenticated"; a header that is not exactly two whitespace-separated
   * words is an invalid header; a scheme other than "bearer" (any case) is
   * an invalid scheme; a token that does not decode to an access payload is
   * invalid; a payload without a non-empty `sub` is an invalid payload; a
   * `sub` that `int` rejects is a server error; and a `sub` naming no user
   * is "User not found".
   */
  function Authenticate(users: seq<User>, header: Option<string>, decode: string -> Option<Claims>)
    : (r: Result<User, AuthError>)
    ensures r.Ok? ==> r.value in users
    ensures header.None? || header == Some("") ==> r == Err(NotAuthenticated)
    ensures header.Some? && header.value != "" && |Words(header.value)| != 2 ==> r == Err(InvalidAuthorizationHeader)
    ensures TwoWords(header) && !Bearer(header) ==> r == Err(InvalidAuthenticationScheme)
    ensures Bearer(header) && !AccessToken(header, decode) ==> r == Err(InvalidToken)
    ensures AccessToken(header, decode) && !HasSubject(header, decode) ==> r == Err(InvalidTokenPayload)
    ensures HasSubject(header, decode) && SubjectId(header, decode).None? ==> r == Err(MalformedSubject)
    ensures HasSubject(header, decode) && SubjectId(header, decode).Some? ==>
              r == if FindById(users, SubjectId(header, decode).value).Some?
                   then Ok(FindById(users, SubjectId(header, decode).value).value)
                   else Err(UserNotFound)
    ensures r.Ok? ==>
              && |Words(header.value)| == 2
              && Lower(Words(header.value)[0]) == "bearer"
              && decode(Words(header.value)[1]).Some?
              && decode(Words(header.value)[1]).value.tokenType == "access"
              && decode(Words(header.value)[1]).value.sub.Some?
              && Decimal.ParseInt(decode(Words(header.value)[1]).value.sub.value) == Some(r.value.id as int)
  {
    if header.None? || header.value == "" then Err(NotAuthenticated)
    else
      var words := Words(header.value);
      if |words| != 2 then Err(InvalidAuthorizationHeader)
      else if Lower(words[0]) != "bearer" then Err(InvalidAuthenticationScheme)
      else
        var payload := decode(words[1]);
        if payload.None? || payload.value.tokenType != "access" then Err(InvalidToken)
        else if payload.value.sub.None? || payload.value.sub.value == "" then Err(InvalidTokenPayload)
        else match Decimal.ParseInt(payload.value.sub.value)
          case None => Err(MalformedSubject)
          case Some(id) =>
            match FindById(users, id)
            case None => Err(UserNotFound)
            case Some(u) => Ok(u)
  }

  /**
   * The round trip: the access token a login issues, sent as
   * "Bearer <token>" (the scheme in any case), authenticates the user who
   * logged in.
   */
  lemma LoginTokenAuthenticates(users: seq<User>, email: string, password: string,
                                verify: (string, string) -> bool, scheme: string, token: string,
                                decode: string -> Option<Claims>)
    requires WellFormed(users)
    requires Login(users, email, password, verify).Ok?
    requires Lower(scheme) == "bearer" && NoSpace(scheme)
    requires |token| >= 1 && NoSpace(token)
    requires decode(token) == Some(Login(users, email, password, verify).value.access)
    ensures Authenticate(users, Some(scheme + " " + token), decode) == Ok(FindByEmail(users, email).value)
  {
    var u := FindByEmail(users, email).value;
    var i :| 0 <= i < |users| && users[i] == u;
    FindByIdOfWellFormed(users, i);
    assert decode(token) == Some(AccessClaims(Some(Decimal.NatToString(u.id)), u.email));
    WordsOfPair(scheme, token);
    AuthenticateAccepts(users, scheme + " " + token, decode, u.id, u);
  }

  /** Each check of the dependency passes, so it returns the user the token names. */
  lemma AuthenticateAccepts(users: seq<User>, header: string, decode: string -> Option<Claims>, id: nat, u: User)
    requires |Words(header)| == 2 && Lower(Words(header)[0]) == "bearer"
    requires decode(Words(header)[1]) == Some(AccessClaims(Some(Decimal.NatToString(id)), u.email))
    requires FindById(users, id) == Some(u)
    ensures Authenticate(users, Some(header), decode) == Ok(u)
  {
    Decimal.ParseIntToString(id);
    assert Decimal.IntToString(id) == Decimal.NatToString(id);
  }

  lemma FindByIdOfWellFormed(users: seq<User>, i: int)
    requires WellFormed(users) && 0 <= i < |users|
    ensures FindById(users, users[i].id) == Some(users[i])
  {
    FindByIdFrom(users, 0, i);
    assert users[0..] == users;
  }

  lemma {:induction false} FindByIdFrom(users: seq<User>, start: nat, i: int)
    requires start <= i < |users|
    requires forall k :: 0 <= k < |users| ==> users[k].id == k + 1
    ensures FindById(users[start..], i + 1) == Some(users[i])
    decreases i - start
  {
    if start < i {
      assert users[start..][1..] == users[start + 1..];
      FindByIdFrom(users, start + 1, i);
    }
  }

  /** A header with a scheme other than "bearer" is rejected as such. */
  lemma WrongSchemeRejected(users: seq<User>, scheme: string, token: string, decode: string -> Option<Claims>)
    requires |scheme| >= 1 && NoSpace(scheme) && |token| >= 1 && NoSpace(token)
    requires Lower(scheme) != "bearer"
    ensures Authenticate(users, Some(scheme + " " + token), decode) == Err(InvalidAuthenticationScheme)
  {
    WordsOfPair(scheme, token);
  }

  /** A refresh token presented as a bearer token is rejected. */
  lemma RefreshTokenIsNotAccess(users: seq<User>, scheme: string, token: string, sub: Option<string>,
                                 decode: string -> Option<Claims>)
    requires Lower(scheme) == "bearer" && NoSpace(scheme)
    requires |token| >= 1 && NoSpace(token) && decode(token) == Some(RefreshClaims(sub))
    ensures Authenticate(users, Some(scheme + " " + token), decode) == Err(InvalidToken)
  {
    WordsOfPair(scheme, token);
  }
}
