/**
 * The authentication side of the server: the bearer-token middleware, the
 * seeding of the first administrator, registration and login over the
 * user collection. Password hashing, hash comparison, token signing and
 * token verification are foreign code and enter as parameters.
 */
module Auth {
  import opened Results
  import opened Seqs
  import opened Text

  /** `'admin' | 'user'`. */
  datatype Role = Admin | Member

  /** A stored user; `passwordHash` is the bcrypt hash, never the password. */
  datatype User = User(id: string, name: string, email: string, passwordHash: string, role: Role, createdAt: string)

  /** The user object a response carries: it has no password field. */
  datatype UserSummary = UserSummary(id: string, name: string, email: string, role: Role)

  /** The payload signed into a session token. */
  datatype Claims = Claims(id: string, email: string, name: string)

  /** The body of a successful login. */
  datatype Session = Session(token: string, user: UserSummary)

  datatype AuthError = InvalidCredentials | DuplicateUser
  {
    function Status(): nat
    {
      match this
      case InvalidCredentials => 401
      case DuplicateUser => 400
    }

    function Message(): string
    {
      match this
      case InvalidCredentials => "Invalid credentials"
      case DuplicateUser => "User already exists"
    }
  }

  /** What the middleware decides: no token (401), a rejected token (403), or the verified claims. */
  datatype AuthOutcome = Missing | Rejected | Authorized(claims: Claims)
  {
    function Status(): nat
    {
      match this
      case Missing => 401
      case Rejected => 403
      case Authorized(_) => 200
    }
  }

  function Summary(u: User): UserSummary
  {
    UserSummary(u.id, u.name, u.email, u.role)
  }

  /**
   * `authHeader && authHeader.split(' ')[1]`, kept only when it is a
   * non-empty string (an empty or absent second part is falsy).
   */
  function BearerToken(header: Option<string>): (t: Option<string>)
    ensures header.None? ==> t.None?
    ensures t.Some? ==> t.value != "" && ' ' !in t.value
  {
    match header
    case None => None
    case Some(h) =>
      var parts := SplitOn(h, ' ');
      if |parts| >= 2 && parts[1] != "" then Some(parts[1]) else None
  }

  /** The token is the text between the first space and the next one (or the end). */
  lemma BearerTokenOf(scheme: string, token: string, rest: Option<string>)
    requires ' ' !in scheme && ' ' !in token && token != ""
    ensures BearerToken(Some(scheme + " " + token + match rest case None => "" case Some(r) => " " + r)) == Some(token)
  {
    match rest
    case None =>
      SplitWithoutSeparator(token, ' ');
      SplitAtFirstSeparator(scheme, ' ', token);
      assert scheme + " " + token + "" == scheme + [' '] + token;
    case Some(r) =>
      SplitAtFirstSeparator(token, ' ', r);
      SplitAtFirstSeparator(scheme, ' ', token + " " + r);
      assert scheme + " " + token + (" " + r) == scheme + [' '] + (token + [' '] + r);
  }

  /**
   * Conversely, a token comes only from a header made of a space-free
   * scheme, one space, the token, and then nothing or a space.
   */
  lemma BearerTokenParts(h: string) returns (scheme: string, rest: string)
    requires BearerToken(Some(h)).Some?
    ensures ' ' !in scheme
    ensures h == scheme + " " + BearerToken(Some(h)).value + rest
    ensures rest == "" || rest[0] == ' '
  {
    var parts := SplitOn(h, ' ');
    var t := parts[1];
    scheme := parts[0];
    assert h == scheme + " " + Join(parts[1..], " ");
    if |parts| == 2 {
      rest := "";
      assert Join(parts[1..], " ") == t;
    } else {
      rest := " " + Join(parts[2..], " ");
      assert parts[1..][1..] == parts[2..];
      assert Join(parts[1..], " ") == t + rest;
    }
    assert h == (scheme + " ") + (t + rest);
  }

  /** An empty second part (`"Bearer "`, `"Bearer  tok"`) is falsy: no token. */
  lemma EmptySecondPartNoToken(scheme: string, rest: string)
    requires ' ' !in scheme && (rest == "" || rest[0] == ' ')
    ensures BearerToken(Some(scheme + " " + rest)) == None
  {
    SplitAtFirstSeparator(scheme, ' ', rest);
    assert scheme + " " + rest == scheme + [' '] + rest;
    if rest == "" {
      SplitWithoutSeparator(rest, ' ');
    } else {
      SplitAtFirstSeparator("", ' ', rest[1..]);
      assert "" + [' '] + rest[1..] == rest;
    }
  }

  /** A header without a space carries no token. */
  lemma NoSpaceNoToken(h: string)
    requires ' ' !in h
    ensures BearerToken(Some(h)) == None
  {
    SplitWithoutSeparator(h, ' ');
  }

  /**
   * `authenticateToken`: without a token the answer is 401 whatever the
   * verifier would say (it is never asked); a token the verifier rejects
   * gives 403; an accepted one passes its claims on.
   */
  function Authenticate(header: Option<string>, verify: string -> Option<Claims>): (o: AuthOutcome)
    ensures BearerToken(header).None? ==> o == Missing
    ensures BearerToken(header).Some? && verify(BearerToken(header).value).None? ==> o == Rejected
    ensures BearerToken(header).Some? && verify(BearerToken(header).value).Some? ==>
      o == Authorized(verify(BearerToken(header).value).value)
    ensures o.Status() == 401 <==> BearerToken(header).None?
    ensures o.Status() == 403 <==> BearerToken(header).Some? && verify(BearerToken(header).value).None?
  {
    match BearerToken(header)
    case None => Missing
    case Some(token) =>
      match verify(token)
      case None => Rejected
      case Some(c) => Authorized(c)
  }

  /** The test `u => u.email === email`. */
  function EmailIs(email: string): User -> bool
  {
    (u: User) => u.email == email
  }

  /** `users.find(u => u.email === email)`, as the position of that user. */
  function FindByEmail(users: seq<User>, email: string): (r: Option<nat>)
    ensures r.Some? ==> r.value < |users| && users[r.value].email == email
    ensures r.Some? ==> forall j :: 0 <= j < r.value ==> users[j].email != email
    ensures r.None? <==> forall j :: 0 <= j < |users| ==> users[j].email != email
  {
    FirstIndex(users, EmailIs(email))
  }

  /** No two users share an email. */
  predicate UniqueEmails(users: seq<User>)
  {
    forall i, j :: 0 <= i < j < |users| ==> users[i].email != users[j].email
  }

  const DefaultPassword := "admin123"

  /** The administrator seeded into an empty user collection, with `hash` as its password hash. */
  function DefaultAdmin(hash: string, now: string): User
  {
    User("1", "Administrator", "admin@company.com", hash, Admin, now)
  }

  /** The user collection, as the handlers read and write it. */
  class UserStore {
    var users: seq<User>

    constructor (stored: seq<User>)
      ensures users == stored
    {
      users := stored;
    }

    /** `initializeDefaultUser`: seeds one administrator only when there is no user at all. */
    method InitializeDefaultUser(hash: string -> string, now: string)
      modifies this
      ensures old(users) == [] ==> users == [DefaultAdmin(hash(DefaultPassword), now)]
      ensures old(users) != [] ==> users == old(users)
      ensures old(UniqueEmails(users)) ==> UniqueEmails(users)
    {
      if |users| == 0 {
        users := [DefaultAdmin(hash(DefaultPassword), now)];
      }
    }

    /**
     * POST /api/auth/register (after the middleware): refuses a known email,
     * otherwise appends one user with role `user` and answers with its
     * summary.
     */
    method Register(name: string, email: string, hashedPassword: string, generatedId: string, now: string)
      returns (res: Result<UserSummary, AuthError>)
      modifies this
      ensures FindByEmail(old(users), email).Some? ==> res == Failure(DuplicateUser) && users == old(users)
      ensures FindByEmail(old(users), email).None? ==>
        var u := User(generatedId, name, email, hashedPassword, Member, now);
        users == old(users) + [u] && res == Success(Summary(u))
      ensures old(UniqueEmails(users)) ==> UniqueEmails(users)
      ensures res.Failure? ==> res.error.Status() == 400 && res.error.Message() == "User already exists"
    {
      if FindByEmail(users, email).Some? {
        res := Failure(DuplicateUser);
      } else {
        var u := User(generatedId, name, email, hashedPassword, Member, now);
        users := users + [u];
        res := Success(Summary(u));
      }
    }

    /**
     * POST /api/auth/login: the first user with exactly this email, if the
     * password matches its hash, gets a token signed over its id, email and
     * name; an unknown email and a wrong password get the same answer.
     */
    method Login(email: string, password: string, passwordMatches: (string, string) -> bool, sign: Claims -> string)
      returns (res: Result<Session, AuthError>)
      ensures res.Failure? ==> res.error == InvalidCredentials
      ensures res.Failure? ==> res.error.Status() == 401 && res.error.Message() == "Invalid credentials"
      ensures res.Success? <==>
        FindByEmail(users, email).Some? && passwordMatches(password, users[FindByEmail(users, email).value].passwordHash)
      ensures res.Success? ==>
        var u := users[FindByEmail(users, email).value];
        res.value == Session(sign(Claims(u.id, u.email, u.name)), Summary(u))
    {
      var found := FindByEmail(users, email);
      if found.None? {
        return Failure(InvalidCredentials);
      }
      var u := users[found.value];
      if !passwordMatches(password, u.passwordHash) {
        return Failure(InvalidCredentials);
      }
      res := Success(Session(sign(Claims(u.id, u.email, u.name)), Summary(u)));
    }
  }
}
