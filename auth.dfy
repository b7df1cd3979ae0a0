/** The authentication service: registration, login and deletion of users,
    orchestrated over a user repository, a password hasher and a token issuer.

    Each operation is given twice: as a function of the repository's state
    (RegisterRun, LoginRun, DeleteUserRun) that says what the call returns,
    what the repository holds afterwards and which collaborator calls were
    made in which order; and as a method of the Service class, which performs
    the steps on the repository object and is proved to agree with the
    function. The properties are proved about the functions, in
    AuthProperties. */
module Auth {
  import opened Basics
  import opened Strings
  import opened Domain

  /** The errors the service returns: its own sentinels, and a collaborator's
      error value handed on unchanged. */
  datatype Error =
    | ErrEmailTaken
    | ErrInvalidLogin
    | ErrMissingFields
    | ErrInvalidEmail
    | Passed(fault: Fault)

  /** PasswordHasher: Hash(plain) and Compare(hash, plain). */
  datatype Hasher = Hasher(
    hash: string -> Result<string, Fault>,
    compare: (string, string) -> Outcome<Fault>)

  /** TokenIssuer: Issue(subject, ttl, claims). */
  datatype TokenIssuer = TokenIssuer(
    issue: (string, Duration, map<string, Claim>) -> Result<string, Fault>)

  /** The text form of ids: UUID.String and uuid.Parse. */
  datatype UuidText = UuidText(
    format: Uuid -> string,
    parse: string -> Result<Uuid, Fault>)

  datatype RegisterInput = RegisterInput(firstName: string, lastName: string, email: string, password: string)

  /** The public view returned by Register: it has no password field. */
  datatype RegisterOutput = RegisterOutput(id: Uuid, email: string, firstName: string, lastName: string)

  datatype LoginInput = LoginInput(email: string, password: string)

  datatype UserInfo = UserInfo(id: Uuid, email: string, firstName: string, lastName: string)

  datatype LoginOutput = LoginOutput(accessToken: string, user: UserInfo)

  /** A call from the service to one of its collaborators. */
  datatype Call =
    | FindByEmail(email: string)
    | CreateUser(user: User)
    | Delete(id: Uuid)
    | Hash(plain: string)
    | Compare(hash: string, plain: string)
    | Issue(subject: string, ttl: Duration, claims: map<string, Claim>)

  /** What one call of an operation does: its result, the repository state it
      leaves, and the collaborator calls it made, in order. */
  datatype Run<T> = Run(result: Result<T, Error>, store: Store, calls: seq<Call>)

  /** Login tokens live for 24 hours. */
  const TokenTtl: Duration := 24 * Hour

  /** Register's validation: email, trimmed first name or password empty. */
  predicate MissingFields(input: RegisterInput)
  {
    NormalizeEmail(input.email) == "" || TrimSpace(input.firstName) == "" || input.password == ""
  }

  function RegisterView(u: User): RegisterOutput
  {
    RegisterOutput(u.id, u.email, u.firstName, u.lastName)
  }

  function InfoOf(u: User): UserInfo
  {
    UserInfo(u.id, u.email, u.firstName, u.lastName)
  }

  /** The extra claims Login puts in a token. */
  function UserClaims(u: User): map<string, Claim>
  {
    map["email" := Text(u.email), "first_name" := Text(u.firstName), "last_name" := Text(u.lastName)]
  }

  /** Service.Register, with `id` the fresh uuid.New() and `now` the time.Now(). */
  function RegisterRun(st: Store, hasher: Hasher, input: RegisterInput, id: Uuid, now: Time): Run<RegisterOutput>
  {
    var email := NormalizeEmail(input.email);
    var firstName := TrimSpace(input.firstName);
    var lastName := TrimSpace(input.lastName);
    if email == "" || firstName == "" || input.password == "" then
      Run(Failure(ErrMissingFields), st, [])
    else
      match Find(st, email)
      case Failure(f) => Run(Failure(Passed(f)), st, [FindByEmail(email)])
      case Success(Some(_)) => Run(Failure(ErrEmailTaken), st, [FindByEmail(email)])
      case Success(None) =>
        match hasher.hash(input.password)
        case Failure(f) => Run(Failure(Passed(f)), st, [FindByEmail(email), Hash(input.password)])
        case Success(digest) =>
          var user := User(id, email, digest, firstName, lastName, now, now);
          var (outcome, st') := Create(st, user);
          var creating := [FindByEmail(email), Hash(input.password), CreateUser(user)];
          match outcome
          case Fail(f) => Run(Failure(Passed(f)), st', creating)
          case Pass => Run(Success(RegisterView(user)), st', creating)
  }

  /** Service.Login. */
  function LoginRun(st: Store, hasher: Hasher, issuer: TokenIssuer, ids: UuidText, input: LoginInput)
    : Run<LoginOutput>
  {
    var email := NormalizeEmail(input.email);
    match Find(st, email)
    case Failure(f) => Run(Failure(Passed(f)), st, [FindByEmail(email)])
    case Success(None) => Run(Failure(ErrInvalidLogin), st, [FindByEmail(email)])
    case Success(Some(user)) =>
      var compare := Compare(user.passwordHash, input.password);
      if hasher.compare(user.passwordHash, input.password).Fail? then
        Run(Failure(ErrInvalidLogin), st, [FindByEmail(email), compare])
      else
        var subject := ids.format(user.id);
        var issuing := [FindByEmail(email), compare, Issue(subject, TokenTtl, UserClaims(user))];
        match issuer.issue(subject, TokenTtl, UserClaims(user))
        case Failure(f) => Run(Failure(Passed(f)), st, issuing)
        case Success(token) => Run(Success(LoginOutput(token, InfoOf(user))), st, issuing)
  }

  /** Service.DeleteUser. */
  function DeleteUserRun(st: Store, ids: UuidText, userId: string): Run<()>
  {
    match ids.parse(userId)
    case Failure(f) => Run(Failure(Passed(f)), st, [])
    case Success(uid) =>
      var (outcome, st') := Remove(st, uid);
      match outcome
      case Fail(f) => Run(Failure(Passed(f)), st', [Delete(uid)])
      case Pass => Run(Success(()), st', [Delete(uid)])
  }

  /** Service: its collaborators, and a ghost log of the calls it has made to
      them. */
  class Service {
    const repo: UserRepository
    const hasher: Hasher
    const issuer: TokenIssuer
    const ids: UuidText
    ghost var calls: seq<Call>

    ghost predicate Valid()
      reads this, repo
    {
      repo.Valid()
    }

    /** NewService */
    constructor (repo: UserRepository, hasher: Hasher, issuer: TokenIssuer, ids: UuidText)
      requires repo.Valid()
      ensures Valid()
      ensures this.repo == repo && this.hasher == hasher && this.issuer == issuer && this.ids == ids
      ensures calls == []
    {
      this.repo := repo;
      this.hasher := hasher;
      this.issuer := issuer;
      this.ids := ids;
      calls := [];
    }

    method Register(input: RegisterInput, id: Uuid, now: Time) returns (r: Result<RegisterOutput, Error>)
      requires Valid()
      modifies this, repo
      ensures Valid()
      ensures var run := RegisterRun(old(repo.State()), hasher, input, id, now);
              r == run.result && repo.State() == run.store && calls == old(calls) + run.calls
    {
      var email := NormalizeEmail(input.email);
      var firstName := TrimSpace(input.firstName);
      var lastName := TrimSpace(input.lastName);
      if email == "" || firstName == "" || input.password == "" {
        return Failure(ErrMissingFields);
      }

      calls := calls + [FindByEmail(email)];
      var existing := repo.FindByEmail(email);
      if existing.Failure? {
        return Failure(Passed(existing.error));
      }
      if existing.value.Some? {
        return Failure(ErrEmailTaken);
      }

      calls := calls + [Hash(input.password)];
      var hash := hasher.hash(input.password);
      if hash.Failure? {
        return Failure(Passed(hash.error));
      }

      var user := User(id, email, hash.value, firstName, lastName, now, now);
      calls := calls + [CreateUser(user)];
      var created := repo.CreateUser(user);
      if created.Fail? {
        return Failure(Passed(created.error));
      }
      return Success(RegisterView(user));
    }

    method Login(input: LoginInput) returns (r: Result<LoginOutput, Error>)
      requires Valid()
      modifies this
      ensures Valid() && unchanged(repo)
      ensures var run := LoginRun(repo.State(), hasher, issuer, ids, input);
              r == run.result && calls == old(calls) + run.calls
    {
      var email := NormalizeEmail(input.email);

      calls := calls + [FindByEmail(email)];
      var found := repo.FindByEmail(email);
      if found.Failure? {
        return Failure(Passed(found.error));
      }
      if found.value.None? {
        return Failure(ErrInvalidLogin);
      }
      var user := found.value.value;

      calls := calls + [Compare(user.passwordHash, input.password)];
      if hasher.compare(user.passwordHash, input.password).Fail? {
        return Failure(ErrInvalidLogin);
      }

      var subject := ids.format(user.id);
      calls := calls + [Issue(subject, TokenTtl, UserClaims(user))];
      var token := issuer.issue(subject, TokenTtl, UserClaims(user));
      if token.Failure? {
        return Failure(Passed(token.error));
      }
      return Success(LoginOutput(token.value, InfoOf(user)));
    }

    method DeleteUser(userId: string) returns (r: Result<(), Error>)
      requires Valid()
      modifies this, repo
      ensures Valid()
      ensures var run := DeleteUserRun(old(repo.State()), ids, userId);
              r == run.result && repo.State() == run.store && calls == old(calls) + run.calls
    {
      var uid := ids.parse(userId);
      if uid.Failure? {
        return Failure(Passed(uid.error));
      }
      calls := calls + [Delete(uid.value)];
      var deleted := repo.Delete(uid.value);
      if deleted.Fail? {
        return Failure(Passed(deleted.error));
      }
      return Success(());
    }
  }
}
