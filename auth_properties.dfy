/** What the authentication service guarantees, proved about RegisterRun,
    LoginRun and DeleteUserRun (and so, through their contracts, about the
    Service methods). */
module AuthProperties {
  import opened Basics
  import opened Strings
  import opened Domain
  import opened Auth
  import Jwt

  /** A call that changes the repository. */
  predicate IsWrite(c: Call)
  {
    c.CreateUser? || c.Delete?
  }

  /** The number of repository writes in a log. */
  function Writes(calls: seq<Call>): nat
  {
    if calls == [] then 0 else (if IsWrite(calls[0]) then 1 else 0) + Writes(calls[1..])
  }

  /** Writes of the logs the operations produce, which have at most three calls. */
  lemma WritesOfShortLogs(a: Call, b: Call, c: Call)
    ensures Writes([]) == 0
    ensures Writes([a]) == (if IsWrite(a) then 1 else 0)
    ensures Writes([a, b]) == (if IsWrite(a) then 1 else 0) + (if IsWrite(b) then 1 else 0)
    ensures Writes([a, b, c]) ==
      (if IsWrite(a) then 1 else 0) + (if IsWrite(b) then 1 else 0) + (if IsWrite(c) then 1 else 0)
  {
    assert [a][1..] == [];
    assert [b][1..] == [];
    assert [c][1..] == [];
    assert [a, b][1..] == [b];
    assert [b, c][1..] == [c];
    assert [a, b, c][1..] == [b, c];
    assert Writes([c]) == (if IsWrite(c) then 1 else 0) + Writes([]);
    assert Writes([b, c]) == (if IsWrite(b) then 1 else 0) + Writes([c]);
  }

  /** A hasher whose Compare accepts every hash it made for that password. */
  ghost predicate Sound(hasher: Hasher)
  {
    forall p :: hasher.hash(p).Success? ==> hasher.compare(hasher.hash(p).value, p) == Pass
  }

  /** An id codec whose parser reads back every id it formats. */
  ghost predicate RoundTrips(ids: UuidText)
  {
    forall u :: ids.parse(ids.format(u)) == Success(u)
  }

  // ----- Register -----

  /** Register stores and returns the trimmed names and the normalised email,
      and that email is already in normal form: no ASCII capital, no white
      space at either end. */
  lemma RegisterNormalises(st: Store, hasher: Hasher, input: RegisterInput, id: Uuid, now: Time)
    ensures var run := RegisterRun(st, hasher, input, id, now);
      run.result.Success? ==>
        var out := run.result.value;
        && out.email == NormalizeEmail(input.email)
        && out.firstName == TrimSpace(input.firstName)
        && out.lastName == TrimSpace(input.lastName)
        && out.email in run.store.users
        && RegisterView(run.store.users[out.email]) == out
        && NormalizeEmail(out.email) == out.email
        && (forall i :: 0 <= i < |out.email| ==> !IsUpper(out.email[i]))
        && !IsSpace(out.email[0]) && !IsSpace(out.email[|out.email| - 1])
  {
    NormalizeEmailIdempotent(input.email);
    TrimSpaceCutsSpace(ToLower(input.email));
  }

  /** Register fails with ErrMissingFields exactly when the normalised email,
      the trimmed first name or the password is empty, and then it has called
      neither the repository nor the hasher. */
  lemma RegisterRejectsMissingFields(st: Store, hasher: Hasher, input: RegisterInput, id: Uuid, now: Time)
    ensures var run := RegisterRun(st, hasher, input, id, now);
      && (run.result == Failure(ErrMissingFields) <==> MissingFields(input))
      && (MissingFields(input) ==> run.calls == [] && run.store == st)
  {
  }

  /** Register fails with ErrEmailTaken exactly when the lookup finds a user
      under the normalised email; then it made that lookup only: no hash, no
      insert. */
  lemma RegisterRejectsTakenEmail(st: Store, hasher: Hasher, input: RegisterInput, id: Uuid, now: Time)
    ensures var run := RegisterRun(st, hasher, input, id, now);
      var email := NormalizeEmail(input.email);
      && (run.result == Failure(ErrEmailTaken) <==>
            !MissingFields(input) && Find(st, email).Success? && Find(st, email).value.Some?)
      && (run.result == Failure(ErrEmailTaken) ==> run.calls == [FindByEmail(email)] && run.store == st)
  {
  }

  /** A lookup, hash or insert error is returned as it is, and the calls stop
      at the step that failed. An insert error is not turned into
      ErrEmailTaken. */
  lemma RegisterPassesErrorsThrough(st: Store, hasher: Hasher, input: RegisterInput, id: Uuid, now: Time)
    requires !MissingFields(input)
    ensures var run := RegisterRun(st, hasher, input, id, now);
      var email := NormalizeEmail(input.email);
      && (Find(st, email).Failure? ==>
            run.result == Failure(Passed(Find(st, email).error)) && run.calls == [FindByEmail(email)])
      && (Find(st, email) == Success(None) && hasher.hash(input.password).Failure? ==>
            && run.result == Failure(Passed(hasher.hash(input.password).error))
            && run.calls == [FindByEmail(email), Hash(input.password)])
      && (Find(st, email) == Success(None) && hasher.hash(input.password).Success? ==>
            var user := User(id, email, hasher.hash(input.password).value,
                             TrimSpace(input.firstName), TrimSpace(input.lastName), now, now);
            Create(st, user).0.Fail? ==>
              && run.result == Failure(Passed(Create(st, user).0.error))
              && run.calls == [FindByEmail(email), Hash(input.password), CreateUser(user)])
  {
  }

  /** No failed registration leaves a trace in the repository. */
  lemma RegisterNoWriteOnFailure(st: Store, hasher: Hasher, input: RegisterInput, id: Uuid, now: Time)
    ensures var run := RegisterRun(st, hasher, input, id, now);
      run.result.Failure? ==> run.store == st
  {
  }

  /** A successful registration looked the email up, hashed the password and
      inserted exactly one user: the new id, the normalised email, the
      hasher's digest of the password, the trimmed names, and equal creation
      and update times. The result is that user's public view. */
  lemma RegisterSuccess(st: Store, hasher: Hasher, input: RegisterInput, id: Uuid, now: Time)
    ensures var run := RegisterRun(st, hasher, input, id, now);
      run.result.Success? ==>
        var email := NormalizeEmail(input.email);
        && hasher.hash(input.password).Success?
        && var user := User(id, email, hasher.hash(input.password).value,
                            TrimSpace(input.firstName), TrimSpace(input.lastName), now, now);
        && email !in st.users
        && run.calls == [FindByEmail(email), Hash(input.password), CreateUser(user)]
        && run.store == st.(users := st.users[email := user])
        && run.result.value == RegisterView(user)
        && user.createdAt == user.updatedAt
  {
  }

  /** Register succeeds exactly when every field is present, the lookup
      finds nobody under the normalised email, the hasher succeeds and the
      insert does not fail. */
  lemma RegisterSucceedsExactly(st: Store, hasher: Hasher, input: RegisterInput, id: Uuid, now: Time)
    ensures RegisterRun(st, hasher, input, id, now).result.Success? <==>
      && !MissingFields(input)
      && st.faults.find.None? && NormalizeEmail(input.email) !in st.users
      && hasher.hash(input.password).Success?
      && st.faults.create.None?
  {
  }

  /** Register writes at most once, and only as its last call, after a lookup
      that found nobody and a hash that succeeded. */
  lemma RegisterWritesAtMostOnce(st: Store, hasher: Hasher, input: RegisterInput, id: Uuid, now: Time)
    ensures var run := RegisterRun(st, hasher, input, id, now);
      var email := NormalizeEmail(input.email);
      && Writes(run.calls) <= 1
      && (Writes(run.calls) == 1 ==>
            && |run.calls| == 3 && run.calls[2].CreateUser?
            && run.calls[..2] == [FindByEmail(email), Hash(input.password)]
            && Find(st, email) == Success(None)
            && hasher.hash(input.password) == Success(run.calls[2].user.passwordHash))
      && (run.result.Success? ==> Writes(run.calls) == 1)
  {
    var email := NormalizeEmail(input.email);
    var digest := if hasher.hash(input.password).Success? then hasher.hash(input.password).value else "";
    var user := User(id, email, digest, TrimSpace(input.firstName), TrimSpace(input.lastName), now, now);
    WritesOfShortLogs(FindByEmail(email), Hash(input.password), CreateUser(user));
  }

  /** Registration keeps the table keyed by email, so there is never a second
      user with the same normalised email. */
  lemma RegisterKeepsStoreKeyed(st: Store, hasher: Hasher, input: RegisterInput, id: Uuid, now: Time)
    requires Keyed(st.users)
    ensures Keyed(RegisterRun(st, hasher, input, id, now).store.users)
  {
  }

  /** What Register returns does not depend on the password or on its hash:
      two registrations that differ only there, with hashers that succeed,
      return the same value. */
  lemma RegisterOutputHidesPassword(
    st: Store, h1: Hasher, h2: Hasher, in1: RegisterInput, in2: RegisterInput, id: Uuid, now: Time)
    requires in1.(password := in2.password) == in2
    requires in1.password != "" && in2.password != ""
    requires h1.hash(in1.password).Success? && h2.hash(in2.password).Success?
    ensures RegisterRun(st, h1, in1, id, now).result == RegisterRun(st, h2, in2, id, now).result
  {
    var email := NormalizeEmail(in1.email);
    var u1 := User(id, email, h1.hash(in1.password).value, TrimSpace(in1.firstName), TrimSpace(in1.lastName), now, now);
    var u2 := u1.(passwordHash := h2.hash(in2.password).value);
    assert Create(st, u1).0 == Create(st, u2).0;
  }

  // ----- Login -----

  /** Login fails with ErrInvalidLogin exactly when the lookup succeeds and
      finds nobody, or finds a user whose hash does not match the password. */
  lemma LoginInvalidExactly(st: Store, hasher: Hasher, issuer: TokenIssuer, ids: UuidText, input: LoginInput)
    ensures var run := LoginRun(st, hasher, issuer, ids, input);
      var email := NormalizeEmail(input.email);
      run.result == Failure(ErrInvalidLogin) <==>
        && st.faults.find.None?
        && (email !in st.users || hasher.compare(st.users[email].passwordHash, input.password).Fail?)
  {
  }

  /** An unknown email and a wrong password give the caller the very same
      value. */
  lemma LoginFailuresIndistinguishable(
    st1: Store, st2: Store, hasher: Hasher, issuer: TokenIssuer, ids: UuidText, in1: LoginInput, in2: LoginInput)
    requires Find(st1, NormalizeEmail(in1.email)) == Success(None)
    requires Find(st2, NormalizeEmail(in2.email)).Success? && Find(st2, NormalizeEmail(in2.email)).value.Some?
    requires hasher.compare(Find(st2, NormalizeEmail(in2.email)).value.value.passwordHash, in2.password).Fail?
    ensures LoginRun(st1, hasher, issuer, ids, in1).result == LoginRun(st2, hasher, issuer, ids, in2).result
    ensures LoginRun(st1, hasher, issuer, ids, in1).result == Failure(ErrInvalidLogin)
  {
  }

  /** Login never writes to the repository. */
  lemma LoginReadOnly(st: Store, hasher: Hasher, issuer: TokenIssuer, ids: UuidText, input: LoginInput)
    ensures var run := LoginRun(st, hasher, issuer, ids, input);
      run.store == st && Writes(run.calls) == 0
  {
    var email := NormalizeEmail(input.email);
    if Find(st, email).Success? && Find(st, email).value.Some? {
      var user := st.users[email];
      WritesOfShortLogs(FindByEmail(email), Compare(user.passwordHash, input.password),
                        Issue(ids.format(user.id), TokenTtl, UserClaims(user)));
    } else {
      WritesOfShortLogs(FindByEmail(email), FindByEmail(email), FindByEmail(email));
    }
  }

  /** A successful login looked the user up, compared the password against
      the stored hash, and then called Issue once, with the user's id as
      subject, a 24-hour TTL and exactly the email and name claims of the
      stored user; it returns that token and the stored user's public fields. */
  lemma LoginSuccess(st: Store, hasher: Hasher, issuer: TokenIssuer, ids: UuidText, input: LoginInput)
    ensures var run := LoginRun(st, hasher, issuer, ids, input);
      var email := NormalizeEmail(input.email);
      run.result.Success? ==>
        && st.faults.find.None? && email in st.users
        && var user := st.users[email];
        && hasher.compare(user.passwordHash, input.password).Pass?
        && (Keyed(st.users) ==> user.email == email)
        && var claims := UserClaims(user);
        && claims.Keys == {"email", "first_name", "last_name"}
        && claims["email"] == Text(user.email)
        && claims["first_name"] == Text(user.firstName)
        && claims["last_name"] == Text(user.lastName)
        && run.calls == [FindByEmail(email), Compare(user.passwordHash, input.password),
                         Issue(ids.format(user.id), TokenTtl, claims)]
        && issuer.issue(ids.format(user.id), TokenTtl, claims) == Success(run.result.value.accessToken)
        && run.result.value.user == InfoOf(user)
  {
  }

  /** Login succeeds exactly when the lookup finds a user under the
      normalised email, the password matches the stored hash and the issuer
      signs a token. */
  lemma LoginSucceedsExactly(st: Store, hasher: Hasher, issuer: TokenIssuer, ids: UuidText, input: LoginInput)
    ensures var email := NormalizeEmail(input.email);
      LoginRun(st, hasher, issuer, ids, input).result.Success? <==>
        && st.faults.find.None? && email in st.users
        && hasher.compare(st.users[email].passwordHash, input.password).Pass?
        && issuer.issue(ids.format(st.users[email].id), TokenTtl, UserClaims(st.users[email])).Success?
  {
  }

  /** A lookup error or a token-issuance error is returned as it is. A
      Compare error is not: it becomes ErrInvalidLogin. */
  lemma LoginPassesErrorsThrough(st: Store, hasher: Hasher, issuer: TokenIssuer, ids: UuidText, input: LoginInput)
    ensures var run := LoginRun(st, hasher, issuer, ids, input);
      var email := NormalizeEmail(input.email);
      && (st.faults.find.Some? ==>
            run.result == Failure(Passed(st.faults.find.value)) && run.calls == [FindByEmail(email)])
      && (st.faults.find.None? && email in st.users &&
          hasher.compare(st.users[email].passwordHash, input.password).Pass? ==>
            var user := st.users[email];
            var issued := issuer.issue(ids.format(user.id), TokenTtl, UserClaims(user));
            issued.Failure? ==> run.result == Failure(Passed(issued.error)))
  {
  }

  /** Issued by the HS256 issuer, a login token carries the issuer's name,
      the user id as subject, an expiry 86400 seconds after its issue time
      and the stored user's email and names: the caller claims do not touch
      the standard ones. */
  lemma LoginTokenClaims(
    st: Store, hasher: Hasher, issuer: TokenIssuer, ids: UuidText, input: LoginInput, name: string, now: Time)
    requires LoginRun(st, hasher, issuer, ids, input).result.Success?
    ensures var run := LoginRun(st, hasher, issuer, ids, input);
      var call := run.calls[2];
      var user := run.result.value.user;
      call.Issue? &&
      var claims := Jwt.TokenClaims(name, call.subject, call.ttl, call.claims, now);
      && claims.Keys == {"iss", "sub", "iat", "exp", "email", "first_name", "last_name"}
      && claims["iss"] == Text(name)
      && claims["sub"] == Text(ids.format(user.id))
      && claims["iat"] == Number(Unix(now))
      && claims["exp"] == Number(Unix(now) + 86400)
      && claims["email"] == Text(user.email)
      && claims["first_name"] == Text(user.firstName)
      && claims["last_name"] == Text(user.lastName)
  {
    LoginSuccess(st, hasher, issuer, ids, input);
    Jwt.ExpiryMinusIssuedAt(now, TokenTtl);
  }

  // ----- DeleteUser -----

  /** DeleteUser with an id that does not parse returns the parse error and
      does not call the repository; otherwise it returns what Delete returns. */
  lemma DeleteUserDelegates(st: Store, ids: UuidText, userId: string)
    ensures var run := DeleteUserRun(st, ids, userId);
      && (ids.parse(userId).Failure? ==>
            run == Run(Failure(Passed(ids.parse(userId).error)), st, []))
      && (ids.parse(userId).Success? ==>
            var uid := ids.parse(userId).value;
            && run.calls == [Delete(uid)]
            && run.store == Remove(st, uid).1
            && (run.result.Success? <==> Remove(st, uid).0.Pass?)
            && (run.result.Failure? ==> run.result.error == Passed(Remove(st, uid).0.error)))
  {
  }

  /** Deleting by the subject of a user's token removes that user and keeps
      every other user. */
  lemma DeleteBySubjectRemovesUser(st: Store, ids: UuidText, user: User)
    requires RoundTrips(ids) && st.faults.delete.None?
    requires Keyed(st.users) && user.email in st.users && st.users[user.email] == user
    ensures var run := DeleteUserRun(st, ids, ids.format(user.id));
      && run.result == Success(())
      && user.email !in run.store.users
      && (forall e :: e in run.store.users ==> run.store.users[e].id != user.id)
      && (forall e :: e in st.users && st.users[e].id != user.id ==> e in run.store.users)
      && Keyed(run.store.users)
  {
    assert ids.parse(ids.format(user.id)) == Success(user.id);
  }

  // ----- Across operations -----

  /** A registration with every field present, a free email and
      collaborators that do not fail succeeds; a later login with the same
      password and any email with the same normal form (other case,
      surrounding spaces) gets past the lookup and the password check, so it
      succeeds unless token issuance fails, and returns the registered user's
      public view. */
  lemma RegisterThenLogin(
    st: Store, hasher: Hasher, issuer: TokenIssuer, ids: UuidText,
    reg: RegisterInput, id: Uuid, now: Time, login: LoginInput)
    requires Sound(hasher)
    requires !MissingFields(reg)
    requires st.faults.find.None? && NormalizeEmail(reg.email) !in st.users
    requires hasher.hash(reg.password).Success? && st.faults.create.None?
    requires NormalizeEmail(login.email) == NormalizeEmail(reg.email) && login.password == reg.password
    ensures RegisterRun(st, hasher, reg, id, now).result.Success?
    ensures var out := RegisterRun(st, hasher, reg, id, now).result.value;
      var run := LoginRun(RegisterRun(st, hasher, reg, id, now).store, hasher, issuer, ids, login);
      var claims := map["email" := Text(out.email), "first_name" := Text(out.firstName),
                        "last_name" := Text(out.lastName)];
      && (run.result.Success? <==> issuer.issue(ids.format(out.id), TokenTtl, claims).Success?)
      && (run.result.Success? ==>
            run.result.value.user == UserInfo(out.id, out.email, out.firstName, out.lastName))
  {
    RegisterSucceedsExactly(st, hasher, reg, id, now);
    RegisterSuccess(st, hasher, reg, id, now);
    var digest := hasher.hash(reg.password).value;
    assert hasher.compare(digest, reg.password) == Pass;
  }

  /** A second registration under an email with the same normal form is
      refused with ErrEmailTaken, after the lookup alone and without a write. */
  lemma SecondRegistrationTaken(
    st: Store, hasher: Hasher, first: RegisterInput, id: Uuid, now: Time,
    h2: Hasher, second: RegisterInput, id2: Uuid, now2: Time)
    requires st.faults.find.None?
    requires RegisterRun(st, hasher, first, id, now).result.Success?
    requires NormalizeEmail(second.email) == NormalizeEmail(first.email) && !MissingFields(second)
    ensures var after := RegisterRun(st, hasher, first, id, now).store;
      RegisterRun(after, h2, second, id2, now2)
        == Run(Failure(ErrEmailTaken), after, [FindByEmail(NormalizeEmail(first.email))])
  {
    RegisterSuccess(st, hasher, first, id, now);
  }

  /** ErrInvalidEmail is declared but no operation returns it. */
  lemma InvalidEmailNeverReturned(
    st: Store, hasher: Hasher, issuer: TokenIssuer, ids: UuidText,
    reg: RegisterInput, id: Uuid, now: Time, login: LoginInput, userId: string)
    ensures RegisterRun(st, hasher, reg, id, now).result != Failure(ErrInvalidEmail)
    ensures LoginRun(st, hasher, issuer, ids, login).result != Failure(ErrInvalidEmail)
    ensures DeleteUserRun(st, ids, userId).result != Failure(ErrInvalidEmail)
  {
  }

  /** " Ada@Example.COM " and "ADA@EXAMPLE.COM" are the same key,
      "ada@example.com"; and the service itself lets the five-character
      password "short" through its validation (the length rule is not part of
      Register). */
  lemma AdaScenario(padded: string, upper: string, lower: string, input: RegisterInput)
    requires padded == " Ada@Example.COM " && upper == "ADA@EXAMPLE.COM" && lower == "ada@example.com"
    requires input == RegisterInput("Ada", "", padded, "short")
    ensures NormalizeEmail(padded) == NormalizeEmail(upper) == lower
    ensures !MissingFields(input)
  {
    AdaPadded(padded, upper);
    AdaUpper(upper, lower);
    assert TrimSpace("Ada") == "Ada";
  }

  lemma AdaPadded(padded: string, upper: string)
    requires padded == " Ada@Example.COM " && upper == "ADA@EXAMPLE.COM"
    ensures NormalizeEmail(padded) == NormalizeEmail(upper)
  {
    var s := padded[1..|padded| - 1];
    assert forall i :: 0 <= i < |s| ==> LowerChar(s[i]) == LowerChar(upper[i]);
    NormalizeIgnoresCaseAndPadding(padded[..1], s, upper, padded[|padded| - 1..]);
    assert padded[..1] + s + padded[|padded| - 1..] == padded;
  }

  lemma AdaUpper(upper: string, lower: string)
    requires upper == "ADA@EXAMPLE.COM" && lower == "ada@example.com"
    ensures NormalizeEmail(upper) == lower
  {
    assert forall i :: 0 <= i < |upper| ==> LowerChar(upper[i]) == LowerChar(lower[i]);
    NormalizeIgnoresCaseAndPadding([], upper, lower, []);
    assert [] + upper + [] == upper;
    LowerIsFixed(lower);
    TrimOfTrimmed(lower);
  }
}
