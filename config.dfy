/** Application configuration read from the process environment. The
    environment is a map from variable names to values; an absent name is an
    unset variable. */
module AppConfig {
  import opened Basics

  type Env = map<string, string>

  /** config.Config */
  datatype Config = Config(
    port: int,
    environment: string,
    databaseUrl: string,
    logLevel: string,
    jwtSecret: string)

  /** The two causes strconv reports. */
  datatype NumErr = ErrSyntax | ErrRange

  /** strconv.NumError: the function, the input text and the cause. */
  datatype NumError = NumError(func: string, num: string, err: NumErr)

  /** The errors Load wraps: a PORT that is not an int, or a failed validation. */
  datatype ConfigError = InvalidPort(cause: NumError) | InvalidConfiguration(reason: string)

  const MaxUint64: int := 0xFFFF_FFFF_FFFF_FFFF
  const MaxInt64: int := 0x7FFF_FFFF_FFFF_FFFF
  const MinInt64: int := -0x8000_0000_0000_0000

  const DefaultConfig := Config(8080, "development", "", "info", "")

  /** getEnv: the variable's value, or the default when it is unset or empty. */
  function GetEnv(env: Env, key: string, defaultValue: string): (value: string)
    ensures key in env && env[key] != "" ==> value == env[key]
    ensures key !in env || env[key] == "" ==> value == defaultValue
  {
    if key in env && env[key] != "" then env[key] else defaultValue
  }

  /** An empty value behaves exactly as an unset variable. */
  lemma EmptyValueIsUnset(env: Env, key: string, defaultValue: string)
    ensures GetEnv(env[key := ""], key, defaultValue) == GetEnv(env - {key}, key, defaultValue) == defaultValue
  {
  }

  predicate IsDigit(c: char)
  {
    '0' <= c <= '9'
  }

  predicate AllDigits(s: string)
  {
    forall i :: 0 <= i < |s| ==> IsDigit(s[i])
  }

  function DigitValue(c: char): (d: nat)
    requires IsDigit(c)
    ensures d <= 9
  {
    c as int - '0' as int
  }

  /** The number a string of decimal digits denotes. */
  function DecimalValue(s: string): nat
    requires AllDigits(s)
    decreases |s|
  {
    if s == [] then 0 else DecimalValue(s[..|s| - 1]) * 10 + DigitValue(s[|s| - 1])
  }

  /** The digit loop of strconv.ParseUint in base 10: the digits of s[i..]
      accumulated onto n. The first non-digit gives ErrSyntax, and the first
      digit that takes the value past 2^64 - 1 gives ErrRange (ParseUint's
      cutoff test and its wrap-around test together reject exactly those
      digits), whichever comes first. */
  function ScanDigits(s: string, i: nat, n: nat): Result<nat, NumErr>
    requires i <= |s|
    decreases |s| - i
  {
    if i == |s| then Success(n)
    else if !IsDigit(s[i]) then Failure(ErrSyntax)
    else if n * 10 + DigitValue(s[i]) > MaxUint64 then Failure(ErrRange)
    else ScanDigits(s, i + 1, n * 10 + DigitValue(s[i]))
  }

  /** strconv.Atoi for a 64-bit int: an optional sign, then at least one
      decimal digit, in the int64 range. Its fast path for short inputs and
      its ParseInt path agree on every input, so one definition covers both. */
  function Atoi(s: string): (r: Result<int, NumError>)
    ensures r.Success? ==> MinInt64 <= r.value <= MaxInt64
  {
    if s == "" then Failure(NumError("Atoi", s, ErrSyntax))
    else
      var negative := s[0] == '-';
      var digits := if s[0] == '-' || s[0] == '+' then s[1..] else s;
      if digits == "" then Failure(NumError("Atoi", s, ErrSyntax))
      else
        match ScanDigits(digits, 0, 0)
        case Failure(cause) => Failure(NumError("Atoi", s, cause))
        case Success(u) =>
          var magnitude: int := u;
          if !negative && u > MaxInt64 then Failure(NumError("Atoi", s, ErrRange))
          else if negative && u > -MinInt64 then Failure(NumError("Atoi", s, ErrRange))
          else Success(if negative then -magnitude else magnitude)
  }

  /** The text without its one optional leading sign. */
  function Unsigned(s: string): string
  {
    if s != "" && (s[0] == '-' || s[0] == '+') then s[1..] else s
  }

  /** The syntax Atoi accepts: an optional sign and one or more digits. */
  predicate IsIntegerText(s: string)
  {
    Unsigned(s) != "" && AllDigits(Unsigned(s))
  }

  function SignedValue(s: string): int
    requires IsIntegerText(s)
  {
    var magnitude: int := DecimalValue(Unsigned(s));
    if s[0] == '-' then -magnitude else magnitude
  }

  lemma {:induction false} PrefixValueBounded(s: string, k: nat)
    requires AllDigits(s) && k <= |s|
    ensures DecimalValue(s[..k]) <= DecimalValue(s)
    decreases |s| - k
  {
    if k < |s| {
      PrefixValueBounded(s, k + 1);
      assert s[..k + 1][..k] == s[..k];
    } else {
      assert s[..k] == s;
    }
  }

  /** The digit loop succeeds exactly on digit strings whose value fits in 64
      bits, and then yields that value. */
  lemma {:induction false} ScanDigitsValue(s: string, i: nat, n: nat)
    requires i <= |s| && AllDigits(s[..i]) && n == DecimalValue(s[..i]) && n <= MaxUint64
    ensures ScanDigits(s, i, n).Success? <==> AllDigits(s) && DecimalValue(s) <= MaxUint64
    ensures ScanDigits(s, i, n).Success? ==> ScanDigits(s, i, n).value == DecimalValue(s)
    decreases |s| - i
  {
    if i == |s| {
      assert s[..i] == s;
    } else if IsDigit(s[i]) {
      var next := s[..i + 1];
      assert next[..i] == s[..i];
      assert AllDigits(next);
      assert DecimalValue(next) == n * 10 + DigitValue(s[i]);
      if n * 10 + DigitValue(s[i]) > MaxUint64 {
        if AllDigits(s) {
          PrefixValueBounded(s, i + 1);
        }
      } else {
        ScanDigitsValue(s, i + 1, n * 10 + DigitValue(s[i]));
      }
    }
  }

  /** Atoi accepts exactly an optional sign followed by digits whose value
      is an int64, and returns that value. */
  lemma AtoiAcceptsIntegers(s: string)
    ensures Atoi(s).Success? <==> IsIntegerText(s) && MinInt64 <= SignedValue(s) <= MaxInt64
    ensures Atoi(s).Success? ==> Atoi(s).value == SignedValue(s)
  {
    var digits := Unsigned(s);
    if digits != "" {
      assert digits[..0] == "";
      ScanDigitsValue(digits, 0, 0);
    }
  }

  /** validate: fails exactly for a production environment without a JWT secret. */
  function Validate(c: Config): (err: Option<string>)
    ensures err.Some? <==> c.environment == "production" && c.jwtSecret == ""
  {
    if c.environment == "production" && c.jwtSecret == "" then Some("JWT_SECRET is required in production")
    else None
  }

  /** Load */
  function Load(env: Env): Result<Config, ConfigError>
  {
    match Atoi(GetEnv(env, "PORT", "8080"))
    case Failure(e) => Failure(InvalidPort(e))
    case Success(port) =>
      var cfg := Config(
        port,
        GetEnv(env, "ENV", "development"),
        GetEnv(env, "DATABASE_URL", ""),
        GetEnv(env, "LOG_LEVEL", "info"),
        GetEnv(env, "JWT_SECRET", ""));
      match Validate(cfg)
      case Some(reason) => Failure(InvalidConfiguration(reason))
      case None => Success(cfg)
  }

  /** Load succeeds exactly when PORT parses and validation passes; then every
      field is the getEnv value of its variable. */
  lemma LoadSucceedsIff(env: Env)
    ensures Load(env).Success? <==>
      && Atoi(GetEnv(env, "PORT", "8080")).Success?
      && !(GetEnv(env, "ENV", "development") == "production" && GetEnv(env, "JWT_SECRET", "") == "")
    ensures Load(env).Success? ==> Load(env).value == Config(
      Atoi(GetEnv(env, "PORT", "8080")).value,
      GetEnv(env, "ENV", "development"),
      GetEnv(env, "DATABASE_URL", ""),
      GetEnv(env, "LOG_LEVEL", "info"),
      GetEnv(env, "JWT_SECRET", ""))
  {
  }

  /** A PORT that is not an int64 in decimal makes Load fail with a parse
      error about that text, and no configuration. */
  lemma LoadRejectsBadPort(env: Env)
    requires var port := GetEnv(env, "PORT", "8080");
      !IsIntegerText(port) || !(MinInt64 <= SignedValue(port) <= MaxInt64)
    ensures Load(env).Failure? && Load(env).error.InvalidPort?
    ensures Load(env).error.cause.func == "Atoi" && Load(env).error.cause.num == GetEnv(env, "PORT", "8080")
  {
    AtoiAcceptsIntegers(GetEnv(env, "PORT", "8080"));
  }

  /** With nothing set, Load yields the defaults. */
  lemma LoadDefaults()
    ensures Load(map[]) == Success(DefaultConfig)
  {
    AtoiAcceptsIntegers("8080");
    assert Unsigned("8080") == "8080";
    assert DecimalValue("8080") == 8080 by {
      assert "8080"[..3] == "808" && "808"[..2] == "80" && "80"[..1] == "8" && "8"[..0] == "";
    }
  }
}
