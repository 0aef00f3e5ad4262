/**
 * The client's configuration, read once from the build-time environment
 * (`process.env`), modelled as a map from variable names to values.
 */
module EnvConfig {
  import opened Wrappers
  import opened Text

  type Env = map<string, string>

  function MissingMessage(key: string): string {
    "Environment variable " + key + " is required but not set"
  }

  /** `getEnvVar`: the value when set (even ""), else the default, else an error. */
  function GetEnvVar(env: Env, key: string, defaultValue: Option<string>): (r: Result<string>)
    ensures key in env ==> r == Ok(env[key])
    ensures key !in env && defaultValue.Some? ==> r == Ok(defaultValue.value)
    ensures key !in env && defaultValue.None? ==> r == Err(MissingMessage(key))
  {
    if key !in env then
      if defaultValue.Some? then Ok(defaultValue.value) else Err(MissingMessage(key))
    else Ok(env[key])
  }

  /** `getBooleanEnvVar`: the default when unset, else whether the lower-cased value is "true". */
  function GetBooleanEnvVar(env: Env, key: string, defaultValue: bool): bool {
    if key !in env then defaultValue else ToLower(env[key]) == "true"
  }

  /** "true" in any letter case, and nothing else, turns a set flag on. */
  lemma BooleanMeaning(env: Env, key: string, defaultValue: bool)
    requires key in env
    ensures GetBooleanEnvVar(env, key, defaultValue) <==>
      |env[key]| == 4 && LowerChar(env[key][0]) == 't' && LowerChar(env[key][1]) == 'r'
      && LowerChar(env[key][2]) == 'u' && LowerChar(env[key][3]) == 'e'
  {
    var v := env[key];
    if |v| == 4 && LowerChar(v[0]) == 't' && LowerChar(v[1]) == 'r' && LowerChar(v[2]) == 'u' && LowerChar(v[3]) == 'e' {
      assert ToLower(v) == "true";
    }
  }

  // ---------------------------------------------------------------------------
  // parseInt(value, 10)

  /** The longest run of decimal digits at the start of `s`. */
  function LeadingDigits(s: string): (r: string)
    ensures |r| <= |s| && r == s[..|r|] && AllDigits(r)
    ensures |r| < |s| ==> !IsDigit(s[|r|])
  {
    if s != [] && IsDigit(s[0]) then [s[0]] + LeadingDigits(s[1..]) else []
  }

  /**
   * `parseInt(s, 10)`: white space is skipped, an optional sign is read, then the
   * leading decimal digits; with no digits the result is NaN (`None`).
   */
  function ParseInt(s: string): Option<int> {
    var t := TrimStart(s);
    var negative := t != [] && t[0] == '-';
    var body := if t != [] && (t[0] == '-' || t[0] == '+') then t[1..] else t;
    var digits := LeadingDigits(body);
    var magnitude: int := DigitsValue(digits);
    if digits == [] then None else Some(if negative then -magnitude else magnitude)
  }

  /** `getNumberEnvVar`: the default when unset or not a number, else the parsed integer. */
  function GetNumberEnvVar(env: Env, key: string, defaultValue: int): (r: int)
    ensures key !in env ==> r == defaultValue
    ensures key in env && ParseInt(env[key]).None? ==> r == defaultValue
    ensures key in env && ParseInt(env[key]).Some? ==> r == ParseInt(env[key]).value
  {
    if key !in env then defaultValue
    else match ParseInt(env[key])
      case None => defaultValue
      case Some(n) => n
  }

  /** Digits are read as far as they go; what follows them is ignored. */
  lemma {:induction false} LeadingDigitsOfDigits(d: string, rest: string)
    requires AllDigits(d) && (rest == [] || !IsDigit(rest[0]))
    ensures LeadingDigits(d + rest) == d
  {
    if d != [] {
      LeadingDigitsOfDigits(d[1..], rest);
      assert (d + rest)[1..] == d[1..] + rest;
      assert d == [d[0]] + d[1..];
    } else {
      assert d + rest == rest;
    }
  }

  /** `parseInt` reads back any integer written in decimal, with trailing text ignored. */
  lemma ParseIntRoundTrip(n: int, rest: string)
    requires rest == [] || !IsDigit(rest[0])
    ensures ParseInt(IntToString(n) + rest) == Some(n)
  {
    var m: nat := if n < 0 then -n else n;
    var digits := NatToString(m) + rest;
    NatToStringRoundTrip(m);
    LeadingDigitsOfDigits(NatToString(m), rest);
    if n < 0 {
      var s := "-" + digits;
      assert s[1..] == digits;
      assert IntToString(n) + rest == s;
      ParseSigned(s);
    } else {
      ParseSigned(digits);
    }
  }

  /** Text that opens with a sign or a digit is read from its first character. */
  lemma ParseSigned(s: string)
    requires s != [] && (s[0] == '-' || IsDigit(s[0]))
    ensures ParseInt(s) == (var body := if s[0] == '-' then s[1..] else s;
                            var digits := LeadingDigits(body);
                            if digits == [] then None
                            else Some(if s[0] == '-' then -(DigitsValue(digits) as int) else DigitsValue(digits)))
  {
    assert TrimStart(s) == s;
  }

  /** Text that does not start, after white space and a sign, with a digit is NaN. */
  lemma NotANumber(s: string)
    requires TrimStart(s) == [] || !(IsDigit(TrimStart(s)[0]) || TrimStart(s)[0] == '-' || TrimStart(s)[0] == '+')
    ensures ParseInt(s) == None
  {
  }

  // ---------------------------------------------------------------------------
  // The configuration

  datatype AppConfig = AppConfig(baseUrl: string, timeout: int, name: string, version: string,
                                 enableDebug: bool, paginationLimit: int)

  const BaseUrlKey := "REACT_APP_API_BASE_URL"
  const TimeoutKey := "REACT_APP_API_TIMEOUT"
  const NameKey := "REACT_APP_APP_NAME"
  const VersionKey := "REACT_APP_VERSION"
  const DebugKey := "REACT_APP_ENABLE_DEBUG"
  const LimitKey := "REACT_APP_PAGINATION_LIMIT"

  /** `config`: loading fails when the API base URL is not set. */
  function Config(env: Env): Result<AppConfig> {
    match GetEnvVar(env, BaseUrlKey, None)
    case Err(e) => Err(e)
    case Ok(baseUrl) =>
      Ok(AppConfig(
        baseUrl,
        GetNumberEnvVar(env, TimeoutKey, 10000),
        GetEnvVar(env, NameKey, Some("Todo Manager")).value,
        GetEnvVar(env, VersionKey, Some("1.0.0")).value,
        GetBooleanEnvVar(env, DebugKey, false),
        GetNumberEnvVar(env, LimitKey, 10)))
  }

  /** With only the base URL set, every other setting takes its default. */
  lemma ConfigDefaults(url: string)
    ensures Config(map[BaseUrlKey := url]) == Ok(AppConfig(url, 10000, "Todo Manager", "1.0.0", false, 10))
  {
  }

  /** Without the base URL the configuration cannot load, whatever else is set. */
  lemma MissingBaseUrl(env: Env)
    requires BaseUrlKey !in env
    ensures Config(env) == Err(MissingMessage(BaseUrlKey))
  {
  }

  /** A set value always wins over its default, even when it is empty. */
  lemma SetValueWins(env: Env)
    requires BaseUrlKey in env && NameKey in env && VersionKey in env
    ensures Config(env).Ok? && Config(env).value.baseUrl == env[BaseUrlKey]
    ensures Config(env).value.name == env[NameKey] && Config(env).value.version == env[VersionKey]
  {
  }
}
