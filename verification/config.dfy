/** Process configuration (Sources/pupilCore/Config.swift): reading the
    settings out of the environment map, and the static getters with
    their fallbacks. The current directory is an input (`cwd`). */
module Config {
  import opened Common

  const AWS_REGION_KEY: string := "AWS_REGION"
  const AWS_KEYID_KEY: string := "AWS_KEYID"
  const AWS_KEYSECRET: string := "AWS_KEYSECRET"
  const PUPIL_PORT: string := "PUPIL_PORT"
  const PUPIL_ROOT: string := "PUPIL_ROOT"
  const PUPIL_BUCKET: string := "PUPIL_BUCKET"
  const PUPIL_THUMBNAIL_INTERVAL: string := "PUPIL_THUMBNAIL_INTERVAL"

  const DEFAULT_PORT: int := 42000
  const DEFAULT_THUMBNAIL_INTERVAL: int := 30

  /** The keys without which no configuration is built, in the order they
      are checked. */
  const RequiredKeys: seq<string> := [PUPIL_BUCKET, AWS_REGION_KEY, AWS_KEYID_KEY, AWS_KEYSECRET]

  datatype ConfigError = FileNotFound | KeyNotFound(key: string) | BadKeyValue(key: string)

  datatype ConfigValues = ConfigValues(
    port: int,
    root: string,
    bucket: string,
    region: string,
    keyID: string,
    keySecret: string,
    thumbnailInterval: int)

  // ---------------------------------------------------------------------
  // Integer parsing: Swift's `Int32(_:)` / `Int(_:)` on a String

  predicate IsDigit(c: char)
  {
    '0' <= c <= '9'
  }

  predicate AllDigits(s: string)
  {
    forall i :: 0 <= i < |s| ==> IsDigit(s[i])
  }

  function DigitsValue(s: string): nat
    requires AllDigits(s)
  {
    if |s| == 0 then 0 else DigitsValue(s[..|s| - 1]) * 10 + (s[|s| - 1] as int - '0' as int)
  }

  /** Text Swift reads as an integer: every character a digit, except that
      the first may be a sign, and the last is a digit. */
  predicate IntegerText(s: string)
  {
    && |s| > 0 && IsDigit(s[|s| - 1])
    && forall i :: 0 <= i < |s| ==> IsDigit(s[i]) || (i == 0 && (s[0] == '-' || s[0] == '+'))
  }

  /** The value integer text denotes: its digits, negated after a `-`. */
  function SignedValue(s: string): int
    requires IntegerText(s)
  {
    if IsDigit(s[0]) then DigitsValue(s)
    else
      assert AllDigits(s[1..]) by { assert forall i :: 0 <= i < |s| - 1 ==> s[1..][i] == s[i + 1]; }
      var magnitude: int := DigitsValue(s[1..]);
      if s[0] == '-' then -magnitude else magnitude
  }

  /** An optional sign, then at least one decimal digit, nothing else; the
      value must fit in [lo, hi]. */
  function ParseInt(s: string, lo: int, hi: int): (r: Option<int>)
    ensures r.Some? ==> lo <= r.value <= hi
    ensures |s| == 0 ==> r.None?
    ensures r.Some? ==> exists i :: 0 <= i < |s| && IsDigit(s[i])
    ensures r.Some? <==> IntegerText(s) && lo <= SignedValue(s) <= hi
    ensures r.Some? ==> IntegerText(s) && r.value == SignedValue(s)
  {
    var signed := |s| > 0 && (s[0] == '-' || s[0] == '+');
    var digits := if signed then s[1..] else s;
    if |digits| == 0 || !AllDigits(digits) then None
    else
      var magnitude: int := DigitsValue(digits);
      var v: int := if signed && s[0] == '-' then -magnitude else magnitude;
      assert IsDigit(digits[0]);
      assert signed ==> s[1] == digits[0];
      if lo <= v <= hi then Some(v) else None
  }

  function ParseInt32(s: string): Option<int>
  {
    ParseInt(s, INT32_MIN, INT32_MAX)
  }

  function ParseInt64(s: string): Option<int>
  {
    ParseInt(s, INT64_MIN, INT64_MAX)
  }

  /** Decimal digits of a natural number, most significant first. */
  function Decimal(n: nat): (s: string)
    ensures |s| >= 1 && AllDigits(s)
  {
    var d := ['0' + (n % 10) as char];
    if n < 10 then d else Decimal(n / 10) + d
  }

  /** Decimal text of an integer, with `-` for negatives. */
  function Show(n: int): string
  {
    if n < 0 then "-" + Decimal(-n) else Decimal(n)
  }

  lemma {:induction false} DecimalValue(n: nat)
    ensures DigitsValue(Decimal(n)) == n
  {
    var d := ['0' + (n % 10) as char];
    if n >= 10 {
      DecimalValue(n / 10);
      var s := Decimal(n / 10) + d;
      assert s[..|s| - 1] == Decimal(n / 10);
    }
  }

  lemma ParseDecimal(n: nat, lo: int, hi: int)
    requires lo <= n <= hi
    ensures ParseInt(Decimal(n), lo, hi) == Some(n)
  {
    var s := Decimal(n);
    DecimalValue(n);
    assert IsDigit(s[0]);
    assert !(s[0] == '-' || s[0] == '+');
  }

  lemma ParseNegative(n: nat, lo: int, hi: int)
    requires lo <= -(n as int) <= hi
    ensures ParseInt("-" + Decimal(n), lo, hi) == Some(-(n as int))
  {
    var s := "-" + Decimal(n);
    DecimalValue(n);
    assert s[0] == '-';
    assert s[1..] == Decimal(n);
  }

  /** The parser reads back the decimal text of every value in range. */
  lemma ParseShow(n: int, lo: int, hi: int)
    requires lo <= n <= hi
    ensures ParseInt(Show(n), lo, hi) == Some(n)
  {
    if n < 0 {
      ParseNegative(-n, lo, hi);
    } else {
      ParseDecimal(n, lo, hi);
    }
  }

  /** Trailing junk is refused, a leading `+` and leading zeros are not. */
  lemma ParseIntExamples()
    ensures ParseInt32("8080abc") == None
    ensures ParseInt32("+5") == Some(5)
    ensures ParseInt32("007") == Some(7)
    ensures ParseInt32("-") == None
  {
    assert !IsDigit("8080abc"[6]);
    assert "+5"[1..] == "5";
    assert "007"[..2] == "00" && "00"[..1] == "0";
  }

  // ---------------------------------------------------------------------
  // ConfigValues.from(environment:)

  /** `ConfigValues.from(environment:)`. */
  function FromEnvironment(env: map<string, string>, cwd: string): (r: Result<ConfigValues, ConfigError>)
    ensures r.Success? <==> forall i :: 0 <= i < |RequiredKeys| ==> RequiredKeys[i] in env
    ensures r.Failure? ==>
      exists i :: 0 <= i < |RequiredKeys| && RequiredKeys[i] !in env
        && (forall j :: 0 <= j < i ==> RequiredKeys[j] in env)
        && r.error == KeyNotFound(RequiredKeys[i])
    ensures r.Success? ==>
      && PUPIL_BUCKET in env && AWS_REGION_KEY in env && AWS_KEYID_KEY in env && AWS_KEYSECRET in env
      && r.value.bucket == env[PUPIL_BUCKET]
      && r.value.region == env[AWS_REGION_KEY]
      && r.value.keyID == env[AWS_KEYID_KEY]
      && r.value.keySecret == env[AWS_KEYSECRET]
    ensures r.Success? ==>
      r.value.root == (if PUPIL_ROOT in env then env[PUPIL_ROOT] else cwd)
    ensures r.Success? ==>
      (r.value.port == DEFAULT_PORT <== PUPIL_PORT !in env || ParseInt32(env[PUPIL_PORT]).None?)
      && (PUPIL_PORT in env && ParseInt32(env[PUPIL_PORT]).Some? ==> r.value.port == ParseInt32(env[PUPIL_PORT]).value)
      && INT32_MIN <= r.value.port <= INT32_MAX
    ensures r.Success? ==>
      (r.value.thumbnailInterval == DEFAULT_THUMBNAIL_INTERVAL
         <== PUPIL_THUMBNAIL_INTERVAL !in env || ParseInt64(env[PUPIL_THUMBNAIL_INTERVAL]).None?)
      && (PUPIL_THUMBNAIL_INTERVAL in env && ParseInt64(env[PUPIL_THUMBNAIL_INTERVAL]).Some? ==>
            r.value.thumbnailInterval == ParseInt64(env[PUPIL_THUMBNAIL_INTERVAL]).value)
  {
    assert RequiredKeys[0] == PUPIL_BUCKET && RequiredKeys[1] == AWS_REGION_KEY;
    assert RequiredKeys[2] == AWS_KEYID_KEY && RequiredKeys[3] == AWS_KEYSECRET;
    var port :=
      if PUPIL_PORT in env && ParseInt32(env[PUPIL_PORT]).Some? then ParseInt32(env[PUPIL_PORT]).value
      else DEFAULT_PORT;
    var root := if PUPIL_ROOT in env then env[PUPIL_ROOT] else cwd;
    if PUPIL_BUCKET !in env then Failure(KeyNotFound(PUPIL_BUCKET))
    else if AWS_REGION_KEY !in env then Failure(KeyNotFound(AWS_REGION_KEY))
    else if AWS_KEYID_KEY !in env then Failure(KeyNotFound(AWS_KEYID_KEY))
    else if AWS_KEYSECRET !in env then Failure(KeyNotFound(AWS_KEYSECRET))
    else
      var interval :=
        if PUPIL_THUMBNAIL_INTERVAL in env && ParseInt64(env[PUPIL_THUMBNAIL_INTERVAL]).Some?
        then ParseInt64(env[PUPIL_THUMBNAIL_INTERVAL]).value
        else DEFAULT_THUMBNAIL_INTERVAL;
      Success(ConfigValues(port, root, env[PUPIL_BUCKET], env[AWS_REGION_KEY], env[AWS_KEYID_KEY], env[AWS_KEYSECRET], interval))
  }

  /** A port written in decimal is read back; anything else is the default. */
  lemma PortFromEnvironment(env: map<string, string>, cwd: string, port: int)
    requires forall i :: 0 <= i < |RequiredKeys| ==> RequiredKeys[i] in env
    requires PUPIL_PORT in env && env[PUPIL_PORT] == Show(port)
    requires INT32_MIN <= port <= INT32_MAX
    ensures FromEnvironment(env, cwd).Success? && FromEnvironment(env, cwd).value.port == port
  {
    ParseShow(port, INT32_MIN, INT32_MAX);
  }

  /** A missing thumbnail interval, or one that is not a 64-bit decimal
      integer, gives 30. */
  lemma ThumbnailIntervalDefault(env: map<string, string>, cwd: string)
    requires forall i :: 0 <= i < |RequiredKeys| ==> RequiredKeys[i] in env
    requires PUPIL_THUMBNAIL_INTERVAL in env ==> ParseInt64(env[PUPIL_THUMBNAIL_INTERVAL]).None?
    ensures FromEnvironment(env, cwd).Success?
    ensures FromEnvironment(env, cwd).value.thumbnailInterval == DEFAULT_THUMBNAIL_INTERVAL
  {
  }

  /** Texts that are not 64-bit decimal integers: the empty text, letters,
      a sign without digits, and digits beyond the 64-bit range. */
  lemma NotInt64Examples()
    ensures ParseInt64("").None? && ParseInt64("abc").None? && ParseInt64("-x").None?
    ensures ParseInt64("99999999999999999999").None?
  {
    assert !IsDigit("abc"[0]) && !IsDigit("-x"[1]);
    TwentyNinesOutOfRange();
  }

  lemma TwentyNinesOutOfRange()
    ensures ParseInt64("99999999999999999999").None?
  {
    var big := "99999999999999999999";
    assert |big| == 20 && big[0] == '9';
    assert AllDigits(big);
    TooManyDigitsOutOfRange(big);
  }

  /** Twenty or more digits without a leading zero never fit in 64 bits. */
  lemma TooManyDigitsOutOfRange(s: string)
    requires |s| >= 20 && AllDigits(s) && s[0] != '0'
    ensures ParseInt64(s).None?
  {
    DigitsValueLowerBound(s);
    Pow10Monotone(19, |s| - 1);
    Pow10NineteenAboveInt64();
    assert DigitsValue(s) > INT64_MAX;
    assert IsDigit(s[0]);
  }

  lemma {:induction false} Pow10Monotone(a: nat, b: nat)
    requires a <= b
    ensures Pow10(a) <= Pow10(b)
    decreases b
  {
    if a < b {
      Pow10Monotone(a, b - 1);
    }
  }

  lemma Pow10NineteenAboveInt64()
    ensures Pow10(19) > INT64_MAX
  {
    assert Pow10(6) == 1_000_000;
    assert Pow10(12) == 1_000_000_000_000;
    assert Pow10(18) == 1_000_000_000_000_000_000;
  }

  function Pow10(n: nat): nat
  {
    if n == 0 then 1 else 10 * Pow10(n - 1)
  }

  /** A text of n digits whose first digit is not 0 has a value of at least
      10^(n-1). */
  lemma {:induction false} DigitsValueLowerBound(s: string)
    requires |s| > 0 && AllDigits(s) && s[0] != '0'
    ensures DigitsValue(s) >= Pow10(|s| - 1)
  {
    if |s| > 1 {
      var front := s[..|s| - 1];
      assert front[0] == s[0];
      DigitsValueLowerBound(front);
    }
  }

  // ---------------------------------------------------------------------
  // The `Config` getters

  /** `Config.port`. */
  function Port(values: Option<ConfigValues>): int
  {
    match values
    case Some(v) => v.port
    case None => DEFAULT_PORT
  }

  /** `Config.root`. */
  function Root(values: Option<ConfigValues>, cwd: string): string
  {
    match values
    case Some(v) => v.root
    case None => cwd
  }

  /** `Config.thumbnailInterval`. */
  function ThumbnailInterval(values: Option<ConfigValues>): int
  {
    match values
    case Some(v) => v.thumbnailInterval
    case None => DEFAULT_THUMBNAIL_INTERVAL
  }

  /** `Config.bucket`. */
  function Bucket(values: Option<ConfigValues>): string
  {
    match values
    case Some(v) => v.bucket
    case None => ""
  }

  /** Before anything is loaded the getters give 42000, the current
      directory, 30 and ""; after loading from an environment that holds
      the required keys they give what was loaded. */
  lemma GettersBeforeAndAfterLoading(env: map<string, string>, cwd: string)
    ensures Port(None) == 42000 && Root(None, cwd) == cwd
    ensures ThumbnailInterval(None) == 30 && Bucket(None) == ""
    ensures FromEnvironment(env, cwd).Success? ==>
      var v := Some(FromEnvironment(env, cwd).value);
      && Bucket(v) == env[PUPIL_BUCKET]
      && Root(v, cwd) == (if PUPIL_ROOT in env then env[PUPIL_ROOT] else cwd)
      && (PUPIL_PORT !in env ==> Port(v) == 42000)
      && (PUPIL_THUMBNAIL_INTERVAL !in env ==> ThumbnailInterval(v) == 30)
  {
  }
}
