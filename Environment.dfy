/** The bot's configuration: values read once from the process
    environment (`src/config/environment.ts`) and the check that the two
    credentials are present. */
module Environment {
  import opened Text

  /** A JavaScript number as `parseInt` produces it: an integer or NaN. */
  datatype Number = Finite(value: int) | NaN

  /** JavaScript truthiness of a number: zero and NaN are falsy. */
  predicate TruthyNumber(n: Number) {
    n.Finite? && n.value != 0
  }

  function NumberToString(n: Number): string {
    match n
    case Finite(v) => IntToString(v)
    case NaN => "NaN"
  }

  datatype Config = Config(
    telegramBotToken: string,
    telegramWebhookSecret: string,
    geminiApiKey: string,
    firebaseProjectId: string,
    maxFileSizeMb: Number,
    downloadTimeoutMs: Number)

  const FIREBASE_PROJECT_ID := "reelsmanager-50367"
  const DEFAULT_MAX_FILE_SIZE_MB := "50"
  const DEFAULT_DOWNLOAD_TIMEOUT_MS := "30000"

  /** `parseInt` in base 10: leading whitespace is skipped, then an
      optional sign, then the longest run of digits; anything without a
      leading digit is NaN. */
  function ParseInt(s: string): Number {
    ParseSigned(TrimStart(s))
  }

  function ParseSigned(t: string): Number {
    if |t| > 0 && t[0] == '-' then Negate(ParseDigits(t[1..]))
    else if |t| > 0 && t[0] == '+' then ParseDigits(t[1..])
    else ParseDigits(t)
  }

  function ParseDigits(u: string): Number {
    var k := PrefixRun(u, IsDigit);
    if k == 0 then NaN else Finite(DigitsValue(u[..k]))
  }

  function Negate(n: Number): Number {
    match n
    case Finite(v) => Finite(-v)
    case NaN => NaN
  }

  /** A whole run of digits is read as its value. */
  lemma DigitsParsed(d: string)
    requires |d| > 0 && forall i :: 0 <= i < |d| ==> IsDigit(d[i])
    ensures ParseDigits(d) == Finite(DigitsValue(d))
  {
    PrefixRunUnique(d, IsDigit, |d|);
    assert d[..|d|] == d;
  }

  /** A sign or digit first means there is no whitespace to skip. */
  lemma NoLeadingSpace(s: string)
    requires |s| > 0 && (s[0] == '-' || IsDigit(s[0]))
    ensures TrimStart(s) == s
  {
    SignOrDigitNotSpace(s[0]);
  }

  lemma SignOrDigitNotSpace(c: char)
    requires c == '-' || IsDigit(c)
    ensures !IsSpace(c)
  {
  }

  /** `parseInt` reads back the decimal rendering of any integer. */
  lemma ParseIntToString(n: int)
    ensures ParseInt(IntToString(n)) == Finite(n)
  {
    var m: nat := if n < 0 then -n else n;
    var d := NatToString(m);
    DigitsParsed(d);
    NatToStringValue(m);
    assert ParseDigits(d) == Finite(m);
    if n < 0 {
      var s := "-" + d;
      NoLeadingSpace(s);
      assert s[1..] == d;
      assert ParseSigned(s) == Negate(ParseDigits(d));
    } else {
      NoLeadingSpace(d);
      assert ParseSigned(d) == ParseDigits(d);
    }
  }

  /** `process.env[name] || fallback`. */
  function EnvOr(env: map<string, string>, name: string, fallback: string): (r: string)
    ensures name in env && env[name] != "" ==> r == env[name]
    ensures name !in env || env[name] == "" ==> r == fallback
  {
    if name in env && env[name] != "" then env[name] else fallback
  }

  /** The `config` object derived from the environment when the module is
      loaded. */
  function LoadConfig(env: map<string, string>): Config {
    Config(
      Trim(EnvOr(env, "TELEGRAM_BOT_TOKEN", "")),
      Trim(EnvOr(env, "TELEGRAM_WEBHOOK_SECRET", "")),
      Trim(EnvOr(env, "GEMINI_API_KEY", "")),
      FIREBASE_PROJECT_ID,
      ParseInt(EnvOr(env, "MAX_FILE_SIZE_MB", DEFAULT_MAX_FILE_SIZE_MB)),
      ParseInt(EnvOr(env, "DOWNLOAD_TIMEOUT_MS", DEFAULT_DOWNLOAD_TIMEOUT_MS)))
  }

  lemma RenderFifty()
    ensures IntToString(50) == DEFAULT_MAX_FILE_SIZE_MB
  {
    assert NatToString(5) == "5";
  }

  lemma RenderThirtyThousand()
    ensures IntToString(30000) == DEFAULT_DOWNLOAD_TIMEOUT_MS
  {
    assert NatToString(3) == "3";
    assert NatToString(30) == "30";
    assert NatToString(300) == "300";
    assert NatToString(3000) == "3000";
  }

  /** Unset (or empty) size and timeout variables give 50 MB and 30000 ms. */
  lemma LoadConfigDefaults(env: map<string, string>)
    requires "MAX_FILE_SIZE_MB" !in env || env["MAX_FILE_SIZE_MB"] == ""
    requires "DOWNLOAD_TIMEOUT_MS" !in env || env["DOWNLOAD_TIMEOUT_MS"] == ""
    ensures LoadConfig(env).maxFileSizeMb == Finite(50)
    ensures LoadConfig(env).downloadTimeoutMs == Finite(30000)
  {
    RenderFifty();
    RenderThirtyThousand();
    ParseIntToString(50);
    ParseIntToString(30000);
  }

  /** An unset credential becomes the empty string; a set one is trimmed. */
  lemma CredentialsAreTrimmed(env: map<string, string>, name: string)
    requires name in {"TELEGRAM_BOT_TOKEN", "TELEGRAM_WEBHOOK_SECRET", "GEMINI_API_KEY"}
    ensures name !in env ==> (
      && (name == "TELEGRAM_BOT_TOKEN" ==> LoadConfig(env).telegramBotToken == "")
      && (name == "TELEGRAM_WEBHOOK_SECRET" ==> LoadConfig(env).telegramWebhookSecret == "")
      && (name == "GEMINI_API_KEY" ==> LoadConfig(env).geminiApiKey == ""))
    ensures name in env ==> (
      && (name == "TELEGRAM_BOT_TOKEN" ==> LoadConfig(env).telegramBotToken == Trim(env[name]))
      && (name == "TELEGRAM_WEBHOOK_SECRET" ==> LoadConfig(env).telegramWebhookSecret == Trim(env[name]))
      && (name == "GEMINI_API_KEY" ==> LoadConfig(env).geminiApiKey == Trim(env[name])))
  {
    assert Trim("") == "";
  }

  /** What `validateConfig` does: nothing, or throw an `Error`. */
  datatype Outcome = Pass | Throw(message: string)

  const TOKEN_VAR := "TELEGRAM_BOT_TOKEN"
  const KEY_VAR := "GEMINI_API_KEY"
  const MISSING_PREFIX := "Missing required environment variables: "

  /** The names of the required settings that are empty, in the order of
      the source's list. */
  function Missing(c: Config): (names: seq<string>)
    ensures TOKEN_VAR in names <==> c.telegramBotToken == ""
    ensures KEY_VAR in names <==> c.geminiApiKey == ""
    ensures |names| <= 2
  {
    (if c.telegramBotToken == "" then [TOKEN_VAR] else [])
    + (if c.geminiApiKey == "" then [KEY_VAR] else [])
  }

  /** `names.join(', ')`. */
  function JoinComma(names: seq<string>): string {
    if |names| == 0 then ""
    else if |names| == 1 then names[0]
    else names[0] + ", " + JoinComma(names[1..])
  }

  function ValidateConfig(c: Config): (r: Outcome)
    ensures r.Pass? <==> c.telegramBotToken != "" && c.geminiApiKey != ""
    ensures r.Throw? ==> r.message == MISSING_PREFIX + JoinComma(Missing(c))
  {
    var missing := Missing(c);
    if |missing| > 0 then
      Throw(MISSING_PREFIX + JoinComma(missing))
    else Pass
  }

  /** The message names the missing settings in a fixed order, separated by
      `, `; the webhook secret never makes validation fail. */
  lemma ValidateConfigMessages(c: Config)
    ensures c.telegramBotToken == "" && c.geminiApiKey == "" ==>
      ValidateConfig(c) == Throw(MISSING_PREFIX + TOKEN_VAR + ", " + KEY_VAR)
    ensures c.telegramBotToken == "" && c.geminiApiKey != "" ==>
      ValidateConfig(c) == Throw(MISSING_PREFIX + TOKEN_VAR)
    ensures c.telegramBotToken != "" && c.geminiApiKey == "" ==>
      ValidateConfig(c) == Throw(MISSING_PREFIX + KEY_VAR)
    ensures ValidateConfig(c) == ValidateConfig(c.(telegramWebhookSecret := ""))
  {
    if c.telegramBotToken == "" && c.geminiApiKey == "" {
      var m := Missing(c);
      assert m == [TOKEN_VAR, KEY_VAR];
      assert m[1..] == [KEY_VAR];
      assert JoinComma(m) == TOKEN_VAR + ", " + KEY_VAR;
    }
  }
}
