/**
 * The shared `Config` class: settings read once from the environment when
 * the class is defined, the generation parameters of the two kinds of bot,
 * and the validators that report the first required setting that is missing.
 */
module Config {
  import opened Wrappers
  import opened Text
  import opened Environment

  /** The integer settings of the class body. */
  datatype IntSetting = ImapPort | SmtpPort | MaxLength | EmailMaxTokens | EmailTopK | EmailCheckInterval

  /** The environment variable an integer setting is read from. */
  function Key(setting: IntSetting): string {
    match setting
    case ImapPort => "IMAP_PORT"
    case SmtpPort => "SMTP_PORT"
    case MaxLength => "MAX_LENGTH"
    case EmailMaxTokens => "EMAIL_MAX_TOKENS"
    case EmailTopK => "EMAIL_TOP_K"
    case EmailCheckInterval => "EMAIL_CHECK_INTERVAL"
  }

  /** The numeral an integer setting takes when its variable is unset. */
  function Default(setting: IntSetting): string {
    match setting
    case ImapPort => "993"
    case SmtpPort => "587"
    case MaxLength => "2048"
    case EmailMaxTokens => "1500"
    case EmailTopK => "50"
    case EmailCheckInterval => "30"
  }

  /** The integer settings in the order the class body converts them. */
  const IntSettings: seq<IntSetting> := [ImapPort, SmtpPort, MaxLength, EmailMaxTokens, EmailTopK, EmailCheckInterval]

  /** `int(os.getenv(key, default))` for one setting. */
  function Convert(env: Env, setting: IntSetting): Option<int> {
    GetenvInt(env, Key(setting), Default(setting))
  }

  /** Converting a list of integer settings in order: their values, or the
    * first setting `int()` rejects. */
  datatype Parsed = Values(values: seq<int>) | BadInteger(setting: IntSetting)

  /** The position of the first `None` in `xs`, or its length when there is none. */
  function FirstNone<T>(xs: seq<Option<T>>): (n: nat)
    ensures n <= |xs|
    ensures forall j :: 0 <= j < n ==> xs[j].Some?
    ensures n < |xs| ==> xs[n].None?
  {
    if xs == [] || xs[0].None? then 0
    else
      var n := FirstNone(xs[1..]);
      assert forall j :: 1 <= j <= n ==> xs[j] == xs[1..][j - 1];
      n + 1
  }

  /** Keeps the values of `conversions` if all are present, and otherwise
    * names the setting of the first one missing. */
  function Collect(settings: seq<IntSetting>, conversions: seq<Option<int>>): (r: Parsed)
    requires |conversions| == |settings|
    ensures r.Values? <==> forall i :: 0 <= i < |settings| ==> conversions[i].Some?
    ensures r.Values? ==> |r.values| == |settings|
    ensures r.Values? ==> forall i :: 0 <= i < |settings| ==> Some(r.values[i]) == conversions[i]
    ensures r.BadInteger? ==>
      exists i :: (0 <= i < |settings| && settings[i] == r.setting && conversions[i].None?
        && forall j :: 0 <= j < i ==> conversions[j].Some?)
  {
    var n := FirstNone(conversions);
    if n < |settings| then BadInteger(settings[n])
    else Values(seq(|settings|, i requires 0 <= i < |settings| => conversions[i].value))
  }

  /** Each setting of `settings` converted in turn. */
  function Conversions(env: Env, settings: seq<IntSetting>): (r: seq<Option<int>>)
    ensures |r| == |settings|
    ensures forall i :: 0 <= i < |settings| ==> r[i] == Convert(env, settings[i])
  {
    seq(|settings|, i requires 0 <= i < |settings| => Convert(env, settings[i]))
  }

  /** Sampling parameters handed to `model.generate`; the floating-point ones
    * are not part of this model. */
  datatype GenerationConfig = GenerationConfig(maxNewTokens: int, doSample: bool, topK: int)

  /** `TELEGRAM_GENERATION_CONFIG`: fixed, not read from the environment. */
  const TelegramGenerationConfig: GenerationConfig := GenerationConfig(512, true, 50)

  /** The class attributes of `Config` that the validators, the bots and the
    * generation step read; host names, the model name, the device, the
    * Hugging Face token and the logging settings are plain string reads. */
  datatype Settings = Settings(
    telegramToken: string, emailAddress: string, emailPassword: string, emailDomain: string,
    imapPort: int, smtpPort: int, maxLength: int,
    emailGeneration: GenerationConfig, emailCheckInterval: int,
    emailSignature: string, emailDisclaimer: string,
    useQuantization: bool, loadIn4Bit: bool)

  /** Defining the class either succeeds or raises ValueError at an integer
    * setting `int()` rejects. */
  datatype Load = Loaded(settings: Settings) | InvalidInteger(setting: IntSetting)

  const DefaultSignature: string := "Assistant IA Code du Travail - ColonyLab"

  const DefaultDisclaimer: string :=
    "Cette réponse est fournie à titre informatif uniquement. "
    + "Pour des conseils juridiques précis et personnalisés, "
    + "consultez un avocat spécialisé en droit du travail."

  /** The spelling a boolean setting is compared with, and its default. */
  const TrueText: string := "true"

  lemma TrueLower()
    ensures Lower(TrueText) == TrueText
  {
    LowerKeepsLowercase(TrueText);
  }

  /** A boolean setting: true exactly when its value, lower-cased, is `true`;
    * unset counts as `true`. */
  predicate Flag(env: Env, key: string)
    ensures key !in env ==> Flag(env, key)
    ensures Flag(env, key) ==> key !in env || |env[key]| == 4
  {
    TrueLower();
    Lower(GetenvOr(env, key, TrueText)) == TrueText
  }

  /** The characters of `a` and `b` agree once ASCII letters are lower-cased. */
  predicate EqualsIgnoringCase(a: string, b: string) {
    |a| == |b| && forall i :: 0 <= i < |a| ==> LowerChar(a[i]) == LowerChar(b[i])
  }

  /** A flag is on exactly when it is unset or spelled `true` in any mix of cases. */
  lemma FlagIff(env: Env, key: string)
    ensures Flag(env, key) <==> key !in env || EqualsIgnoringCase(env[key], "true")
  {
    var v := GetenvOr(env, key, TrueText);
    TrueLower();
    if EqualsIgnoringCase(v, TrueText) {
      assert Lower(v) == Lower(TrueText);
    }
    if Flag(env, key) {
      assert forall i :: 0 <= i < |v| ==> LowerChar(v[i]) == Lower(v)[i];
    }
  }

  /** The class body: the settings of the environment, or the first integer
    * setting that does not convert. */
  function LoadConfig(env: Env): (r: Load)
    ensures r.Loaded? <==> Collect(IntSettings, Conversions(env, IntSettings)).Values?
    ensures r.InvalidInteger? ==> r.setting == Collect(IntSettings, Conversions(env, IntSettings)).setting
    ensures r.Loaded? ==> r.settings.telegramToken == GetenvOr(env, "TELEGRAM_BOT_TOKEN", "")
    ensures r.Loaded? ==> r.settings.emailAddress == GetenvOr(env, "EMAIL_ADDRESS", "")
    ensures r.Loaded? ==> r.settings.emailPassword == GetenvOr(env, "EMAIL_PASSWORD", "")
    ensures r.Loaded? ==> r.settings.emailDomain == GetenvOr(env, "EMAIL_DOMAIN", "")
    ensures r.Loaded? ==> Some(r.settings.imapPort) == Convert(env, ImapPort)
    ensures r.Loaded? ==> Some(r.settings.smtpPort) == Convert(env, SmtpPort)
    ensures r.Loaded? ==> Some(r.settings.maxLength) == Convert(env, MaxLength)
    ensures r.Loaded? ==> Some(r.settings.emailGeneration.maxNewTokens) == Convert(env, EmailMaxTokens)
    ensures r.Loaded? ==> Some(r.settings.emailGeneration.topK) == Convert(env, EmailTopK)
    ensures r.Loaded? ==> Some(r.settings.emailCheckInterval) == Convert(env, EmailCheckInterval)
    ensures r.Loaded? ==> r.settings.emailSignature == GetenvOr(env, "EMAIL_SIGNATURE", DefaultSignature)
    ensures r.Loaded? ==> r.settings.emailDisclaimer == GetenvOr(env, "EMAIL_DISCLAIMER", DefaultDisclaimer)
    ensures r.Loaded? ==> (r.settings.useQuantization <==> Flag(env, "USE_QUANTIZATION"))
    ensures r.Loaded? ==> (r.settings.loadIn4Bit <==> Flag(env, "LOAD_IN_4BIT"))
  {
    match Collect(IntSettings, Conversions(env, IntSettings))
    case BadInteger(setting) => InvalidInteger(setting)
    case Values(vs) =>
      Loaded(Settings(
        GetenvOr(env, "TELEGRAM_BOT_TOKEN", ""), GetenvOr(env, "EMAIL_ADDRESS", ""),
        GetenvOr(env, "EMAIL_PASSWORD", ""), GetenvOr(env, "EMAIL_DOMAIN", ""),
        vs[0], vs[1], vs[2],
        GenerationConfig(vs[3], true, vs[4]), vs[5],
        GetenvOr(env, "EMAIL_SIGNATURE", DefaultSignature), GetenvOr(env, "EMAIL_DISCLAIMER", DefaultDisclaimer),
        Flag(env, "USE_QUANTIZATION"), Flag(env, "LOAD_IN_4BIT")))
  }

  lemma EmailMaxTokensDefault(env: Env)
    requires "EMAIL_MAX_TOKENS" !in env
    ensures Convert(env, EmailMaxTokens) == Some(1500)
  {
    GetenvIntDefault(env, "EMAIL_MAX_TOKENS", "1500", 1500);
  }

  /** With EMAIL_MAX_TOKENS unset, email replies may run to 1500 new tokens,
    * against the fixed 512 of the Telegram bot. */
  lemma EmailTokenBudgetDefault(env: Env)
    requires "EMAIL_MAX_TOKENS" !in env && LoadConfig(env).Loaded?
    ensures LoadConfig(env).settings.emailGeneration.maxNewTokens == 1500
    ensures TelegramGenerationConfig.maxNewTokens == 512
  {
    EmailMaxTokensDefault(env);
  }

  /** The outcome of a validator: it returns True, or raises ValueError
    * naming the missing setting. */
  datatype Validation = Valid | Missing(key: string)

  /** The position of the first setting in `required` whose value is empty,
    * or the length when there is none. */
  function FirstEmptyIndex(required: seq<(string, string)>): (n: nat)
    ensures n <= |required|
    ensures forall j :: 0 <= j < n ==> required[j].1 != ""
    ensures n < |required| ==> required[n].1 == ""
  {
    if required == [] || required[0].1 == "" then 0
    else
      var n := FirstEmptyIndex(required[1..]);
      assert forall j :: 1 <= j <= n ==> required[j] == required[1..][j - 1];
      n + 1
  }

  /** The first setting in `required` whose value is empty. */
  function FirstEmpty(required: seq<(string, string)>): (r: Validation)
    ensures r == Valid <==> forall i :: 0 <= i < |required| ==> required[i].1 != ""
    ensures r.Missing? ==>
      exists i :: (0 <= i < |required| && required[i] == (r.key, "")
        && forall j :: 0 <= j < i ==> required[j].1 != "")
  {
    var n := FirstEmptyIndex(required);
    if n < |required| then Missing(required[n].0) else Valid
  }

  /** `validate_telegram`. */
  function ValidateTelegram(c: Settings): (r: Validation)
    ensures r == Valid <==> c.telegramToken != ""
    ensures r != Valid ==> r == Missing("TELEGRAM_BOT_TOKEN")
  {
    if c.telegramToken == "" then Missing("TELEGRAM_BOT_TOKEN") else Valid
  }

  /** `validate_email`: address, then password, then domain. */
  function ValidateEmail(c: Settings): (r: Validation)
    ensures r == Valid <==> c.emailAddress != "" && c.emailPassword != "" && c.emailDomain != ""
    ensures r == Missing("EMAIL_ADDRESS") <==> c.emailAddress == ""
    ensures r == Missing("EMAIL_PASSWORD") <==> c.emailAddress != "" && c.emailPassword == ""
    ensures r == Missing("EMAIL_DOMAIN") <==> c.emailAddress != "" && c.emailPassword != "" && c.emailDomain == ""
  {
    if c.emailAddress == "" then Missing("EMAIL_ADDRESS")
    else if c.emailPassword == "" then Missing("EMAIL_PASSWORD")
    else if c.emailDomain == "" then Missing("EMAIL_DOMAIN")
    else Valid
  }

  /** `validate_email` reports exactly the first empty setting of the
    * ordered list address, password, domain. */
  lemma ValidateEmailIsFirstEmpty(c: Settings)
    ensures ValidateEmail(c) == FirstEmpty([("EMAIL_ADDRESS", c.emailAddress),
      ("EMAIL_PASSWORD", c.emailPassword), ("EMAIL_DOMAIN", c.emailDomain)])
  {
    var required := [("EMAIL_ADDRESS", c.emailAddress), ("EMAIL_PASSWORD", c.emailPassword), ("EMAIL_DOMAIN", c.emailDomain)];
    assert required[1..] == [("EMAIL_PASSWORD", c.emailPassword), ("EMAIL_DOMAIN", c.emailDomain)];
    assert required[1..][1..] == [("EMAIL_DOMAIN", c.emailDomain)];
    var n := FirstEmptyIndex(required);
    assert required[0].1 == c.emailAddress && required[1].1 == c.emailPassword && required[2].1 == c.emailDomain;
  }

  /** On a loaded configuration, `validate_email` passes exactly when the
    * three email variables are set to non-empty values, the same condition
    * the Docker-Mailserver bot's constructor checks. */
  lemma ValidateEmailFromEnv(env: Env)
    requires LoadConfig(env).Loaded?
    ensures ValidateEmail(LoadConfig(env).settings) == Valid
      <==> IsSet(env, "EMAIL_ADDRESS") && IsSet(env, "EMAIL_PASSWORD") && IsSet(env, "EMAIL_DOMAIN")
  {
  }

  /** `validate_all`: the Telegram check runs first. */
  function ValidateAll(c: Settings): (r: Validation)
    ensures r == Valid <==> ValidateTelegram(c) == Valid && ValidateEmail(c) == Valid
    ensures c.telegramToken == "" ==> r == Missing("TELEGRAM_BOT_TOKEN")
    ensures c.telegramToken != "" ==> r == ValidateEmail(c)
  {
    var telegram := ValidateTelegram(c);
    if telegram.Missing? then telegram else ValidateEmail(c)
  }
}
