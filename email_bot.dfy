/**
 * The Gmail email bot (`EmailBot`): the credentials check of its
 * constructor, the fallbacks of `generate_response` and the fixed reply text
 * of `format_email_response`. This bot has no polling cycle of its own.
 */
module EmailBot {
  import opened Wrappers
  import opened Text
  import opened Environment
  import opened ModelClient

  /** The attributes `__init__` sets; the servers and ports are fixed. */
  datatype Settings = Settings(device: string, address: string, password: string, smtpPort: int, imapPort: int)

  /** `__init__` either yields the bot's settings or raises ValueError
    * because a credential is unset or empty. */
  datatype Init = Ready(settings: Settings) | MissingCredentials

  const SmtpPort: int := 587
  const ImapPort: int := 993

  /** `EmailBot.__init__`: address and password must both be set and
    * non-empty; the device is `cuda` when a GPU is available. */
  function NewSettings(env: Env, cudaAvailable: bool): (r: Init)
    ensures r.Ready? <==> IsSet(env, "EMAIL_ADDRESS") && IsSet(env, "EMAIL_PASSWORD")
    ensures r.Ready? ==> r.settings.address == env["EMAIL_ADDRESS"] && r.settings.password == env["EMAIL_PASSWORD"]
    ensures r.Ready? ==> r.settings.smtpPort == 587 && r.settings.imapPort == 993
    ensures r.Ready? ==> r.settings.device == (if cudaAvailable then "cuda" else "cpu")
  {
    if !IsSet(env, "EMAIL_ADDRESS") || !IsSet(env, "EMAIL_PASSWORD") then MissingCredentials
    else
      Ready(Settings(if cudaAvailable then "cuda" else "cpu",
        env["EMAIL_ADDRESS"], env["EMAIL_PASSWORD"], SmtpPort, ImapPort))
  }

  /** Written in three parts so that its first and last characters are at hand. */
  const Fallback: string := "J" + "e n'ai pas pu générer une réponse appropriée à votre question" + "."

  /**
   * `generate_response`: the not-loaded message when the model or tokenizer
   * is missing, the error text of a failed generation, and otherwise the
   * stripped output, or the fallback sentence when that is empty. The
   * question goes into the prompt unstripped and nothing else cleans the
   * output.
   */
  function GenerateResponse(backend: Backend, question: string): (r: string)
    ensures !backend.loaded ==> r == NotLoadedMessage
    ensures backend.loaded && backend.generate(question).Raised? ==>
      r == ErrorPrefix + backend.generate(question).error
    ensures backend.loaded && backend.generate(question).Decoded? ==>
      (r == Fallback <==> Strip(backend.generate(question).text) in {[], Fallback})
    ensures backend.loaded && backend.generate(question).Decoded? && Strip(backend.generate(question).text) != [] ==>
      r == Strip(backend.generate(question).text)
  {
    if !backend.loaded then NotLoadedMessage
    else
      match backend.generate(question)
      case Raised(e) => ErrorPrefix + e
      case Decoded(t) =>
        var response := Strip(t);
        if response == [] then Fallback else response
  }

  /** A generation that completes always yields a non-empty answer with no
    * surrounding whitespace, whatever the model produced. */
  lemma DecodedAnswerNonEmpty(backend: Backend, question: string)
    requires backend.loaded && backend.generate(question).Decoded?
    ensures GenerateResponse(backend, question) != []
    ensures Strip(GenerateResponse(backend, question)) == GenerateResponse(backend, question)
  {
    var r := GenerateResponse(backend, question);
    if Strip(backend.generate(question).text) == [] {
      assert r == Fallback;
      assert Fallback[0] == "J"[0] && Fallback[|Fallback| - 1] == "."[0];
    }
    StripFixpoint(r);
  }

  const Greeting: string := "Bonjour,\n\n"

  const Thanks: string :=
    "Merci pour votre question concernant le Code du Travail français. "
    + "Voici ma réponse basée sur ma connaissance du droit du travail :"

  /** The `introduction` of `format_email_response`. */
  const Introduction: string := Greeting + Thanks

  /** Everything the reply puts before the model's answer. */
  const Header: string := Introduction + "\n\n"

  const Disclaimer: string :=
    "\U{26A0}\U{FE0F} Cette réponse est fournie à titre informatif uniquement. "
    + "Pour des conseils juridiques précis et personnalisés, "
    + "je vous recommande de consulter un avocat spécialisé en droit du travail."

  const Signature: string := "Assistant IA Code du Travail"

  const Closing: string := "\n\n" + "Cordialement,\n" + Signature

  /** The `footer` of `format_email_response`. */
  const Footer: string := "\n\n---\n" + Disclaimer + Closing

  /** `format_email_response`; the question plays no part. */
  function FormatEmailResponse(question: string, aiResponse: string): (r: string)
    ensures StartsWith(r, "Bonjour,\n\n")
    ensures |Header| + |aiResponse| <= |r| && r[|Header|..|Header| + |aiResponse|] == aiResponse
    ensures EndsWith(r, Footer)
    ensures EndsWith(r, "Assistant IA Code du Travail")
  {
    var r := Introduction + "\n\n" + aiResponse + Footer;
    assert r == Header + aiResponse + Footer;
    Framed(Header, aiResponse, Footer);
    StartsWithAppend(Greeting, Thanks);
    StartsWithAppend(Introduction, "\n\n");
    StartsWithTransitive(r, Header, Introduction);
    StartsWithTransitive(r, Introduction, Greeting);
    EndsWithAppend("\n\n---\n" + Disclaimer, Closing);
    EndsWithAppend("\n\n" + "Cordialement,\n", Signature);
    EndsWithTransitive(r, Footer, Closing);
    EndsWithTransitive(r, Closing, Signature);
    r
  }

  /** Recovers the model's answer from a reply body, if the body has the reply's shape. */
  function ExtractAnswer(body: string): Option<string> {
    if |Header| + |Footer| <= |body| && StartsWith(body, Header) && EndsWith(body, Footer)
    then Some(body[|Header|..|body| - |Footer|])
    else None
  }

  /** The answer can be read back out of every formatted reply. */
  lemma ExtractAnswerRoundTrip(question: string, aiResponse: string)
    ensures ExtractAnswer(FormatEmailResponse(question, aiResponse)) == Some(aiResponse)
  {
    var r := FormatEmailResponse(question, aiResponse);
    assert r == Header + aiResponse + Footer;
    Framed(Header, aiResponse, Footer);
  }

  /** Two replies are equal exactly when they carry the same answer: the
    * question never changes the reply, and distinct answers never collide. */
  lemma FormatDeterminedByAnswer(q1: string, a1: string, q2: string, a2: string)
    ensures FormatEmailResponse(q1, a1) == FormatEmailResponse(q2, a2) <==> a1 == a2
  {
    ExtractAnswerRoundTrip(q1, a1);
    ExtractAnswerRoundTrip(q2, a2);
  }

  /** The fixed disclaimer appears in every reply, whatever the answer. */
  lemma FormatContainsDisclaimer(question: string, aiResponse: string)
    ensures Contains(FormatEmailResponse(question, aiResponse), Disclaimer)
  {
    ContainsInfix("\n\n---\n", Disclaimer, Closing);
    ContainsSuffix(FormatEmailResponse(question, aiResponse), Footer, Disclaimer);
  }
}
