/**
 * The ProtonMail email bot (`ProtonMailBot`), which reaches ProtonMail through
 * the Bridge's local IMAP and SMTP servers: its settings, the reply text with
 * its dated footer, the answer clean-up, and its polling cycle, in which a
 * message is recorded as processed and flagged \Seen only after its reply is
 * sent.
 */
module ProtonMail {
  import opened Wrappers
  import opened Text
  import opened Environment
  import opened Imap
  import opened Smtp
  import opened ModelClient
  import Config

  const DefaultSignature: string := "Assistant IA Code du Travail - ColonyLab"

  const DefaultDisclaimer: string :=
    "Cette réponse est fournie à titre informatif uniquement. "
    + "Pour des conseils juridiques précis et personnalisés, "
    + "consultez un avocat spécialisé en droit du travail."

  /** The attributes `__init__` sets from the environment. Host names and the
    * floating-point generation parameters are not part of this model. */
  datatype Settings = Settings(
    device: string, address: string, password: string,
    imapPort: int, smtpPort: int, maxTokens: int, topK: int,
    signature: string, disclaimer: string)

  /** Why `__init__` raises ValueError. */
  datatype InitError = InvalidInteger(key: string) | MissingCredentials

  datatype Init = Ready(settings: Settings) | Failed(error: InitError)

  /** The integer settings `__init__` reads, in the order it converts them:
    * each variable with the numeral used when it is unset. */
  const IntVars: seq<(string, string)> := [
    ("PROTONMAIL_IMAP_PORT", "1143"), ("PROTONMAIL_SMTP_PORT", "1025"),
    ("EMAIL_MAX_TOKENS", "1500"), ("EMAIL_TOP_K", "50")]

  /** `int(os.getenv(key, default))` for each of `IntVars`, in order. */
  function Conversions(env: Env): (r: seq<Option<int>>)
    ensures |r| == |IntVars|
    ensures forall i :: 0 <= i < |IntVars| ==> r[i] == GetenvInt(env, IntVars[i].0, IntVars[i].1)
  {
    seq(|IntVars|, i requires 0 <= i < |IntVars| => GetenvInt(env, IntVars[i].0, IntVars[i].1))
  }

  /** Every integer setting converts. */
  predicate IntsParse(env: Env) {
    Config.FirstNone(Conversions(env)) == |IntVars|
  }

  /**
   * `ProtonMailBot.__init__`: the device is `cuda` exactly when a GPU is
   * available; integer settings are converted in the order they are read,
   * the first that `int()` rejects is reported, and only then are the address
   * and password checked.
   */
  function NewSettings(env: Env, cudaAvailable: bool): (r: Init)
    ensures r.Ready? <==> IntsParse(env) && IsSet(env, "PROTONMAIL_ADDRESS") && IsSet(env, "PROTONMAIL_PASSWORD")
    ensures !IntsParse(env) ==> r == Failed(InvalidInteger(IntVars[Config.FirstNone(Conversions(env))].0))
    ensures IntsParse(env) && !r.Ready? ==> r == Failed(MissingCredentials)
    ensures r.Ready? ==> r.settings.address == env["PROTONMAIL_ADDRESS"] && r.settings.password == env["PROTONMAIL_PASSWORD"]
    ensures r.Ready? ==> r.settings.device == (if cudaAvailable then "cuda" else "cpu")
    ensures r.Ready? ==> Some(r.settings.imapPort) == GetenvInt(env, "PROTONMAIL_IMAP_PORT", "1143")
    ensures r.Ready? ==> Some(r.settings.smtpPort) == GetenvInt(env, "PROTONMAIL_SMTP_PORT", "1025")
    ensures r.Ready? ==> Some(r.settings.maxTokens) == GetenvInt(env, "EMAIL_MAX_TOKENS", "1500")
    ensures r.Ready? ==> Some(r.settings.topK) == GetenvInt(env, "EMAIL_TOP_K", "50")
    ensures r.Ready? ==> r.settings.signature == GetenvOr(env, "EMAIL_SIGNATURE", DefaultSignature)
    ensures r.Ready? ==> r.settings.disclaimer == GetenvOr(env, "EMAIL_DISCLAIMER", DefaultDisclaimer)
  {
    var conversions := Conversions(env);
    var n := Config.FirstNone(conversions);
    if n < |IntVars| then Failed(InvalidInteger(IntVars[n].0))
    else if !IsSet(env, "PROTONMAIL_ADDRESS") || !IsSet(env, "PROTONMAIL_PASSWORD") then Failed(MissingCredentials)
    else
      Ready(Settings(
        if cudaAvailable then "cuda" else "cpu", env["PROTONMAIL_ADDRESS"], env["PROTONMAIL_PASSWORD"],
        conversions[0].value, conversions[1].value, conversions[2].value, conversions[3].value,
        GetenvOr(env, "EMAIL_SIGNATURE", DefaultSignature), GetenvOr(env, "EMAIL_DISCLAIMER", DefaultDisclaimer)))
  }

  /** The reported setting is the first, in the order `__init__` reads them,
    * whose value `int()` rejects; every one before it converted. */
  lemma NewSettingsFirstFailure(env: Env, cudaAvailable: bool)
    requires !IntsParse(env)
    ensures exists i :: (0 <= i < |IntVars|
      && NewSettings(env, cudaAvailable) == Failed(InvalidInteger(IntVars[i].0))
      && GetenvInt(env, IntVars[i].0, IntVars[i].1).None?
      && (forall j :: 0 <= j < i ==> GetenvInt(env, IntVars[j].0, IntVars[j].1).Some?))
  {
    var n := Config.FirstNone(Conversions(env));
    assert 0 <= n < |IntVars| && NewSettings(env, cudaAvailable) == Failed(InvalidInteger(IntVars[n].0));
  }

  /** A wall-clock reading, as `datetime.now()` gives it. */
  datatype DateTime = DateTime(year: nat, month: nat, day: nat, hour: nat, minute: nat)

  predicate ValidDateTime(t: DateTime) {
    1 <= t.year <= 9999 && 1 <= t.month <= 12 && 1 <= t.day <= 31 && t.hour < 24 && t.minute < 60
  }

  /** `%d/%m/%Y`, the year written without padding as the C library does. */
  function DatePart(t: DateTime): string {
    Pad2(t.day) + "/" + Pad2(t.month) + "/" + NatToString(t.year)
  }

  /** `%H:%M`. */
  function TimePart(t: DateTime): string {
    Pad2(t.hour) + ":" + Pad2(t.minute)
  }

  /** `strftime('%d/%m/%Y à %H:%M')`. */
  function Stamp(t: DateTime): string {
    DatePart(t) + " à " + TimePart(t)
  }

  lemma DatePartFields(t: DateTime)
    requires ValidDateTime(t)
    ensures var r := DatePart(t);
      |r| >= 7
      && AllDigits(r[..2]) && Value(r[..2]) == t.day && r[2] == '/'
      && AllDigits(r[3..5]) && Value(r[3..5]) == t.month && r[5] == '/'
      && AllDigits(r[6..]) && Value(r[6..]) == t.year
  {
    var d, m, y := Pad2(t.day), Pad2(t.month), NatToString(t.year);
    var r := d + "/" + m + "/" + y;
    assert |d| == 2 && |m| == 2;
    assert r[..2] == d;
    assert r[3..5] == m by {
      assert forall i :: 0 <= i < 2 ==> r[3..5][i] == m[i];
    }
    assert r[6..] == y;
  }

  lemma TimePartFields(t: DateTime)
    requires ValidDateTime(t)
    ensures var r := TimePart(t);
      |r| == 5
      && AllDigits(r[..2]) && Value(r[..2]) == t.hour && r[2] == ':'
      && AllDigits(r[3..]) && Value(r[3..]) == t.minute
  {
    var h, m := Pad2(t.hour), Pad2(t.minute);
    var r := h + ":" + m;
    assert r[..2] == h;
    assert r[3..] == m;
  }

  /** Every field of a valid reading can be read back from its stamp, the
    * date before the ` à ` separator and the time, in its last five
    * characters, after it. */
  lemma StampFields(t: DateTime)
    requires ValidDateTime(t)
    ensures var r := Stamp(t);
      |r| >= 15 && r[|r| - 8..|r| - 5] == " à "
      && DatePart(t) == r[..|r| - 8] && TimePart(t) == r[|r| - 5..]
      && AllDigits(r[..2]) && Value(r[..2]) == t.day
      && AllDigits(r[3..5]) && Value(r[3..5]) == t.month
      && AllDigits(r[6..|r| - 8]) && Value(r[6..|r| - 8]) == t.year
      && AllDigits(r[|r| - 5..|r| - 3]) && Value(r[|r| - 5..|r| - 3]) == t.hour
      && AllDigits(r[|r| - 2..]) && Value(r[|r| - 2..]) == t.minute
  {
    var date, time := DatePart(t), TimePart(t);
    DatePartFields(t);
    TimePartFields(t);
    var r := date + " à " + time;
    assert r[..|r| - 8] == date;
    assert r[|r| - 5..] == time;
    assert r[..2] == date[..2] && r[3..5] == date[3..5] && r[6..|r| - 8] == date[6..];
    assert r[|r| - 5..|r| - 3] == time[..2] && r[|r| - 2..] == time[3..];
  }

  const Greeting: string := "Bonjour,\n\n"

  const Thanks: string :=
    "Merci pour votre question concernant le Code du Travail français. "
    + "Voici ma réponse détaillée basée sur ma connaissance du droit du travail :\n\n"

  /** Everything `format_email_response` puts before the model's answer. */
  const Introduction: string := Greeting + Thanks

  /** `'=' * 60`, the rule that frames the notice. */
  const Rule: string := Repeat('=', 60)

  /** Everything in the footer before the disclaimer. */
  const NoticeLead: string := "\n\n" + Rule + "\n" + "\U{26A0}\U{FE0F}  CLAUSE DE NON-RESPONSABILITÉ\n\n"

  const Advice: string :=
    "\n\nPour toute question urgente ou complexe, nous vous recommandons "
    + "de consulter directement un professionnel du droit.\n\n"

  const AutomaticNotice: string := "Email automatique - Ne pas répondre directement à ce message\nGénéré le "

  /** Everything in the footer after the disclaimer. */
  function Closing(signature: string, stamp: string): (r: string)
    ensures EndsWith(r, stamp)
  {
    EndsWithAppend(Advice + "Cordialement,\n" + signature + "\n" + Rule + "\n" + AutomaticNotice, stamp);
    Advice + "Cordialement,\n" + signature + "\n" + Rule + "\n" + AutomaticNotice + stamp
  }

  /** The block after the answer, which ends with the time of formatting. */
  function Footer(disclaimer: string, signature: string, stamp: string): (r: string)
    ensures EndsWith(r, stamp)
  {
    EndsWithAppend(NoticeLead + disclaimer, Closing(signature, stamp));
    EndsWithTransitive(NoticeLead + disclaimer + Closing(signature, stamp), Closing(signature, stamp), stamp);
    NoticeLead + disclaimer + Closing(signature, stamp)
  }

  /** `format_email_response`, formatted at time `now`; the question and the
    * sender address play no part. */
  function FormatEmailResponse(settings: Settings, question: string, aiResponse: string, senderEmail: string, now: DateTime): (r: string)
    ensures StartsWith(r, Greeting)
    ensures |Introduction| + |aiResponse| <= |r| && r[|Introduction|..|Introduction| + |aiResponse|] == aiResponse
    ensures EndsWith(r, Footer(settings.disclaimer, settings.signature, Stamp(now)))
    ensures EndsWith(r, Stamp(now))
  {
    var footer := Footer(settings.disclaimer, settings.signature, Stamp(now));
    Framed(Introduction, aiResponse, footer);
    StartsWithAppend(Greeting, Thanks);
    StartsWithTransitive(Introduction + aiResponse + footer, Introduction, Greeting);
    EndsWithTransitive(Introduction + aiResponse + footer, footer, Stamp(now));
    Introduction + aiResponse + footer
  }

  /** Recovers the model's answer from a reply body formatted with `stamp`. */
  function ExtractAnswer(settings: Settings, stamp: string, body: string): Option<string> {
    var footer := Footer(settings.disclaimer, settings.signature, stamp);
    if |Introduction| + |footer| <= |body| && StartsWith(body, Introduction) && EndsWith(body, footer)
    then Some(body[|Introduction|..|body| - |footer|])
    else None
  }

  /** The answer can be read back out of every formatted reply. */
  lemma ExtractAnswerRoundTrip(settings: Settings, question: string, aiResponse: string, senderEmail: string, now: DateTime)
    ensures ExtractAnswer(settings, Stamp(now), FormatEmailResponse(settings, question, aiResponse, senderEmail, now)) == Some(aiResponse)
  {
    Framed(Introduction, aiResponse, Footer(settings.disclaimer, settings.signature, Stamp(now)));
  }

  /** The disclaimer text appears in every reply, whatever the answer and the time. */
  lemma FormatContainsDisclaimer(settings: Settings, question: string, aiResponse: string, senderEmail: string, now: DateTime)
    ensures Contains(FormatEmailResponse(settings, question, aiResponse, senderEmail, now), settings.disclaimer)
  {
    var footer := Footer(settings.disclaimer, settings.signature, Stamp(now));
    ContainsInfix(NoticeLead, settings.disclaimer, Closing(settings.signature, Stamp(now)));
    ContainsSuffix(FormatEmailResponse(settings, question, aiResponse, senderEmail, now), footer, settings.disclaimer);
  }

  /**
   * `_clean_response`: the regular-expression clean-up, taken as the
   * abstract step `scrub`, then `strip()`, then a full stop appended unless
   * the text already ends with one.
   */
  function CleanResponse(scrub: string -> string, response: string): (r: string)
    ensures EndsWith(r, ".")
    ensures var t := Strip(scrub(response));
      StartsWith(r, t) && |r| <= |t| + 1
    ensures !IsSpace(r[0])
  {
    var t := Strip(scrub(response));
    if EndsWith(t, ".") then t else t + "."
  }

  /** A text already ending with a full stop is kept as stripped; otherwise
    * exactly one full stop is added. */
  lemma CleanResponseAddsOnePeriod(scrub: string -> string, response: string)
    ensures var t := Strip(scrub(response));
      CleanResponse(scrub, response) == t <==> EndsWith(t, ".")
  {
  }

  /** A clean-up that leaves nothing yields a lone full stop. */
  lemma CleanResponseOfNothing(scrub: string -> string, response: string)
    requires AllSpace(scrub(response))
    ensures CleanResponse(scrub, response) == "."
  {
    StripEmptyIff(scrub(response));
  }

  /** Cleaning a cleaned response again changes nothing, provided the
    * regular-expression step leaves it alone. */
  lemma CleanResponseStable(scrub: string -> string, response: string)
    requires scrub(CleanResponse(scrub, response)) == CleanResponse(scrub, response)
    ensures CleanResponse(scrub, CleanResponse(scrub, response)) == CleanResponse(scrub, response)
  {
    var r := CleanResponse(scrub, response);
    assert r[|r| - 1] == '.' && !IsSpace('.');
    StripFixpoint(r);
    assert Strip(scrub(r)) == r;
  }

  const Fallback: string :=
    "Je n'ai pas pu générer une réponse appropriée à votre question. Pourriez-vous la reformuler ?"

  /** `generate_response`: the not-loaded message, the error text of a failed
    * generation, or the cleaned output, where an output that strips to
    * nothing is first replaced by the fallback sentence. */
  function GenerateResponse(backend: Backend, scrub: string -> string, question: string): (r: string)
    ensures !backend.loaded ==> r == NotLoadedMessage
    ensures backend.loaded && backend.generate(Strip(question)).Raised? ==>
      r == ErrorPrefix + backend.generate(Strip(question)).error
    ensures backend.loaded && backend.generate(Strip(question)).Decoded? ==>
      var text := Strip(backend.generate(Strip(question)).text);
      r == CleanResponse(scrub, if text == [] then Fallback else text) && EndsWith(r, ".")
  {
    if !backend.loaded then NotLoadedMessage
    else
      match backend.generate(Strip(question))
      case Raised(e) => ErrorPrefix + e
      case Decoded(t) =>
        var text := Strip(t);
        CleanResponse(scrub, if text == [] then Fallback else text)
  }

  /** The text whose md5 digest identifies a message: the three fields run
    * together with no separator. */
  function HashInput(m: Message): (r: string)
    ensures |r| == |m.messageId| + |m.subject| + |m.sender|
    ensures StartsWith(r, m.messageId) && EndsWith(r, m.sender)
    ensures r[|m.messageId|..|r| - |m.sender|] == m.subject
  {
    Framed(m.messageId, m.subject, m.sender);
    m.messageId + m.subject + m.sender
  }

  /** Without a separator, different messages can share a key: moving the
    * boundary between Message-ID and Subject leaves the hashed text as it is. */
  lemma HashInputAmbiguous()
    ensures var a := Message("<1@x>", "Re", "a@b", "q");
      var b := Message("<1@x>R", "e", "a@b", "q");
      a != b && HashInput(a) == HashInput(b)
  {
    assert HashInput(Message("<1@x>", "Re", "a@b", "q")) == "<1@x>Rea@b";
    assert HashInput(Message("<1@x>R", "e", "a@b", "q")) == "<1@x>Rea@b";
  }

  /** The bot's collaborators: its settings, the model, the clean-up step,
    * md5 as an uninterpreted function, and the clock: `clock(n)` is what
    * `datetime.now()` reads when the bot formats its `n`-th reply (counting
    * from 0 over the life of the bot), so every reply is stamped afresh. */
  datatype Context = Context(
    settings: Settings, backend: Backend, scrub: string -> string, md5: string -> string,
    clock: nat -> DateTime)

  function Key(ctx: Context, m: Message): string {
    ctx.md5(HashInput(m))
  }

  /** The reply `process_email` sends to message `m` as the bot's `n`-th reply. */
  function Answer(ctx: Context, n: nat, m: Message): Reply {
    var aiResponse := GenerateResponse(ctx.backend, ctx.scrub, m.body);
    Reply(m.sender, ReplySubject(m.subject), FormatEmailResponse(ctx.settings, m.body, aiResponse, m.sender, ctx.clock(n)))
  }

  /** The reply goes to the sender under the `Re:` subject, carries the
    * model's answer to the stripped body verbatim, and ends with the time it
    * was formatted. */
  lemma AnswerCarriesResponse(ctx: Context, n: nat, m: Message)
    ensures var reply := Answer(ctx, n, m);
      reply.to == m.sender && reply.subject == ReplySubject(m.subject)
      && ExtractAnswer(ctx.settings, Stamp(ctx.clock(n)), reply.body) == Some(GenerateResponse(ctx.backend, ctx.scrub, m.body))
      && EndsWith(reply.body, Stamp(ctx.clock(n)))
  {
    ExtractAnswerRoundTrip(ctx.settings, m.body, GenerateResponse(ctx.backend, ctx.scrub, m.body), m.sender, ctx.clock(n));
  }

  /** What `process_email` derives from a message: its key in
    * `processed_emails` and its reply as the `n`-th reply sent. The steps below hold
    * for any choice of the two; `Handling` is the bot's own. */
  datatype Handler = Handler(key: Message -> string, answer: (nat, Message) -> Reply)

  function Handling(ctx: Context): Handler {
    Handler(m => Key(ctx, m), (n: nat, m: Message) => Answer(ctx, n, m))
  }

  /** Where `process_email` stops for one message. */
  datatype Outcome = FetchFailed | ParseFailed | AlreadyProcessed | EmptyBody | Sent | SendFailed

  /** The bot's `processed_emails`, the server mailbox and the SMTP attempts so far. */
  datatype State = State(processed: set<string>, box: seq<Entry>, attempts: seq<Reply>)

  /**
   * `process_email` for message `id`, fetched with data item `item`: the
   * duplicate check, the empty-body gate, then the send; after a successful
   * send the key is recorded and the message flagged \Seen with STORE.
   * The program as written fetches `Rfc822`.
   */
  function Step(h: Handler, item: FetchItem, accepts: Reply -> bool, st: State, id: int): (res: (State, Outcome))
    ensures FlagsOnlyRise(st.box, res.0.box)
    ensures st.processed <= res.0.processed
    ensures res.0.attempts == st.attempts || (|res.0.attempts| == |st.attempts| + 1 && res.0.attempts[..|st.attempts|] == st.attempts)
    ensures !ValidId(st.box, id) ==> res == (st, FetchFailed)
    ensures ValidId(st.box, id) ==>
      res.0.box == (if res.1 == Sent then SetSeen(FetchEffect(st.box, id, item), id) else FetchEffect(st.box, id, item))
  {
    match FetchResult(st.box, id)
    case None => (st, FetchFailed)
    case Some(raw) =>
      var box := FetchEffect(st.box, id, item);
      var fetched := st.(box := box);
      match raw
      case Unparsable => (fetched, ParseFailed)
      case Parsed(m) =>
        if h.key(m) in st.processed then (fetched, AlreadyProcessed)
        else if Strip(m.body) == [] then (fetched, EmptyBody)
        else
          var reply := h.answer(|st.attempts|, m);
          if accepts(reply) then (State(st.processed + {h.key(m)}, SetSeen(box, id), st.attempts + [reply]), Sent)
          else (State(st.processed, box, st.attempts + [reply]), SendFailed)
  }

  /** A reply is attempted exactly when the message is fetched and parsed, its
    * key is new and its body is not blank. */
  lemma StepAttemptsIff(h: Handler, item: FetchItem, accepts: Reply -> bool, st: State, id: int)
    ensures var res := Step(h, item, accepts, st, id);
      res.0.attempts != st.attempts <==>
        FetchResult(st.box, id).Some? && FetchResult(st.box, id).value.Parsed?
        && h.key(FetchResult(st.box, id).value.msg) !in st.processed
        && Strip(FetchResult(st.box, id).value.msg.body) != []
  {
  }

  /** Any body with a non-space character is answered, however short: unlike
    * the Docker-Mailserver bot, there is no minimum length. */
  lemma StepShortBodyAnswered(h: Handler, item: FetchItem, accepts: Reply -> bool, st: State, id: int, m: Message)
    requires FetchResult(st.box, id) == Some(Parsed(m)) && h.key(m) !in st.processed
    requires !AllSpace(m.body)
    ensures var res := Step(h, item, accepts, st, id);
      res.1 in {Sent, SendFailed} && res.0.attempts == st.attempts + [h.answer(|st.attempts|, m)]
  {
    StripEmptyIff(m.body);
    StepSend(h, item, accepts, st, id, m);
  }

  /** A message with a new key and a non-blank body gets exactly one reply
    * attempt; its key is recorded, and the message flagged \Seen, exactly
    * when the send succeeds. */
  lemma StepSend(h: Handler, item: FetchItem, accepts: Reply -> bool, st: State, id: int, m: Message)
    requires FetchResult(st.box, id) == Some(Parsed(m)) && h.key(m) !in st.processed && Strip(m.body) != []
    ensures var res := Step(h, item, accepts, st, id);
      var reply := h.answer(|st.attempts|, m);
      res.0.attempts == st.attempts + [reply]
      && (res.1 == Sent <==> accepts(reply)) && (res.1 == SendFailed <==> !accepts(reply))
      && res.0.processed == (if accepts(reply) then st.processed + {h.key(m)} else st.processed)
      && (accepts(reply) ==> res.0.box[id - 1].seen)
  {
  }

  /** The key is recorded exactly when a send succeeded, and then the message
    * is \Seen whichever data item was fetched. */
  lemma StepRecordsOnlySuccess(h: Handler, item: FetchItem, accepts: Reply -> bool, st: State, id: int)
    ensures var res := Step(h, item, accepts, st, id);
      (res.1 == Sent <==> res.0.processed != st.processed)
      && (res.1 == Sent ==> |res.0.attempts| == |st.attempts| + 1 && accepts(res.0.attempts[|st.attempts|]) && res.0.box[id - 1].seen)
      && (res.1 == SendFailed ==> |res.0.attempts| == |st.attempts| + 1 && !accepts(res.0.attempts[|st.attempts|]))
  {
    if FetchResult(st.box, id).Some? && FetchResult(st.box, id).value.Parsed? {
      var m := FetchResult(st.box, id).value.msg;
      if h.key(m) !in st.processed && Strip(m.body) != [] {
        StepSend(h, item, accepts, st, id, m);
      }
    }
  }

  /**
   * As written (FETCH RFC822, which sets \Seen): a message whose reply could
   * not be sent is nevertheless \Seen afterwards, so the next SEARCH UNSEEN
   * does not return it and it is never answered, although its key was not
   * recorded and the STORE of \Seen was meant to follow a successful send only.
   */
  lemma FailedSendConsumedAsWritten(h: Handler, accepts: Reply -> bool, st: State, id: int)
    requires ValidId(st.box, id)
    ensures var res := Step(h, Rfc822, accepts, st, id);
      res.1 == SendFailed ==> h.key(st.box[id - 1].raw.msg) !in res.0.processed && id !in Unseen(res.0.box)
  {
  }

  /**
   * Corrected (FETCH BODY.PEEK[], which leaves the flags alone): a message
   * that was unseen ends the step \Seen exactly when its reply was sent, so
   * every failure is retried at the next cycle.
   */
  lemma SeenIffSentWithPeek(h: Handler, accepts: Reply -> bool, st: State, id: int)
    requires ValidId(st.box, id) && !st.box[id - 1].seen
    ensures var res := Step(h, BodyPeek, accepts, st, id);
      (id in Unseen(res.0.box) <==> res.1 != Sent)
      && (res.1 != Sent ==> res.0.box == st.box)
  {
  }

  /** The messages `check_new_emails` hands to `process_email`, one after another. */
  function Cycle(h: Handler, item: FetchItem, accepts: Reply -> bool, st: State, ids: seq<nat>): (st': State)
    ensures FlagsOnlyRise(st.box, st'.box)
    ensures st.processed <= st'.processed
    ensures |st.attempts| <= |st'.attempts| <= |st.attempts| + |ids|
    ensures st'.attempts[..|st.attempts|] == st.attempts
    decreases |ids|
  {
    if ids == [] then st
    else
      var next := Step(h, item, accepts, st, ids[0]).0;
      var st' := Cycle(h, item, accepts, next, ids[1..]);
      assert st'.attempts[..|next.attempts|][..|st.attempts|] == st'.attempts[..|st.attempts|];
      st'
  }

  /** The bot object, holding what it derives from each message under its
    * settings and collaborators; `processed_emails` lives for the life of
    * the process. `fetchItem` is the data item `process_email` fetches:
    * `Rfc822` as written, `BodyPeek` in the corrected form. */
  class ProtonMailBot {
    const handler: Handler
    const fetchItem: FetchItem
    var processed: set<string>

    constructor (context: Context, fetchItem: FetchItem)
      ensures handler == Handling(context) && this.fetchItem == fetchItem && processed == {}
    {
      handler := Handling(context);
      this.fetchItem := fetchItem;
      processed := {};
    }

    method ProcessEmail(mail: Mailbox, outbox: Outbox, id: nat) returns (outcome: Outcome)
      modifies this, mail, outbox
      ensures (State(processed, mail.entries, outbox.attempts), outcome)
        == Step(handler, fetchItem, outbox.accepts, State(old(processed), old(mail.entries), old(outbox.attempts)), id)
    {
      var fetched := mail.Fetch(id, fetchItem);
      if fetched.None? {
        return FetchFailed;
      }
      if fetched.value.Unparsable? {
        return ParseFailed;
      }
      var m := fetched.value.msg;
      var key := handler.key(m);
      if key in processed {
        return AlreadyProcessed;
      }
      if Strip(m.body) == [] {
        return EmptyBody;
      }
      var ok := outbox.Send(handler.answer(|outbox.attempts|, m));
      if ok {
        processed := processed + {key};
        mail.StoreSeen(id);
        outcome := Sent;
      } else {
        outcome := SendFailed;
      }
    }

    /** `check_new_emails`: SEARCH UNSEEN, then every listed message in turn;
      * a search that does not answer OK, or answers with no message,
      * processes nothing. */
    method CheckNewEmails(mail: Mailbox, outbox: Outbox, searchOk: bool)
      modifies this, mail, outbox
      ensures State(processed, mail.entries, outbox.attempts)
        == Cycle(handler, fetchItem, outbox.accepts, State(old(processed), old(mail.entries), old(outbox.attempts)),
                 if searchOk then Unseen(old(mail.entries)) else [])
    {
      if !searchOk {
        return;
      }
      var ids := Unseen(mail.entries);
      ghost var start := State(processed, mail.entries, outbox.attempts);
      var i := 0;
      while i < |ids|
        invariant 0 <= i <= |ids|
        invariant Cycle(handler, fetchItem, outbox.accepts, State(processed, mail.entries, outbox.attempts), ids[i..])
          == Cycle(handler, fetchItem, outbox.accepts, start, ids)
      {
        assert ids[i..][1..] == ids[i + 1..];
        var _ := ProcessEmail(mail, outbox, ids[i]);
        i := i + 1;
      }
    }
  }
}
