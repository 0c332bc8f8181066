/**
 * The Docker-Mailserver email bot (`MailserverEmailBot`): the settings it
 * reads when constructed, the reply text it composes, and its polling cycle,
 * in which each unseen message passes a fixed chain of gates before a reply
 * is sent and the message recorded as processed.
 */
module Mailserver {
  import opened Wrappers
  import opened Text
  import opened Environment
  import Config
  import opened Imap
  import opened Smtp
  import opened ModelClient

  const DefaultSignature: string := "Assistant IA Code du Travail - ColonyLab"

  const DefaultDisclaimer: string :=
    "Cette réponse est fournie à titre informatif uniquement. "
    + "Pour des conseils juridiques précis et personnalisés, "
    + "consultez un avocat spécialisé en droit du travail."

  /** The attributes `__init__` sets from the environment. Floating-point
    * generation parameters are not part of this model. */
  datatype Settings = Settings(
    device: string, address: string, password: string, domain: string,
    imapPort: int, smtpPort: int, maxTokens: int, topK: int, checkInterval: int,
    signature: string, disclaimer: string)

  /** Why `__init__` raises ValueError: an integer setting `int()` rejects, or
    * a required setting that is unset or empty. */
  datatype InitError = InvalidInteger(key: string) | MissingCredentials | MissingDomain

  datatype Init = Ready(settings: Settings) | Failed(error: InitError)

  lemma DeviceNamesLower()
    ensures Lower("cuda") == "cuda" && Lower("cpu") == "cpu"
  {
    assert Lower("cuda") == [LowerChar('c')] + Lower("uda");
    assert Lower("cpu") == [LowerChar('c')] + Lower("pu");
  }

  /** `_get_device`: the lower-cased DEVICE setting, where `auto` (the default)
    * means `cuda` when a GPU is available and `cpu` otherwise. The result is
    * always a concrete, lower-case device name. */
  function GetDevice(env: Env, cudaAvailable: bool): (device: string)
    ensures Lower(GetenvOr(env, "DEVICE", "auto")) != "auto" ==> device == Lower(env["DEVICE"])
    ensures Lower(GetenvOr(env, "DEVICE", "auto")) == "auto" ==> device == (if cudaAvailable then "cuda" else "cpu")
    ensures device != "auto" && Lower(device) == device
    ensures "DEVICE" !in env ==> device in {"cuda", "cpu"}
  {
    LowerIdempotent(GetenvOr(env, "DEVICE", "auto"));
    DeviceNamesLower();
    var setting := Lower(GetenvOr(env, "DEVICE", "auto"));
    if setting == "auto" then (if cudaAvailable then "cuda" else "cpu") else setting
  }

  /** The integer settings `__init__` converts, in the order it converts them;
    * they are read from the same variables, with the same defaults, as the
    * shared configuration's. */
  const IntSettings: seq<Config.IntSetting> :=
    [Config.ImapPort, Config.SmtpPort, Config.EmailMaxTokens, Config.EmailTopK, Config.EmailCheckInterval]

  /** The outcome of converting them in turn: their values, or the first one `int()` rejects. */
  function ConvertInts(env: Env): Config.Parsed {
    Config.Collect(IntSettings, Config.Conversions(env, IntSettings))
  }

  predicate IntsParse(env: Env) {
    ConvertInts(env).Values?
  }

  /**
   * `MailserverEmailBot.__init__`: integer settings are converted in the order
   * they are read, then address and password are checked together before the
   * domain.
   */
  function NewSettings(env: Env, cudaAvailable: bool): (r: Init)
    ensures r.Ready? <==> IntsParse(env) && IsSet(env, "EMAIL_ADDRESS") && IsSet(env, "EMAIL_PASSWORD") && IsSet(env, "EMAIL_DOMAIN")
    ensures IntsParse(env) && !(IsSet(env, "EMAIL_ADDRESS") && IsSet(env, "EMAIL_PASSWORD")) ==> r == Failed(MissingCredentials)
    ensures IntsParse(env) && IsSet(env, "EMAIL_ADDRESS") && IsSet(env, "EMAIL_PASSWORD") && !IsSet(env, "EMAIL_DOMAIN") ==> r == Failed(MissingDomain)
    ensures !IntsParse(env) ==> r == Failed(InvalidInteger(Config.Key(ConvertInts(env).setting)))
    ensures r.Ready? ==> r.settings.address == env["EMAIL_ADDRESS"] && r.settings.password == env["EMAIL_PASSWORD"] && r.settings.domain == env["EMAIL_DOMAIN"]
    ensures r.Ready? ==> r.settings.device == GetDevice(env, cudaAvailable)
    ensures r.Ready? ==> Some(r.settings.imapPort) == Config.Convert(env, Config.ImapPort)
                         && Some(r.settings.smtpPort) == Config.Convert(env, Config.SmtpPort)
    ensures r.Ready? ==> Some(r.settings.maxTokens) == Config.Convert(env, Config.EmailMaxTokens)
                         && Some(r.settings.topK) == Config.Convert(env, Config.EmailTopK)
                         && Some(r.settings.checkInterval) == Config.Convert(env, Config.EmailCheckInterval)
    ensures r.Ready? ==> r.settings.signature == GetenvOr(env, "EMAIL_SIGNATURE", DefaultSignature)
                         && r.settings.disclaimer == GetenvOr(env, "EMAIL_DISCLAIMER", DefaultDisclaimer)
  {
    match ConvertInts(env)
    case BadInteger(setting) => Failed(InvalidInteger(Config.Key(setting)))
    case Values(vs) =>
      if !IsSet(env, "EMAIL_ADDRESS") || !IsSet(env, "EMAIL_PASSWORD") then Failed(MissingCredentials)
      else if !IsSet(env, "EMAIL_DOMAIN") then Failed(MissingDomain)
      else
        Ready(Settings(
          GetDevice(env, cudaAvailable), env["EMAIL_ADDRESS"], env["EMAIL_PASSWORD"], env["EMAIL_DOMAIN"],
          vs[0], vs[1], vs[2], vs[3], vs[4],
          GetenvOr(env, "EMAIL_SIGNATURE", DefaultSignature), GetenvOr(env, "EMAIL_DISCLAIMER", DefaultDisclaimer)))
  }

  /** The integer setting reported (see `NewSettings`) is one `int()`
    * rejects, and every setting converted before it was accepted: the first
    * failure in source order wins. */
  lemma ConvertIntsFirstFailure(env: Env)
    requires !IntsParse(env)
    ensures exists i :: (0 <= i < |IntSettings| && IntSettings[i] == ConvertInts(env).setting
      && Config.Convert(env, IntSettings[i]).None?
      && forall j :: 0 <= j < i ==> Config.Convert(env, IntSettings[j]).Some?)
  {
    var conversions := Config.Conversions(env, IntSettings);
    var i :| 0 <= i < |IntSettings| && IntSettings[i] == ConvertInts(env).setting && conversions[i].None?
      && forall j :: 0 <= j < i ==> conversions[j].Some?;
  }

  const Greeting: string := "Bonjour,\n\n"

  const Introduction: string :=
    "Merci pour votre question concernant le Code du Travail français. "
    + "Voici ma réponse basée sur ma connaissance spécialisée du droit du travail :\n\n"

  const Separator: string := "\U{1F4CB} **Réponse détaillée :**\n\n"

  /** Everything `format_email_response` puts before the model's answer. */
  const Header: string := Greeting + Introduction + Separator

  /** The rule and warning label that open the block after the answer. */
  const WarningLabel: string := "\n\n---\n\n" + "\U{26A0}\U{FE0F} **Avertissement :** "

  /** The disclaimer and signature block after the answer. */
  function Footer(disclaimer: string, signature: string): string {
    WarningLabel + disclaimer + Closing(signature)
  }

  function Closing(signature: string): string {
    "\n\n" + "Cordialement,\n" + signature
  }

  /** `format_email_response`; the question and the sender address play no part. */
  function FormatEmailResponse(settings: Settings, question: string, aiResponse: string, senderEmail: string): (r: string)
    ensures StartsWith(r, "Bonjour,\n\n")
    ensures |Header| + |aiResponse| <= |r| && r[|Header|..|Header| + |aiResponse|] == aiResponse
    ensures EndsWith(r, Footer(settings.disclaimer, settings.signature))
    ensures EndsWith(r, settings.signature)
  {
    var r := Greeting + Introduction + Separator + aiResponse + Footer(settings.disclaimer, settings.signature);
    assert r == Header + aiResponse + Footer(settings.disclaimer, settings.signature);
    r
  }

  /** Recovers the model's answer from a reply body, if the body has the reply's shape. */
  function ExtractAnswer(settings: Settings, body: string): Option<string> {
    var footer := Footer(settings.disclaimer, settings.signature);
    if |Header| + |footer| <= |body| && StartsWith(body, Header) && EndsWith(body, footer)
    then Some(body[|Header|..|body| - |footer|])
    else None
  }

  /** The answer can be read back out of every formatted reply, so the body
    * carries the answer verbatim and nothing of it is lost. */
  lemma ExtractAnswerRoundTrip(settings: Settings, question: string, aiResponse: string, senderEmail: string)
    ensures ExtractAnswer(settings, FormatEmailResponse(settings, question, aiResponse, senderEmail)) == Some(aiResponse)
  {
    var r := FormatEmailResponse(settings, question, aiResponse, senderEmail);
    var footer := Footer(settings.disclaimer, settings.signature);
    assert r == Header + aiResponse + footer;
    assert StartsWith(r, Header);
    assert r[|Header|..|r| - |footer|] == aiResponse;
  }

  /** The disclaimer text appears in every reply, whatever the answer. */
  lemma FormatContainsDisclaimer(settings: Settings, question: string, aiResponse: string, senderEmail: string)
    ensures Contains(FormatEmailResponse(settings, question, aiResponse, senderEmail), settings.disclaimer)
  {
    var footer := Footer(settings.disclaimer, settings.signature);
    ContainsInfix(WarningLabel, settings.disclaimer, Closing(settings.signature));
    ContainsSuffix(FormatEmailResponse(settings, question, aiResponse, senderEmail), footer, settings.disclaimer);
  }

  /**
   * `_clean_response`: the regular-expression clean-up (removing
   * `[INST]...[/INST]`, `<s>` and `</s>`, then collapsing runs of blank lines),
   * which this model takes as the abstract step `scrub`, followed by `strip()`.
   */
  function CleanResponse(scrub: string -> string, response: string): (r: string)
    ensures r == [] || (!IsSpace(r[0]) && !IsSpace(r[|r| - 1]))
    ensures exists i, j :: (0 <= i <= j <= |scrub(response)| && r == scrub(response)[i..j]
                            && AllSpace(scrub(response)[..i]) && AllSpace(scrub(response)[j..]))
  {
    StripIsSlice(scrub(response));
    Strip(scrub(response))
  }

  /** Cleaning a cleaned response again changes nothing, provided the
    * regular-expression step leaves it alone. */
  lemma CleanResponseStable(scrub: string -> string, response: string)
    requires scrub(CleanResponse(scrub, response)) == CleanResponse(scrub, response)
    ensures CleanResponse(scrub, CleanResponse(scrub, response)) == CleanResponse(scrub, response)
  {
    StripIdempotent(scrub(response));
  }

  const Fallback: string :=
    "Je n'ai pas pu générer une réponse appropriée à votre question. Pourriez-vous la reformuler ?"

  /** `generate_response`: the not-loaded message, the error text of a failed
    * generation, or the cleaned output, where an output that strips to
    * nothing is first replaced by the fallback sentence. */
  function GenerateResponse(backend: Backend, scrub: string -> string, question: string): (r: string)
    ensures !backend.loaded ==> r == NotLoadedMessage
    ensures backend.loaded && backend.generate(Strip(question)).Raised? ==>
      r == ErrorPrefix + backend.generate(Strip(question)).error
    ensures backend.loaded && backend.generate(Strip(question)).Decoded? ==>
      var text := Strip(backend.generate(Strip(question)).text);
      r == CleanResponse(scrub, if text == [] then Fallback else text)
  {
    if !backend.loaded then NotLoadedMessage
    else
      match backend.generate(Strip(question))
      case Raised(e) => ErrorPrefix + e
      case Decoded(t) =>
        var text := Strip(t);
        CleanResponse(scrub, if text == [] then Fallback else text)
  }

  /** The text whose md5 digest identifies a message in `processed_emails`:
    * the Message-ID, the Subject and the sender joined by `_`; knowing where
    * the first and last fields end, each field can be cut back out. */
  function HashInput(m: Message): (r: string)
    ensures |r| == |m.messageId| + |m.subject| + |m.sender| + 2
    ensures StartsWith(r, m.messageId + "_") && EndsWith(r, "_" + m.sender)
    ensures r[|m.messageId| + 1..|r| - |m.sender| - 1] == m.subject
  {
    var r := m.messageId + "_" + m.subject + "_" + m.sender;
    assert r == (m.messageId + "_") + m.subject + ("_" + m.sender);
    Framed(m.messageId + "_", m.subject, "_" + m.sender);
    r
  }

  /** The `_` separator does not keep keys apart: an underscore moved from
    * the Message-ID into the Subject leaves the hashed text as it is. */
  lemma HashInputAmbiguous()
    ensures var a := Message("<1_x>", "Re", "a@b", "q");
      var b := Message("<1", "x>_Re", "a@b", "q");
      a != b && HashInput(a) == HashInput(b)
  {
    assert HashInput(Message("<1_x>", "Re", "a@b", "q")) == "<1_x>_Re_a@b";
    assert HashInput(Message("<1", "x>_Re", "a@b", "q")) == "<1_x>_Re_a@b";
  }

  /** The markers `check_new_emails` looks for in the lower-cased subject. */
  const AutoReplyMarkers: seq<string> := ["auto-reply", "automatic", "noreply", "no-reply"]

  /** Every marker is written in lower case, so it contains no letter that
    * lower-casing would change. */
  lemma MarkersLower()
    ensures forall k :: 0 <= k < |AutoReplyMarkers| ==> Lower(AutoReplyMarkers[k]) == AutoReplyMarkers[k]
  {
    forall k | 0 <= k < |AutoReplyMarkers|
      ensures Lower(AutoReplyMarkers[k]) == AutoReplyMarkers[k]
    {
      var t := AutoReplyMarkers[k];
      assert forall i :: 0 <= i < |t| ==> 'a' <= t[i] <= 'z' || t[i] == '-';
      LowerKeepsLowercase(t);
    }
  }

  /** A marker found in the subject is still found once the subject is lower-cased. */
  lemma MarkerSurvivesLower(subject: string)
    ensures forall k :: 0 <= k < |AutoReplyMarkers| && Contains(subject, AutoReplyMarkers[k]) ==>
      Contains(Lower(subject), AutoReplyMarkers[k])
  {
    MarkersLower();
    forall k | 0 <= k < |AutoReplyMarkers|
      ensures Contains(subject, AutoReplyMarkers[k]) ==> Contains(Lower(subject), AutoReplyMarkers[k])
    {
      ContainsLower(subject, AutoReplyMarkers[k]);
    }
  }

  /** Whether the lower-cased subject contains one of the auto-reply markers.
    * The markers are lower-case, so a subject that carries one as written,
    * or in any other mix of cases, is an auto-reply. */
  predicate IsAutoReply(subject: string)
    ensures (exists k :: 0 <= k < |AutoReplyMarkers| && Contains(subject, AutoReplyMarkers[k])) ==> IsAutoReply(subject)
  {
    MarkerSurvivesLower(subject);
    exists k :: 0 <= k < |AutoReplyMarkers| && Contains(Lower(subject), AutoReplyMarkers[k])
  }

  /** The test ignores letter case: a subject and its lower-case form are
    * both auto-replies or neither is. */
  lemma AutoReplyIgnoresCase(subject: string)
    ensures IsAutoReply(Lower(subject)) <==> IsAutoReply(subject)
  {
    LowerIdempotent(subject);
  }

  /** The bot's fixed collaborators: its settings, the model, the clean-up
    * step of `_clean_response`, and md5 as an uninterpreted function. */
  datatype Context = Context(settings: Settings, backend: Backend, scrub: string -> string, md5: string -> string)

  function Key(ctx: Context, m: Message): string {
    ctx.md5(HashInput(m))
  }

  /** The reply `process_email` sends for a message that passes every gate. */
  function Answer(ctx: Context, m: Message): Reply {
    var body := Strip(m.body);
    var aiResponse := GenerateResponse(ctx.backend, ctx.scrub, body);
    Reply(m.sender, ReplySubject(m.subject), FormatEmailResponse(ctx.settings, body, aiResponse, m.sender))
  }

  /** The reply to a message goes to its sender, under the `Re:` subject, and
    * carries the model's answer to the stripped body verbatim. */
  lemma AnswerCarriesResponse(ctx: Context, m: Message)
    ensures var reply := Answer(ctx, m);
      reply.to == m.sender && reply.subject == ReplySubject(m.subject)
      && ExtractAnswer(ctx.settings, reply.body) == Some(GenerateResponse(ctx.backend, ctx.scrub, Strip(m.body)))
  {
    ExtractAnswerRoundTrip(ctx.settings, Strip(m.body), GenerateResponse(ctx.backend, ctx.scrub, Strip(m.body)), m.sender);
  }

  /** What `process_email` derives from a message: its key in
    * `processed_emails` and the reply. The steps below hold for any choice
    * of the two; `Handling` is the bot's own. */
  datatype Handler = Handler(key: Message -> string, answer: Message -> Reply)

  function Handling(ctx: Context): Handler {
    Handler(m => Key(ctx, m), m => Answer(ctx, m))
  }

  /** Where `process_email` stops for one message. */
  datatype Outcome = FetchFailed | ParseFailed | AlreadyProcessed | BodyTooShort | AutoReply | Sent | SendFailed

  /** The bot's `processed_emails`, the server mailbox and the SMTP attempts so far. */
  datatype State = State(processed: set<string>, box: seq<Entry>, attempts: seq<Reply>)

  /**
   * `process_email` for message `id`: FETCH RFC822, then in order the
   * duplicate check, the body gate (stripped body of fewer than 10
   * characters), the auto-reply filter on the subject, and the send, after
   * which the key is recorded only if the send succeeded.
   */
  function Step(h: Handler, accepts: Reply -> bool, st: State, id: int): (res: (State, Outcome))
    ensures FlagsOnlyRise(st.box, res.0.box)
    ensures st.processed <= res.0.processed
    ensures res.0.attempts == st.attempts || (|res.0.attempts| == |st.attempts| + 1 && res.0.attempts[..|st.attempts|] == st.attempts)
    ensures ValidId(st.box, id) ==> res.0.box[id - 1].seen
    ensures ValidId(st.box, id) ==> res.0.box == SetSeen(st.box, id)
    ensures !ValidId(st.box, id) ==> res == (st, FetchFailed)
  {
    match FetchResult(st.box, id)
    case None => (st, FetchFailed)
    case Some(raw) =>
      var box := FetchEffect(st.box, id, Rfc822);
      var fetched := st.(box := box);
      match raw
      case Unparsable => (fetched, ParseFailed)
      case Parsed(m) =>
        if h.key(m) in st.processed then (fetched, AlreadyProcessed)
        else if |Strip(m.body)| < 10 then (fetched, BodyTooShort)
        else if IsAutoReply(m.subject) then (fetched, AutoReply)
        else
          var reply := h.answer(m);
          if accepts(reply) then (State(st.processed + {h.key(m)}, box, st.attempts + [reply]), Sent)
          else (State(st.processed, box, st.attempts + [reply]), SendFailed)
  }

  /** The gates a parsed message must pass before a reply is attempted. */
  predicate Replies(h: Handler, processed: set<string>, m: Message) {
    h.key(m) !in processed && |Strip(m.body)| >= 10 && !IsAutoReply(m.subject)
  }

  /** A reply is attempted exactly when the message is fetched and parsed and
    * passes every gate; the sender is looked at only through the key. */
  lemma StepAttemptsIff(h: Handler, accepts: Reply -> bool, st: State, id: int)
    ensures var res := Step(h, accepts, st, id);
      res.0.attempts != st.attempts <==>
        FetchResult(st.box, id).Some? && FetchResult(st.box, id).value.Parsed? && Replies(h, st.processed, FetchResult(st.box, id).value.msg)
  {
  }

  /** A message whose key is already in `processed_emails` produces no send
    * and leaves the set as it was. */
  lemma StepDuplicate(h: Handler, accepts: Reply -> bool, st: State, id: int, m: Message)
    requires FetchResult(st.box, id) == Some(Parsed(m)) && h.key(m) in st.processed
    ensures var res := Step(h, accepts, st, id);
      res.1 == AlreadyProcessed && res.0.processed == st.processed && res.0.attempts == st.attempts
  {
  }

  /** A body that strips to fewer than 10 characters (empty included) is skipped without a send. */
  lemma StepShortBody(h: Handler, accepts: Reply -> bool, st: State, id: int, m: Message)
    requires FetchResult(st.box, id) == Some(Parsed(m)) && h.key(m) !in st.processed
    requires |Strip(m.body)| < 10
    ensures var res := Step(h, accepts, st, id);
      res.1 == BodyTooShort && res.0.processed == st.processed && res.0.attempts == st.attempts
  {
  }

  /** A subject containing an auto-reply marker, in any letter case, is skipped without a send. */
  lemma StepAutoReply(h: Handler, accepts: Reply -> bool, st: State, id: int, m: Message)
    requires FetchResult(st.box, id) == Some(Parsed(m)) && h.key(m) !in st.processed
    requires |Strip(m.body)| >= 10 && IsAutoReply(m.subject)
    ensures var res := Step(h, accepts, st, id);
      res.1 == AutoReply && res.0.processed == st.processed && res.0.attempts == st.attempts
  {
  }

  /** A message passing every gate gets exactly one reply attempt, and its key
    * is recorded exactly when the send succeeds. */
  lemma StepSend(h: Handler, accepts: Reply -> bool, st: State, id: int, m: Message)
    requires FetchResult(st.box, id) == Some(Parsed(m)) && Replies(h, st.processed, m)
    ensures var res := Step(h, accepts, st, id);
      res.0.attempts == st.attempts + [h.answer(m)]
      && (res.1 == Sent <==> accepts(h.answer(m)))
      && res.0.processed == (if accepts(h.answer(m)) then st.processed + {h.key(m)} else st.processed)
  {
  }

  /** `processed_emails` grows in a step exactly when a reply was sent, and a
    * step that records a key made an attempt the server accepted; a failed
    * attempt leaves the message free to be answered again. */
  lemma StepRecordsOnlySuccess(h: Handler, accepts: Reply -> bool, st: State, id: int)
    ensures var res := Step(h, accepts, st, id);
      (res.1 == Sent <==> res.0.processed != st.processed)
      && (res.1 == Sent ==> |res.0.attempts| == |st.attempts| + 1 && accepts(res.0.attempts[|st.attempts|]))
      && (res.1 == SendFailed ==> |res.0.attempts| == |st.attempts| + 1 && !accepts(res.0.attempts[|st.attempts|]))
  {
    var res := Step(h, accepts, st, id);
    if FetchResult(st.box, id).Some? && FetchResult(st.box, id).value.Parsed? {
      var m := FetchResult(st.box, id).value.msg;
      if Replies(h, st.processed, m) {
        StepSend(h, accepts, st, id, m);
      }
    }
  }

  /** The messages `check_new_emails` hands to `process_email`, one after another. */
  function Cycle(h: Handler, accepts: Reply -> bool, st: State, ids: seq<nat>): (st': State)
    ensures FlagsOnlyRise(st.box, st'.box)
    ensures st.processed <= st'.processed
    ensures |st.attempts| <= |st'.attempts| <= |st.attempts| + |ids|
    ensures st'.attempts[..|st.attempts|] == st.attempts
    decreases |ids|
  {
    if ids == [] then st
    else
      var next := Step(h, accepts, st, ids[0]).0;
      var st' := Cycle(h, accepts, next, ids[1..]);
      assert st'.attempts[..|next.attempts|][..|st.attempts|] == st'.attempts[..|st.attempts|];
      st'
  }

  /**
   * Every listed message is fetched, whatever happened to the ones before it
   * (a failure on one message does not end the cycle), and since FETCH RFC822
   * sets \Seen, each ends the cycle seen: a skipped message, or one whose
   * reply failed, is consumed and will not come back in the next search.
   */
  lemma {:induction false} CycleConsumesAll(h: Handler, accepts: Reply -> bool, st: State, ids: seq<nat>)
    ensures var st' := Cycle(h, accepts, st, ids);
      forall id :: id in ids && ValidId(st.box, id) ==> st'.box[id - 1].seen
    decreases |ids|
  {
    if ids != [] {
      var next := Step(h, accepts, st, ids[0]).0;
      CycleConsumesAll(h, accepts, next, ids[1..]);
      var st' := Cycle(h, accepts, st, ids);
      forall id | id in ids && ValidId(st.box, id) ensures st'.box[id - 1].seen {
        if id != ids[0] {
          assert id in ids[1..];
        }
      }
    }
  }

  /** After one cycle over the unseen messages nothing is left unseen, so the
    * next cycle, with no new mail, processes nothing and sends nothing. */
  lemma CycleLeavesNothingUnseen(h: Handler, accepts: Reply -> bool, st: State)
    ensures var st' := Cycle(h, accepts, st, Unseen(st.box));
      Unseen(st'.box) == [] && Cycle(h, accepts, st', Unseen(st'.box)) == st'
  {
    var st' := Cycle(h, accepts, st, Unseen(st.box));
    CycleConsumesAll(h, accepts, st, Unseen(st.box));
    forall j | 0 <= j < |st'.box| ensures st'.box[j].seen {
      if !st.box[j].seen {
        assert j + 1 in Unseen(st.box);
      }
    }
    UnseenEmptyIff(st'.box, |st'.box|);
  }

  /** The bot object, holding what it derives from each message under its
    * settings and collaborators; `processed_emails` lives for the life of
    * the process. */
  class MailserverEmailBot {
    const handler: Handler
    var processed: set<string>

    constructor (context: Context)
      ensures handler == Handling(context) && processed == {}
    {
      handler := Handling(context);
      processed := {};
    }

    method ProcessEmail(mail: Mailbox, outbox: Outbox, id: nat) returns (outcome: Outcome)
      modifies this, mail, outbox
      ensures (State(processed, mail.entries, outbox.attempts), outcome)
        == Step(handler, outbox.accepts, State(old(processed), old(mail.entries), old(outbox.attempts)), id)
    {
      var fetched := mail.Fetch(id, Rfc822);
      if fetched.None? {
        return FetchFailed;
      }
      if fetched.value.Unparsable? {
        return ParseFailed;
      }
      var m := fetched.value.msg;
      var key := handler.key(m);
      if key in processed {
        return AlreadyProcessed;
      }
      var body := Strip(m.body);
      if |body| < 10 {
        return BodyTooShort;
      }
      if IsAutoReply(m.subject) {
        return AutoReply;
      }
      var ok := outbox.Send(handler.answer(m));
      if ok {
        processed := processed + {key};
        outcome := Sent;
      } else {
        outcome := SendFailed;
      }
    }

    /** `check_new_emails`: SEARCH UNSEEN, then every listed message in turn;
      * a search that does not answer OK processes nothing. */
    method CheckNewEmails(mail: Mailbox, outbox: Outbox, searchOk: bool)
      modifies this, mail, outbox
      ensures State(processed, mail.entries, outbox.attempts)
        == Cycle(handler, outbox.accepts, State(old(processed), old(mail.entries), old(outbox.attempts)),
                 if searchOk then Unseen(old(mail.entries)) else [])
    {
      if !searchOk {
        return;
      }
      var ids := Unseen(mail.entries);
      ghost var start := State(processed, mail.entries, outbox.attempts);
      var i := 0;
      while i < |ids|
        invariant 0 <= i <= |ids|
        invariant Cycle(handler, outbox.accepts, State(processed, mail.entries, outbox.attempts), ids[i..])
          == Cycle(handler, outbox.accepts, start, ids)
      {
        assert ids[i..][1..] == ids[i + 1..];
        var _ := ProcessEmail(mail, outbox, ids[i]);
        i := i + 1;
      }
    }
  }
}
