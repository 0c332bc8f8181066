# Code du Travail bots — a Dafny model of the email bots, configuration and operations scripts

This project models, in Dafny, the decision logic of the "Code du Travail" assistant's
email bots and of the scripts that configure and supervise them:

- **The Docker-Mailserver bot** (`MailserverEmailBot`) and **the ProtonMail Bridge bot** (`ProtonMailBot`).
  Each bot reads its settings from the environment and polls an IMAP mailbox for unseen messages.
  Every message then passes a fixed chain of gates: duplicate key, short or blank body, auto-reply subject.
  The bot asks the language model for an answer, wraps it in a fixed reply text and sends it over SMTP.
  It records the message as processed only when the send succeeded.
  - The mailbox follows the IMAP4rev1 rules the bots rely on (RFC 3501): SEARCH UNSEEN, and FETCH RFC822 setting `\Seen`.
  - Each bot's handling of one message is a pure `Step` function over its state, and a polling cycle is a `Cycle` function.
    The state is the set of processed keys, the mailbox and the SMTP attempts.
  - The bot classes' `ProcessEmail` and `CheckNewEmails` methods update the mailbox, the outbox and `processed_emails` in place.
    They are proved to follow `Step` and `Cycle`.
- **The Gmail bot** (`EmailBot`): its credential check, its generation fallbacks and its reply text.
- **The configuration class** (`Config`), covering:
  - integer settings whose `int()` may raise;
  - the boolean flags;
  - the e-mail generation budget;
  - the three validators.
- **The monitor** (`SimpleMonitor`), covering:
  - the PID file;
  - the threshold alerts, in the order `check_alerts` builds them;
  - the healthy / exit-status rule;
  - uptime formatting.
- **The health check**: six check functions, each turning its readings into `(ok, message)`.
  The `main` loop records one report per check and exits with 0 exactly when every check passed.
- **The runner** (`run.py`): the `--debug` switch, loading `.env` through python-dotenv or the hand-written line reader, the token check and the exit status.

The language model, md5, the clock, the SMTP server's verdict, psutil, nvidia-smi and the file system are parameters of the model.
They are oracles: functions or values the caller supplies.

Modules:

| module | file |
|---|---|
| `Wrappers` | `wrappers.dfy` |
| `Text` (Python `str` operations) | `text.dfy` |
| `Environment` (`os.environ`) | `environment.dfy` |
| `Imap` | `imap.dfy` |
| `Smtp` | `smtp.dfy` |
| `ModelClient` | `model_client.dfy` |
| `Mailserver` | `mailserver_email_bot.dfy` |
| `ProtonMail` | `protonmail_email_bot.dfy` |
| `EmailBot` | `email_bot.dfy` |
| `Config` | `config.dfy` |
| `Monitor` | `monitor.dfy` |
| `HealthCheck` | `health_check.dfy` |
| `Run` | `run.dfy` |

## Model

| member | source | states |
|---|---|---|
| Text.StripEmptyIff | protonmail_email_bot.py:355 | `not body.strip()` holds exactly when every character of the body is whitespace |
| Text.StripIdempotent | mailserver_email_bot.py:414 | stripping an already stripped body changes nothing |
| Text.StripIsSlice | mailserver_email_bot.py:255 | `strip()` returns a slice of its input and removes nothing but whitespace, at either end |
| Text.LowerIdempotent | mailserver_email_bot.py:109 | lower-casing a lower-cased setting changes nothing |
| Text.ContainsLower | mailserver_email_bot.py:422 | lower-casing both strings keeps an occurrence of one inside the other |
| Text.ParseIntRoundTrip | monitor.py:31 | the decimal numeral of a natural number, followed by whitespace, parses back to that number after `strip()` |
| Environment.GetenvIntDefault | config.py:44 | an unset variable takes the value of its default numeral |
| Imap.Unseen | mailserver_email_bot.py:357-360 | SEARCH UNSEEN lists exactly the valid sequence numbers whose message is not `\Seen`, in strictly ascending order |
| Imap.UnseenEmptyIff | protonmail_email_bot.py:302-304 | the search result is empty exactly when every message is `\Seen` |
| Imap.SetSeen | protonmail_email_bot.py:374 | STORE `+FLAGS \Seen` sets the flag on that message only and keeps every message's content |
| Imap.Mailbox.Fetch | mailserver_email_bot.py:379-382 | FETCH returns the message, or no message for an invalid number; RFC822 marks it `\Seen`, BODY.PEEK does not |
| Imap.Mailbox.StoreSeen | protonmail_email_bot.py:374 | the mailbox after the STORE is `SetSeen` of the mailbox before it |
| Smtp.ReplySubject | mailserver_email_bot.py:435 | the reply subject is either the original subject or `Re: ` (with its space) followed by it; it is unchanged exactly when the original already starts with `Re:`, and it always starts with `Re:` and ends with the original |
| Smtp.ReplySubjectIdempotent | protonmail_email_bot.py:269 | replying to a reply does not stack a second `Re: ` |
| Smtp.Outbox.Send | mailserver_email_bot.py:306-343 | every send is recorded in order, and the result is the server's verdict on that reply |
| Mailserver.GetDevice | mailserver_email_bot.py:107-121 | the device is never the placeholder `auto` and is always lower-case; with DEVICE unset it is `cuda` or `cpu`, by GPU availability; any other setting is used lower-cased |
| Mailserver.NewSettings | mailserver_email_bot.py:57-98 | construction succeeds exactly when the five integer settings convert and address, password and domain are all non-empty; a bad integer is reported before any missing setting, and address and password before the domain; every field (device, credentials, ports, token budget, top_k, interval, signature, disclaimer) takes the environment's value or its default |
| Mailserver.ConvertIntsFirstFailure | mailserver_email_bot.py:72-91 | the integer setting `NewSettings` reports is one `int()` rejects, and every integer setting converted before it was accepted |
| Mailserver.FormatEmailResponse | mailserver_email_bot.py:259-281 | the reply starts with the greeting, holds the answer right after the fixed introduction, and ends with the disclaimer block and the signature |
| Mailserver.ExtractAnswerRoundTrip | mailserver_email_bot.py:259-281 | the answer can be recovered from every formatted reply, so the reply carries it verbatim |
| Mailserver.FormatContainsDisclaimer | mailserver_email_bot.py:259-281 | every reply contains the configured disclaimer |
| Mailserver.CleanResponse | mailserver_email_bot.py:246-257 | the cleaned answer is the scrubbed text with only whitespace removed from either end, and it neither starts nor ends with whitespace |
| Mailserver.CleanResponseStable | mailserver_email_bot.py:246-257 | cleaning a cleaned answer again changes nothing when the regular-expression step leaves it alone |
| Mailserver.GenerateResponse | mailserver_email_bot.py:179-244 | the result is the not-loaded message, the error text of a failed generation, or the cleaned output; an output that strips to nothing is first replaced by the fallback sentence; the model sees the stripped question |
| Mailserver.AnswerCarriesResponse | mailserver_email_bot.py:429-437 | the reply goes to the sender under the `Re:` subject and carries the model's answer to the stripped body verbatim |
| Mailserver.Step | mailserver_email_bot.py:375-445 | each step: only raises `\Seen` flags; never shrinks `processed_emails`; makes at most one SMTP attempt; a fetched message becomes `\Seen` and is the only message whose flags change; an invalid number changes nothing |
| Mailserver.StepAttemptsIff | mailserver_email_bot.py:397-437 | a reply is attempted exactly when the message is fetched and parsed, its key is new, its stripped body has at least 10 characters and its subject has no auto-reply marker |
| Mailserver.StepDuplicate | mailserver_email_bot.py:397-401 | a message whose key is already processed produces no send and leaves the set unchanged |
| Mailserver.StepShortBody | mailserver_email_bot.py:413-419 | a body that strips to fewer than 10 characters is skipped without a send |
| Mailserver.StepAutoReply | mailserver_email_bot.py:421-424 | a subject containing `auto-reply`, `automatic`, `noreply` or `no-reply`, in any letter case, is skipped without a send |
| Mailserver.IsAutoReply | mailserver_email_bot.py:422 | a subject that carries one of the four lower-case markers as written is an auto-reply |
| Mailserver.AutoReplyIgnoresCase | mailserver_email_bot.py:422 | a subject and its lower-cased form are both auto-replies or neither is |
| Mailserver.HashInput | mailserver_email_bot.py:345-348 | the hashed text begins with the Message-ID and `_`, ends with `_` and the sender, and holds the subject between them |
| Mailserver.HashInputAmbiguous | mailserver_email_bot.py:345-348 | the `_` separator does not keep keys apart: moving an underscore between Message-ID and Subject leaves the hashed text unchanged |
| Mailserver.StepSend | mailserver_email_bot.py:428-442 | a message passing every gate gets exactly one reply attempt, and its key is recorded exactly when the send succeeds |
| Mailserver.StepRecordsOnlySuccess | mailserver_email_bot.py:437-442 | `processed_emails` grows exactly when the step's one send was accepted |
| Mailserver.Cycle | mailserver_email_bot.py:350-373 | a cycle only raises flags, only grows the processed set and makes at most one attempt per listed message |
| Mailserver.CycleConsumesAll | mailserver_email_bot.py:362-367 | every listed message is fetched, whatever happened to the ones before it, and ends the cycle `\Seen`, including skipped or failed ones |
| Mailserver.CycleLeavesNothingUnseen | mailserver_email_bot.py:350-367 | after a cycle over the search result nothing is left unseen, so a cycle with no new mail sends nothing |
| Mailserver.MailserverEmailBot.constructor | mailserver_email_bot.py:64 | a new bot has an empty `processed_emails` |
| Mailserver.MailserverEmailBot.ProcessEmail | mailserver_email_bot.py:375-445 | the new `processed_emails`, mailbox and SMTP attempts, and the outcome, are those of `Step` |
| Mailserver.MailserverEmailBot.CheckNewEmails | mailserver_email_bot.py:350-373 | the new state is the `Cycle` over the unseen messages, or the old state when the search is not OK |
| ProtonMail.NewSettings | protonmail_email_bot.py:44-77 | construction succeeds exactly when the integer settings parse and the ProtonMail address and password are non-empty; a bad integer is reported, by its variable, before missing credentials; the ports, `max_tokens` and `top_k` come from their variables or the defaults 1143, 1025, 1500 and 50; signature and disclaimer come from their variables or the built-in texts; the device is `cuda` exactly when a GPU is available |
| ProtonMail.NewSettingsFirstFailure | protonmail_email_bot.py:57-65 | the variable reported is the first, in the order IMAP port, SMTP port, max tokens, top_k, that `int()` rejects; every one before it converted |
| ProtonMail.DatePartFields | protonmail_email_bot.py:246 | the `%d/%m/%Y` stamp holds day and month as two digits each, with slashes, followed by the year |
| ProtonMail.TimePartFields | protonmail_email_bot.py:246 | the `%H:%M` stamp holds hour and minute as two digits each around a colon |
| ProtonMail.StampFields | protonmail_email_bot.py:246 | day, month, year, hour and minute can all be read back from the stamp |
| ProtonMail.FormatEmailResponse | protonmail_email_bot.py:225-249 | the reply starts with the greeting, holds the answer right after the introduction, and ends with the footer and the time of formatting |
| ProtonMail.ExtractAnswerRoundTrip | protonmail_email_bot.py:225-249 | the answer can be recovered from every formatted reply |
| ProtonMail.FormatContainsDisclaimer | protonmail_email_bot.py:236-246 | every reply contains the configured disclaimer, whatever the answer and the time |
| ProtonMail.CleanResponse | protonmail_email_bot.py:209-223 | the cleaned answer ends with a full stop and does not start with whitespace |
| ProtonMail.CleanResponseAddsOnePeriod | protonmail_email_bot.py:217-221 | a stripped text ending with `.` is kept; any other gets exactly one `.` appended |
| ProtonMail.CleanResponseOfNothing | protonmail_email_bot.py:217-221 | a clean-up that leaves only whitespace yields a lone `.` |
| ProtonMail.CleanResponseStable | protonmail_email_bot.py:209-223 | cleaning twice equals cleaning once when the regular-expression step leaves the text alone |
| ProtonMail.GenerateResponse | protonmail_email_bot.py:141-207 | the not-loaded message, the error text of a failed generation, or the cleaned output, with the fallback sentence for an output that strips to nothing; a completed generation always ends with a full stop |
| ProtonMail.HashInputAmbiguous | protonmail_email_bot.py:290-293 | with no separator between Message-ID, Subject and From, two different messages hash the same text |
| ProtonMail.HashInput | protonmail_email_bot.py:290-293 | the hashed text is the Message-ID, the subject and the sender run together, each recoverable from its position |
| ProtonMail.AnswerCarriesResponse | protonmail_email_bot.py:364-370 | the reply goes to the sender under the `Re:` subject, carries the answer verbatim and ends with the clock reading taken when it was formatted |
| ProtonMail.Step | protonmail_email_bot.py:319-378 | each step only raises flags, never shrinks the processed set and makes at most one attempt; an invalid number changes nothing |
| ProtonMail.StepAttemptsIff | protonmail_email_bot.py:339-370 | a reply is attempted exactly when the message is parsed, its key is new and its body is not blank |
| ProtonMail.StepShortBodyAnswered | protonmail_email_bot.py:355-357 | a new message whose body holds any non-space character, however short, gets exactly one reply attempt; there is no 10-character gate |
| ProtonMail.StepSend | protonmail_email_bot.py:364-378 | exactly one attempt; the key is recorded, and `\Seen` stored, exactly when the send succeeds |
| ProtonMail.StepRecordsOnlySuccess | protonmail_email_bot.py:370-375 | the processed set grows exactly when a send succeeded, and the message is then `\Seen` |
| ProtonMail.FailedSendConsumedAsWritten | protonmail_email_bot.py:322 | with FETCH RFC822, a message whose reply failed is nevertheless `\Seen`, so it is never retried |
| ProtonMail.SeenIffSentWithPeek | protonmail_email_bot.py:370-378 | with BODY.PEEK[], an unseen message ends the step `\Seen` exactly when its reply was sent |
| ProtonMail.Cycle | protonmail_email_bot.py:295-317 | a cycle only raises flags, only grows the processed set and makes at most one attempt per listed message |
| ProtonMail.ProtonMailBot.constructor | protonmail_email_bot.py:51 | a new bot has an empty `processed_emails` and fetches with the given data item |
| ProtonMail.ProtonMailBot.ProcessEmail | protonmail_email_bot.py:319-378 | the new processed set, mailbox and SMTP attempts, and the outcome, are those of `Step` |
| ProtonMail.ProtonMailBot.CheckNewEmails | protonmail_email_bot.py:295-317 | the new state is the `Cycle` over the unseen messages, or the old state when the search is not OK |
| EmailBot.NewSettings | email_bot.py:41-60 | construction succeeds exactly when address and password are non-empty; the ports are 587 and 993, and the device is `cuda` exactly when a GPU is available |
| EmailBot.GenerateResponse | email_bot.py:121-172 | the not-loaded message, the error text, or the stripped output; the fallback sentence exactly when the output strips to nothing or to that sentence |
| EmailBot.DecodedAnswerNonEmpty | email_bot.py:159-168 | a completed generation always yields a non-empty answer with no surrounding whitespace |
| EmailBot.FormatEmailResponse | email_bot.py:174-191 | the reply starts with `Bonjour,`, holds the answer after the introduction and ends with the footer and the signature |
| EmailBot.ExtractAnswerRoundTrip | email_bot.py:174-191 | the answer can be recovered from every formatted reply |
| EmailBot.FormatDeterminedByAnswer | email_bot.py:174-191 | two replies are equal exactly when their answers are; the question plays no part |
| EmailBot.FormatContainsDisclaimer | email_bot.py:182-189 | every reply contains the fixed disclaimer |
| Config.Collect | config.py:22-53 | loading stops at the first integer setting `int()` rejects, in source order; otherwise every value is the parsed one |
| Config.LoadConfig | config.py:13-62 | the class loads exactly when every integer setting parses, and otherwise names the first bad one; token, address, password and domain default to `''`; signature and disclaimer default to the built-in texts; the ports, `MAX_LENGTH`, the e-mail budget, its `top_k` and the check interval are the parsed values; the flags are as `Flag` states |
| Config.Flag | config.py:61-62 | an unset flag is on; a set flag is on only when its value has the four letters of `true` |
| Config.FlagIff | config.py:61-62 | a flag is on exactly when the variable is unset or equals `true` ignoring letter case |
| Config.EmailMaxTokensDefault | config.py:44 | with EMAIL_MAX_TOKENS unset the e-mail budget converts to 1500 |
| Config.EmailTokenBudgetDefault | config.py:33-44 | with EMAIL_MAX_TOKENS unset the e-mail budget is 1500 tokens, against 512 for Telegram |
| Config.FirstEmpty | config.py:77-85 | the first setting with an empty value is reported, and none exactly when all are non-empty |
| Config.ValidateTelegram | config.py:70-74 | passes exactly when the token is non-empty, and otherwise names TELEGRAM_BOT_TOKEN |
| Config.ValidateEmail | config.py:77-85 | passes exactly when address, password and domain are non-empty; otherwise names the first empty one, in that order |
| Config.ValidateEmailIsFirstEmpty | config.py:77-85 | `validate_email` reports exactly the first empty setting of the ordered list address, password, domain |
| Config.ValidateEmailFromEnv | config.py:16-18 | on a loaded class, `validate_email` passes exactly when the three variables are set and non-empty |
| Config.ValidateAll | config.py:88-91 | passes exactly when both validators pass; an empty token is reported before any e-mail setting |
| Monitor.GetBotPid | monitor.py:25-34 | no PID file, or content that is not an integer once stripped, gives None; otherwise the parsed PID |
| Monitor.IsBotRunning | monitor.py:36-39 | without a PID file, or when no process exists, the bot does not count as running |
| Monitor.PidFileRoundTrip | monitor.py:25-34 | a PID written as a numeral with trailing whitespace reads back as that PID |
| Monitor.IsBotRunningIff | monitor.py:36-39 | the bot runs exactly when a PID is read and names an existing process |
| Monitor.GpuAlerts | monitor.py:116-119 | at most one alert per GPU |
| Monitor.GpuAlertsIff | monitor.py:116-119 | GPU `i` raises an alert exactly when its memory percentage exceeds 90 |
| Monitor.CheckAlerts | monitor.py:95-125 | the alerts are the system alerts in source order, then one per GPU over the limit, then the log alert |
| Monitor.AppendGpuAlerts | monitor.py:116-119 | the loop appends exactly the GPU alerts after the alerts already collected |
| Monitor.AlertIff | monitor.py:95-125 | alerts are raised under these conditions (strict `>` throughout): bot stopped; memory over 90; disk over 85 (with a non-zero total); CPU over 95; log over 100 MB |
| Monitor.ExpectedAlerts | monitor.py:95-125 | the log alert, when raised, comes once and last, after the system and GPU alerts |
| Monitor.GpuAlertIff | monitor.py:116-119 | the alert list holds the alert for GPU `i` exactly when that GPU exists and is over 90 |
| Monitor.BotStoppedFirst | monitor.py:99-101 | when the bot is stopped its alert comes first |
| Monitor.GpuAlertsOrdered | monitor.py:116-119 | GPU alerts name existing GPUs in strictly ascending order |
| Monitor.AlertCountBound | monitor.py:95-125 | there are at most five alerts plus one per GPU |
| Monitor.HealthyIff | monitor.py:178-183 | healthy exactly when no threshold is crossed and the bot runs |
| Monitor.MonitorOnce | monitor.py:178-183 | healthy exactly when there is no alert, and the exit status is 0 exactly when healthy |
| Monitor.Uptime | monitor.py:127-131 | hours and minutes of the whole seconds, minutes below 60 |
| Monitor.FormatUptime | monitor.py:127-131 | the text ends with `m`, has `h` four characters from its end and is at least five characters long |
| Monitor.UptimeRoundTrip | monitor.py:127-131 | hours and minutes can be read back from the formatted text |
| HealthCheck.Classify | health_check.py:40-45 | critical exactly above 90, warning exactly above 80 and not above 90, normal otherwise |
| HealthCheck.CheckProcess | health_check.py:14-30 | ok exactly when the PID file parses to a live process; a missing file and a stale PID are failures, not exceptions |
| HealthCheck.CheckDiskSpace | health_check.py:32-47 | passes exactly when the reading succeeds, the total is non-zero and at most 90 % is used; warns above 80 %; a failed reading or a zero total (the division raises) is caught and reported as an error |
| HealthCheck.CheckMemory | health_check.py:49-60 | passes exactly when the reading succeeds and at most 90 % is in use; warns above 80 %; a failed reading is caught and reported as an error |
| HealthCheck.GpuLevels | health_check.py:74-85 | each GPU's level classifies its memory percentage against 90 and 80 |
| HealthCheck.CheckGpu | health_check.py:62-95 | fails only on a timeout or an error; nvidia-smi missing or failing still passes |
| HealthCheck.CriticalGpuStillOk | health_check.py:74-87 | a GPU reported as critical does not fail the check |
| HealthCheck.CheckConfig | health_check.py:97-116 | ok exactly when `.env` exists, python-dotenv is installed and the token is then non-empty |
| HealthCheck.CheckLogFile | health_check.py:118-131 | a missing log is ok; a log over 100 MiB fails |
| HealthCheck.ReportOf | health_check.py:153-171 | a report is ok exactly when its check returned without raising and returned ok |
| HealthCheck.ResultsKeys | health_check.py:152-171 | the results hold exactly the names of the checks run |
| HealthCheck.ResultsLastWins | health_check.py:158-170 | each name maps to the report of its last check |
| HealthCheck.Results | health_check.py:152-171 | the results are empty exactly when no check ran, and the latest check's name is always recorded |
| HealthCheck.RunChecks | health_check.py:149-171 | the results are those of the checks in order; `all_ok` is true exactly when no check failed or raised |
| HealthCheck.Conclude | health_check.py:149-189 | with the six verdicts in, the results are recorded and the exit status is 0 exactly when all six passed |
| HealthCheck.RunHealthCheck | health_check.py:140-189 | the exit status is 0 exactly when all six checks pass on the readings |
| HealthCheck.NamedReports | health_check.py:140-170 | the six names are distinct, so every check leaves its own report |
| HealthCheck.NamedKeys | health_check.py:140-147 | the results of `main` hold exactly its six display names |
| HealthCheck.NamedDistinct | health_check.py:140-147 | no display name is used by two checks |
| Run.SplitAtEquals | run.py:28 | the key holds no `=`, and key, `=` and value together give back the text |
| Run.ParseLine | run.py:27 | a line is kept exactly when it strips to something non-empty, does not itself begin with `#` and holds an `=` |
| Run.ParseLineSplits | run.py:28 | a kept line's stripped text is key, `=`, value, with no `=` in the key |
| Run.SplitUnique | run.py:28 | splitting at the first `=` has only one outcome |
| Run.KeptLine | run.py:27 | a line whose text, between whitespace, has non-space ends and an `=` is kept unless the raw line begins with `#` |
| Run.ParseLineRoundTrip | run.py:27-28 | a `KEY=value` line surrounded by whitespace reads back as its key and value, even when the key begins with `#` after indentation |
| Run.ParseLines | run.py:26-28 | each line is read on its own |
| Run.Assign | run.py:26-29 | assigning lines never unsets a variable, and every variable it adds is the key of some line |
| Run.LoadLines | run.py:24-29 | the hand-written reader never unsets a variable, and every variable it adds is the key of some line of the file |
| Run.Setup | run.py:14-31 | without `.env` the environment is unchanged; with python-dotenv loading always gets through and no variable already set is overwritten; no variable is ever unset |
| Run.AssignCompletedIff | run.py:29 | the reader gets through the file exactly when no kept line has an empty key |
| Run.AssignUntouched | run.py:26-29 | a variable that no kept line names keeps its value, or stays unset |
| Run.AssignLastWins | run.py:26-29 | a variable ends with the value of the last line that names it |
| Run.LoadDotenv | run.py:19-21 | python-dotenv adds the file's variables and leaves the ones already set alone |
| Run.Environ.constructor | run.py:25-29 | the environment starts as given |
| Run.Environ.LoadFallback | run.py:25-29 | the environment after the loop, and whether it got through, are those of the reader over the lines |
| Run.Environ.SetupEnvironment | run.py:14-39 | the environment is loaded as `Setup` says; the run goes on exactly when loading got through and the token is non-empty; otherwise the exit status is 1 |
| Run.Environ.Launch | run.py:61-94 | `--debug` sets LOG_LEVEL before loading; the exit status is 0 exactly when setup and dependencies pass and either `--check` is given or the bot does not crash; the bot starts only without `--check` |
| Run.DebugSurvivesDotenv | run.py:68-75 | with python-dotenv, LOG_LEVEL stays DEBUG under `--debug` |
| Run.FallbackOverridesDebug | run.py:68-75 | with the hand-written reader, a LOG_LEVEL line in `.env` replaces DEBUG |

## Left out

- **Model loading and generation.** Loading (torch, transformers, peft, quantization) and generation are not modelled.
  - The model is an oracle from question to decoded text or exception.
  - The prompt template each bot wraps around the question is folded into that oracle.
  - The Telegram bot (`telegram_bot.py`) is not part of this model.
- **The regular-expression clean-up** in `_clean_response` is the abstract step `scrub`.
  The model covers only the `strip()` and the full stop around it.
- **MIME parsing and header decoding** are replaced by a parsed message, or by a message whose parsing raises.
- **md5** is an uninterpreted function. The SMTP session is the server's verdict on each reply.
- **Host names, the model name, the Hugging Face token and logging** are not modelled.
  No rule in the modelled code reads them.
- **The floating-point generation parameters** (temperature, top_p, repetition penalty) are not modelled.
- **Config.LoadConfig does not model the floating-point conversions.**
  - `float()` on EMAIL_TEMPERATURE, EMAIL_TOP_P or EMAIL_REPETITION_PENALTY can raise ValueError.
  - In the source those conversions sit between the integer ones.
  - A bad float therefore raises before a later bad integer. The model reports only integer failures.
- Mailserver.NewSettings: leaves out the floating-point conversions of `__init__` (mailserver_email_bot.py:78-81). A bad float raises before EMAIL_TOP_K is converted, so it is not reported as the model's first failure.
- ProtonMail.NewSettings: leaves out the same floating-point conversions.
- **Mailserver.GetDevice** lower-cases ASCII letters only; `Text.Lower` does not fold other characters.
- **Text.ParseInt** accepts an optional sign and ASCII digits. Python's `int()` also takes underscores between digits and non-ASCII digits.
- **`send_email` of the Gmail bot** (email_bot.py:193-218) and its `start` are not modelled. They are SMTP and console I/O.
  That bot has no polling loop of its own.
- **Polling, threads, sleeps and process control** are not modelled:
  - `start_monitoring`, `start`, `stop`;
  - `connect_imap`, `select`, `close`, `logout`;
  - `monitor_continuous`;
  - the `main` functions that only wire these together.
  A connection or search failure is modelled as a search that is not OK.
- **Monitor statistics.** `get_system_stats` and `print_status` (psutil, nvidia-smi, console output) are replaced by a `Stats` value.
  The `--json` output of the monitor's `main` is not modelled.
- Monitor.AlertIff: treats a zero disk total as no disk alert. In the source the division at monitor.py:108 raises ZeroDivisionError, which nothing catches.
- Monitor.CheckAlerts: returns the alerts without a disk alert for a zero disk total, where `check_alerts` raises.
- Monitor.MonitorOnce: can report healthy with exit status 0 for a zero disk total, where the script dies on the uncaught exception, with exit status 1.
- **Monitor.FormatUptime takes whole non-negative seconds.** The source also accepts fractional values.
- **HealthCheck.CheckProcess** does not model `psutil.Process` raising for a process that exits between the two calls, nor the memory figure in the message.
- **HealthCheck.CheckGpu takes nvidia-smi's lines already parsed.**
  - A line that does not split into three integers is the `Failed` outcome.
  - The utilisation figure is not kept.
- **HealthCheck messages** are modelled by their kind, not their text. The `--json` report file is not modelled.
- **HealthCheck.CheckConfig** takes the environment after `load_dotenv()` as given. Exceptions other than a missing python-dotenv are not modelled.
- **Run.Environ.Launch**:
  - takes the dependency check as one flag and the bot's run as its way of ending;
  - treats any exception raised while reading `.env` by hand as exit status 1;
  - does not model a key or value holding a NUL character, which `os.environ` also refuses.
- Run.AssignCompletedIff: the empty key is the only refusal modelled. A NUL character in a key or value also makes `os.environ` raise, and the model does not capture that.
- Run.Environ.LoadFallback: completes whenever no kept line has an empty key. A line with a NUL character, which stops the source's loop, is not modelled.
- **Members with empty bodies.** `Monitor.IsBotRunningIff`, `Config.ValidateEmailFromEnv` and `Run.DebugSurvivesDotenv` are proved without any proof text. They restate consequences of the definitions.

## Findings

| source | as written | input that shows it | evidently intended | confidence | as-written member | corrected member |
|---|---|---|---|---|---|---|
| protonmail_email_bot.py:322 | `process_email` fetches `(RFC822)`, which sets `\Seen` (section 6.4.5 of RFC 3501). It stores `\Seen` only after a successful send (line 374). | an unseen message whose reply the SMTP server rejects: it is `\Seen` after the step, so the next SEARCH UNSEEN skips it and it is never answered | fetch with `BODY.PEEK[]`, so that a message becomes `\Seen` only through the STORE after a successful send, and a failed reply is retried | medium, not executed | ProtonMail.FailedSendConsumedAsWritten | ProtonMail.SeenIffSentWithPeek |
