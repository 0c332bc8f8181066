/** Outgoing replies and the SMTP submission the bots hand them to. */
module Smtp {
  import opened Text

  /** The reply a bot submits: recipient, Subject header and plain-text body. */
  datatype Reply = Reply(to: string, subject: string, body: string)

  /**
   * The Subject of a reply: `Re: ` in front of the original subject, unless
   * it already starts with `Re:` (compared case-sensitively). This is the
   * convention of section 3.6.5 of RFC 5322.
   */
  function ReplySubject(subject: string): (r: string)
    ensures StartsWith(r, "Re:")
    ensures EndsWith(r, subject)
    ensures r == subject <==> StartsWith(subject, "Re:")
    ensures r == subject || r == "Re: " + subject
  {
    if StartsWith(subject, "Re:") then subject else "Re: " + subject
  }

  /** Replying to a reply does not stack prefixes. */
  lemma ReplySubjectIdempotent(subject: string)
    ensures ReplySubject(ReplySubject(subject)) == ReplySubject(subject)
  {
  }

  /** The SMTP side: every `send_email` call in order, and whether the
    * session for a given reply completes (`send_email` returns True). */
  class Outbox {
    var attempts: seq<Reply>
    const accepts: Reply -> bool

    constructor (accepts: Reply -> bool)
      ensures attempts == [] && this.accepts == accepts
    {
      attempts := [];
      this.accepts := accepts;
    }

    method Send(reply: Reply) returns (ok: bool)
      modifies this
      ensures attempts == old(attempts) + [reply]
      ensures ok == accepts(reply)
    {
      attempts := attempts + [reply];
      ok := accepts(reply);
    }
  }
}
