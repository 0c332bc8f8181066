/**
 * The mailbox the email bots poll, with the IMAP4rev1 semantics they rely on
 * (RFC 3501): messages are numbered 1..N (section 2.3.1.2), SEARCH UNSEEN
 * lists those without the \Seen flag (section 6.4.4), a FETCH of RFC822 (the
 * same as BODY[]) sets \Seen as a side effect while BODY.PEEK[] does not
 * (section 6.4.5), and STORE +FLAGS \Seen sets it explicitly (section 6.4.6).
 */
module Imap {
  import opened Wrappers

  /** The fields the bots take from a message once MIME parsing is done. */
  datatype Message = Message(messageId: string, subject: string, sender: string, body: string)

  /** A fetched message: its fields, or a message whose parsing or decoding raises. */
  datatype Raw = Parsed(msg: Message) | Unparsable

  datatype Entry = Entry(raw: Raw, seen: bool)

  /** The data item named in a FETCH command. */
  datatype FetchItem = Rfc822 | BodyPeek

  predicate ValidId(box: seq<Entry>, id: int) {
    1 <= id <= |box|
  }

  /** Sequence numbers up to `n` whose message is not \Seen, in ascending order. */
  function UnseenUpTo(box: seq<Entry>, n: nat): (ids: seq<nat>)
    requires n <= |box|
    ensures forall id :: id in ids <==> 1 <= id <= n && !box[id - 1].seen
    ensures forall j :: 0 <= j < |ids| ==> ids[j] <= n
    ensures forall j, k :: 0 <= j < k < |ids| ==> ids[j] < ids[k]
  {
    if n == 0 then []
    else UnseenUpTo(box, n - 1) + (if box[n - 1].seen then [] else [n])
  }

  /** The answer to SEARCH UNSEEN: each unseen message once, in ascending order. */
  function Unseen(box: seq<Entry>): (ids: seq<nat>)
    ensures forall id :: id in ids <==> ValidId(box, id) && !box[id - 1].seen
    ensures forall j, k :: 0 <= j < k < |ids| ==> ids[j] < ids[k]
  {
    UnseenUpTo(box, |box|)
  }

  /** SEARCH UNSEEN finds nothing exactly when every message is \Seen. */
  lemma {:induction false} UnseenEmptyIff(box: seq<Entry>, n: nat)
    requires n <= |box|
    ensures UnseenUpTo(box, n) == [] <==> forall j :: 0 <= j < n ==> box[j].seen
  {
    if n > 0 {
      UnseenEmptyIff(box, n - 1);
    }
  }

  /** What FETCH returns: the message, or `None` (status other than OK) for a
    * sequence number the mailbox does not hold. */
  function FetchResult(box: seq<Entry>, id: int): Option<Raw> {
    if ValidId(box, id) then Some(box[id - 1].raw) else None
  }

  /** The mailbox after \Seen is set on message `id`. */
  function SetSeen(box: seq<Entry>, id: int): (r: seq<Entry>)
    ensures |r| == |box|
    ensures forall j :: 0 <= j < |box| ==> r[j].raw == box[j].raw && r[j].seen == (box[j].seen || j == id - 1)
  {
    if ValidId(box, id) then box[id - 1 := box[id - 1].(seen := true)] else box
  }

  /** The mailbox after FETCH of `item` for message `id`. */
  function FetchEffect(box: seq<Entry>, id: int, item: FetchItem): seq<Entry> {
    if item == Rfc822 then SetSeen(box, id) else box
  }

  /** The messages stay what they are; only \Seen flags may go from clear to set. */
  predicate FlagsOnlyRise(box: seq<Entry>, box': seq<Entry>) {
    |box'| == |box| &&
    forall j :: 0 <= j < |box| ==> box'[j].raw == box[j].raw && (box[j].seen ==> box'[j].seen)
  }

  /** The mailbox on the server, which the bots change through FETCH and STORE. */
  class Mailbox {
    var entries: seq<Entry>

    constructor (entries: seq<Entry>)
      ensures this.entries == entries
    {
      this.entries := entries;
    }

    /** FETCH `item` of message `id`. */
    method Fetch(id: nat, item: FetchItem) returns (r: Option<Raw>)
      modifies this
      ensures r == FetchResult(old(entries), id)
      ensures entries == FetchEffect(old(entries), id, item)
    {
      r := FetchResult(entries, id);
      entries := FetchEffect(entries, id, item);
    }

    /** STORE `id` +FLAGS (\Seen). */
    method StoreSeen(id: nat)
      modifies this
      ensures entries == SetSeen(old(entries), id)
    {
      entries := SetSeen(entries, id);
    }
  }
}
