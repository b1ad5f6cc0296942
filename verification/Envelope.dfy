/** The versioned message envelope and the rules that every envelope must meet,
    both when it is built and when it is read from the wire. */
module Envelopes {
  import opened Prelude

  const VERSION := 2
  const MAX_BODY_SIZE := 48 * 1024
  const MAX_ID_LENGTH := 128
  const MAX_FUTURE_SKEW := 5 * 60 * 1000   // milliseconds

  const TYPE_CHAT := "chat"
  const TYPE_ACK := "ack"
  const TYPE_CONTROL := "control"
  const TYPE_ERROR := "error"
  const TYPE_TYPING := "typing"
  const TYPE_PRESENCE := "presence"

  /** A JSON body, known by its encoded size, by whether it is valid JSON at all, and by what
      reading it as a chat or as an acknowledgement gives (`None` when that fails). */
  datatype Body = Body(size: nat, wellFormed: bool, chatText: Option<string>, ackId: Option<string>)

  datatype Envelope = Envelope(
    version: int,
    typ: string,
    id: string,
    conversation: string,
    sender: string,
    timestamp: int,
    sequence: uint64,
    body: Body)

  datatype Problem =
    | UnsupportedVersion
    | UnknownType
    | InvalidId
    | InvalidTimestamp
    | TimestampInFuture
    | ConversationTooLong
    | SenderTooLong
    | MissingParty
    | MissingSequence
    | BodyTooLarge
    | BodyNotJson

  predicate KnownType(t: string) {
    t in {TYPE_CHAT, TYPE_ACK, TYPE_CONTROL, TYPE_ERROR, TYPE_TYPING, TYPE_PRESENCE}
  }

  /** The v2 rules, at the moment the local clock shows `now`; `None` means the envelope passes. */
  function Validate(e: Envelope, now: int): Option<Problem> {
    if e.version != VERSION then Some(UnsupportedVersion)
    else if !KnownType(e.typ) then Some(UnknownType)
    else if e.id == "" || |e.id| > MAX_ID_LENGTH then Some(InvalidId)
    else if e.timestamp <= 0 then Some(InvalidTimestamp)
    else if e.timestamp > now + MAX_FUTURE_SKEW then Some(TimestampInFuture)
    else if |e.conversation| > MAX_ID_LENGTH then Some(ConversationTooLong)
    else if |e.sender| > MAX_ID_LENGTH then Some(SenderTooLong)
    else if e.typ == TYPE_CHAT && (e.conversation == "" || e.sender == "") then Some(MissingParty)
    else if e.typ == TYPE_CHAT && e.sequence == 0 then Some(MissingSequence)
    else if e.body.size > MAX_BODY_SIZE then Some(BodyTooLarge)
    else if e.body.size > 0 && !e.body.wellFormed then Some(BodyNotJson)
    else None
  }

  /** Exactly the envelopes within these limits pass. Times are in milliseconds, sizes in bytes. */
  lemma ValidExactly(e: Envelope, now: int)
    ensures Validate(e, now) == None <==> Sound(e) && e.timestamp <= now + 300_000
  {
  }

  /** The rules that do not depend on the clock. */
  predicate Sound(e: Envelope) {
    && e.version == 2
    && e.typ in {"chat", "ack", "control", "error", "typing", "presence"}
    && 1 <= |e.id| <= 128 && |e.conversation| <= 128 && |e.sender| <= 128 && 1 <= e.timestamp
    && (e.typ == "chat" ==> e.conversation != "" && e.sender != "" && e.sequence != 0)
    && e.body.size <= 49_152 && (e.body.size > 0 ==> e.body.wellFormed)
  }

  /** Why no envelope was built: no random id, a body that cannot be encoded, or a broken rule. */
  datatype BuildError = NoId | BodyNotEncodable | Invalid(problem: Problem)

  /** Builds an envelope from a fresh random `id` and the clock reading `now`. */
  function NewEnvelope(typ: string, conversation: string, sender: string, sequence: uint64, body: Option<Body>,
                       id: Option<string>, now: int): (r: Result<Envelope, BuildError>)
    ensures r == Err(NoId) <==> id.None?
    ensures r == Err(BodyNotEncodable) <==> id.Some? && body.None?
    ensures r.Ok? ==> Validate(r.value, now) == None && Some(r.value.id) == id && Some(r.value.body) == body
    ensures r.Ok? ==> r.value.typ == typ && r.value.conversation == conversation
    ensures r.Ok? ==> r.value.sender == sender && r.value.sequence == sequence
    ensures typ == TYPE_CHAT && sequence == 0 ==> r.Err?
  {
    if id.None? then Err(NoId)
    else if body.None? then Err(BodyNotEncodable)
    else
      var e := Envelope(VERSION, typ, id.value, conversation, sender, now, sequence, body.value);
      match Validate(e, now)
      case Some(problem) => Err(Invalid(problem))
      case None => Ok(e)
  }

  /** An envelope is built exactly when there is an id and a body and the result keeps the rules; it carries the current
      version and the clock reading. */
  lemma NewEnvelopeExactly(typ: string, conversation: string, sender: string, sequence: uint64, body: Option<Body>,
                           id: Option<string>, now: int)
    ensures
      var r := NewEnvelope(typ, conversation, sender, sequence, body, id, now);
      forall e :: r == Ok(e) <==>
        && id.Some? && body.Some? && Sound(e)
        && e == Envelope(2, typ, id.value, conversation, sender, now, sequence, body.value)
  {
    if id.Some? && body.Some? {
      ValidExactly(Envelope(2, typ, id.value, conversation, sender, now, sequence, body.value), now);
    }
  }

  /** The precondition that the receiver's sequence logic rests on. */
  lemma ValidChatIsNumbered(e: Envelope, now: int)
    requires Validate(e, now) == None && e.typ == TYPE_CHAT
    ensures 1 <= e.sequence && e.sender != "" && e.conversation != ""
  {
  }

  /** Every transmission validates the envelope again, and so does the far end on its own clock.
      An envelope that was built successfully passes each of those checks exactly when the checking
      clock is at most five minutes behind the builder's: retransmitting on a clock that does not run
      backwards can never fail validation. */
  lemma BuiltEnvelopeStaysValid(typ: string, conversation: string, sender: string, sequence: uint64,
                                body: Option<Body>, id: Option<string>, now: int, later: int)
    requires NewEnvelope(typ, conversation, sender, sequence, body, id, now).Ok?
    ensures
      var e := NewEnvelope(typ, conversation, sender, sequence, body, id, now).value;
      Validate(e, later) == None <==> now <= later + MAX_FUTURE_SKEW
  {
  }

  /** The JSON body of a chat; it reads as a chat with that text, and as an acknowledgement of no id. */
  function ChatBody(text: string, size: nat): Body {
    Body(size, true, Some(text), Some(""))
  }

  /** A chat that the receiver acts on: its body reads as a chat and its text is not blank. */
  predicate Deliverable(e: Envelope) {
    e.typ == TYPE_CHAT && e.body.chatText.Some? && !IsBlank(e.body.chatText.value)
  }

  function Text(e: Envelope): string
    requires Deliverable(e)
  {
    e.body.chatText.value
  }
}
