/** A conversation over the encrypted stream, both ways: chats are encoded, encrypted and written as lines, and so are
    the acknowledgements that come back. Lines arrive in any order, any number of times or never; each read loop
    trims, decrypts and decodes them. What this layer does to an envelope is one of two things: it arrives as it
    was written, or it does not arrive. So every run is a run of the two-party model. */
module Wire {
  import opened Prelude
  import opened Envelopes
  import opened Sessions
  import R = Receiving
  import S = Sending
  import T = TwoParty
  import Arrivals
  import Channel
  import Handshakes
  import W = ReplayWindow
  import opened Runs

  /** The text coding of envelopes. Decoding validates on the clock of the reader. */
  datatype Codec = Codec(encode: Envelope -> bytes, decode: (bytes, int) -> Option<Envelope>)

  /** The envelope, once encoded, is read back as it was, or refused. */
  ghost predicate Readable(codec: Codec, e: Envelope) {
    forall now | codec.decode(codec.encode(e), now).Some? :: codec.decode(codec.encode(e), now) == Some(e)
  }

  /** One direction of the stream: the envelopes written so far, and the lines that they became. */
  datatype Stream = Stream(written: seq<Envelope>, packets: seq<string>)

  function Put(aead: Aead, codec: Codec, session: State, stream: Stream, e: Envelope): (State, Stream) {
    var (next, packet) := Encrypt(aead, session, codec.encode(e));
    (next, Stream(stream.written + [e], stream.packets + [packet]))
  }

  /** What a read loop makes of a line: an envelope to handle, or nothing. */
  function Read(aead: Aead, codec: Codec, session: State, packet: string, now: int): (State, Option<Envelope>) {
    var (next, r) := Decrypt(aead, session, TrimSpace(packet + "\n"));
    (next, if r.Ok? then codec.decode(r.value, now) else None)
  }

  /** A line that the writer made, with some counter, from this envelope. */
  ghost predicate IsLineOf(aead: Aead, codec: Codec, key: bytes, direction: byte, packet: string, e: Envelope) {
    exists ctr: uint64 :: packet == Packet(aead, key, Nonce(direction, ctr), codec.encode(e))
  }

  ghost predicate StreamOk(aead: Aead, codec: Codec, key: bytes, direction: byte, stream: Stream) {
    && |stream.written| == |stream.packets|
    && (forall k | 0 <= k < |stream.packets| ::
          IsLineOf(aead, codec, key, direction, stream.packets[k], stream.written[k]))
  }

  lemma PutKeepsStream(aead: Aead, codec: Codec, session: State, stream: Stream, e: Envelope)
    requires StreamOk(aead, codec, session.sendKey, session.sendDir, stream)
    ensures
      var (next, t) := Put(aead, codec, session, stream, e);
      && next == session.(sendCtr := next.sendCtr) && t.written == stream.written + [e]
      && StreamOk(aead, codec, session.sendKey, session.sendDir, t)
  {
    var (next, t) := Put(aead, codec, session, stream, e);
    var n := |stream.packets|;
    assert t.packets[n] == Packet(aead, session.sendKey, Nonce(session.sendDir, next.sendCtr), codec.encode(e));
    forall k | 0 <= k < |t.packets|
      ensures IsLineOf(aead, codec, session.sendKey, session.sendDir, t.packets[k], t.written[k])
    {
      if k < n {
        assert t.packets[k] == stream.packets[k] && t.written[k] == stream.written[k];
      }
    }
  }

  /** A line that was written with this counter is read exactly when the window accepts the counter; then it is what
      the codec makes of the encoded envelope. */
  lemma ReadsExactly(aead: Aead, codec: Codec, session: State, e: Envelope, ctr: uint64, now: int)
    requires Correct(aead)
    ensures
      var plain := codec.encode(e);
      var packet := Packet(aead, session.recvKey, Nonce(session.recvDir, ctr), plain);
      Read(aead, codec, session, packet, now) ==
        if W.Accepts(session.window, ctr) then
          (session.(window := W.Update(session.window, ctr)), codec.decode(plain, now))
        else (session, None)
  {
    var plain := codec.encode(e);
    var packet := Packet(aead, session.recvKey, Nonce(session.recvDir, ctr), plain);
    Channel.PacketIsSafe(aead, session.recvKey, Nonce(session.recvDir, ctr), plain);
    TrimNewline(packet);
    Channel.DecryptGenuine(aead, session, ctr, plain);
  }

  /** A line that was written is read as the envelope that it was made from, or as nothing. */
  lemma ReadsWhatWasWritten(aead: Aead, codec: Codec, session: State, packet: string, e: Envelope, now: int)
    requires Correct(aead) && Readable(codec, e)
    requires IsLineOf(aead, codec, session.recvKey, session.recvDir, packet, e)
    ensures
      var (next, r) := Read(aead, codec, session, packet, now);
      next == session.(window := next.window) && (r == None || r == Some(e))
  {
    var ctr: uint64 :| packet == Packet(aead, session.recvKey, Nonce(session.recvDir, ctr), codec.encode(e));
    ReadsExactly(aead, codec, session, e, ctr, now);
  }

  /** The two ends. `near` sends the chats and `far` the acknowledgements; `forth` and `back` are the two directions. */
  datatype World = World(
    aead: Aead,
    codec: Codec,
    link: T.Link,
    near: State,
    far: State,
    forth: Stream,
    back: Stream)

  datatype Event =
    | AtSender(event: S.Event)
    | NearWrites(envelope: Envelope)
    | FarWrites(envelope: Envelope)
    | FarReads(k: nat, now: int)
    | NearReads(k: nat, now: int)
    | Drains

  /** The message that an envelope acknowledges, if it is an acknowledgement. */
  function Acknowledged(e: Envelope): Option<string> {
    if e.typ == TYPE_ACK then e.body.ackId else None
  }

  /** Chats are written only by the sender's own steps. An acknowledgement is written only for a message that the
      receiver has acknowledged, and takes effect only when its line is read. */
  ghost predicate Enabled(w: World, ev: Event) {
    match ev
    case AtSender(event) => !event.Acknowledge? && S.Enabled(w.link.sender, event)
    case NearWrites(e) => e.typ != TYPE_CHAT
    case FarWrites(e) => Acknowledged(e).Some? ==> Acknowledged(e).value in w.link.receiver.acked
    case FarReads(k, _) => k < |w.forth.packets| && !w.link.receiver.draining
    case NearReads(k, _) => k < |w.back.packets|
    case Drains => w.link.receiver.draining
  }

  /** The envelope that an event of the sender writes to the stream of this session. */
  function WrittenBy(s: S.Sender, ev: S.Event): Option<Envelope> {
    if ev.Write? && s.phase.Tracked? && !s.log.carriedOver then Some(s.phase.envelope)
    else if ev.RetryWrite? && s.todo != [] then Some(s.todo[0].envelope)
    else None
  }

  function PutForth(w: World, e: Envelope): World {
    var (near, forth) := Put(w.aead, w.codec, w.near, w.forth, e);
    w.(near := near, forth := forth)
  }

  function PutBack(w: World, e: Envelope): World {
    var (far, back) := Put(w.aead, w.codec, w.far, w.back, e);
    w.(far := far, back := back)
  }

  function FarReading(w: World, k: nat, now: int): (State, Option<Envelope>)
    requires k < |w.forth.packets|
  {
    Read(w.aead, w.codec, w.far, w.forth.packets[k], now)
  }

  function NearReading(w: World, k: nat, now: int): (State, Option<Envelope>)
    requires k < |w.back.packets|
  {
    Read(w.aead, w.codec, w.near, w.back.packets[k], now)
  }

  /** The message id that the sender hears acknowledged in what it has read. */
  function Heard(e: Option<Envelope>): Option<string> {
    if e.Some? then Acknowledged(e.value) else None
  }

  /** What an event is to the two-party model. */
  function LinkEvents(w: World, ev: Event): seq<T.Event> {
    match ev
    case AtSender(event) => [T.AtSender(event)]
    case FarReads(k, now) =>
      if k >= |w.forth.packets| then []
      else
        var e := FarReading(w, k, now).1;
        if e.Some? && e.value.typ == TYPE_CHAT then [T.ChatArrives(e.value)] else []
    case NearReads(k, now) =>
      if k >= |w.back.packets| then []
      else
        var id := Heard(NearReading(w, k, now).1);
        if id.Some? then [T.AtSender(S.Acknowledge(id.value))] else []
    case Drains => [T.Drains]
    case _ => []
  }

  ghost function Step(w: World, ev: Event): World
    requires Enabled(w, ev)
  {
    match ev
    case AtSender(event) =>
      var t := w.(link := w.link.(sender := S.Step(w.link.sender, event)));
      (match WrittenBy(w.link.sender, event)
       case None => t
       case Some(e) => PutForth(t, e))
    case NearWrites(e) => PutForth(w, e)
    case FarWrites(e) => PutBack(w, e)
    case FarReads(k, now) =>
      var (far, e) := FarReading(w, k, now);
      if e.Some? && e.value.typ == TYPE_CHAT then
        w.(far := far, link := w.link.(receiver := R.Receive(w.link.receiver, e.value)))
      else
        w.(far := far)
    case NearReads(k, now) =>
      var (near, e) := NearReading(w, k, now);
      (match Heard(e)
       case None => w.(near := near)
       case Some(id) => w.(near := near, link := w.link.(sender := S.Step(w.link.sender, S.Acknowledge(id)))))
    case Drains => w.(link := w.link.(receiver := R.DrainOne(w.link.receiver)))
  }

  /** The two sessions belong together. */
  predicate Paired(near: State, far: State) {
    && near.sendKey == far.recvKey && near.sendDir == far.recvDir
    && far.sendKey == near.recvKey && far.sendDir == near.recvDir
  }

  ghost predicate ReadableAll(w: World) {
    && (forall k | 0 <= k < |w.forth.written| :: Readable(w.codec, w.forth.written[k]))
    && (forall k | 0 <= k < |w.back.written| :: Readable(w.codec, w.back.written[k]))
  }

  ghost predicate StreamsOk(w: World) {
    && StreamOk(w.aead, w.codec, w.near.sendKey, w.near.sendDir, w.forth)
    && StreamOk(w.aead, w.codec, w.far.sendKey, w.far.sendDir, w.back)
  }

  /** Every chat on the stream is among the packets of the model, and every acknowledgement among those sent. */
  ghost predicate Backed(w: World) {
    && (forall k | 0 <= k < |w.forth.written| && w.forth.written[k].typ == TYPE_CHAT ::
          w.forth.written[k] in w.link.sender.log.packets)
    && (forall k | 0 <= k < |w.back.written| && Acknowledged(w.back.written[k]).Some? ::
          Acknowledged(w.back.written[k]).value in w.link.receiver.acked)
  }

  ghost predicate Inv(w: World) {
    Correct(w.aead) && Paired(w.near, w.far) && StreamsOk(w) && Backed(w)
  }

  lemma PutForthKeepsInv(w: World, e: Envelope)
    requires Inv(w) && (e.typ == TYPE_CHAT ==> e in w.link.sender.log.packets)
    ensures Inv(PutForth(w, e)) && PutForth(w, e).forth.written == w.forth.written + [e]
  {
    PutKeepsStream(w.aead, w.codec, w.near, w.forth, e);
  }

  lemma PutBackKeepsInv(w: World, e: Envelope)
    requires Inv(w) && (Acknowledged(e).Some? ==> Acknowledged(e).value in w.link.receiver.acked)
    ensures Inv(PutBack(w, e)) && PutBack(w, e).back.written == w.back.written + [e]
  {
    PutKeepsStream(w.aead, w.codec, w.far, w.back, e);
  }

  lemma FarReadsWhatWasWritten(w: World, k: nat, now: int)
    requires Inv(w) && ReadableAll(w) && k < |w.forth.packets|
    ensures
      var (far, e) := FarReading(w, k, now);
      far == w.far.(window := far.window) && (e == None || e == Some(w.forth.written[k]))
  {
    ReadsWhatWasWritten(w.aead, w.codec, w.far, w.forth.packets[k], w.forth.written[k], now);
  }

  lemma NearReadsWhatWasWritten(w: World, k: nat, now: int)
    requires Inv(w) && ReadableAll(w) && k < |w.back.packets|
    ensures
      var (near, e) := NearReading(w, k, now);
      near == w.near.(window := near.window) && (e == None || e == Some(w.back.written[k]))
  {
    ReadsWhatWasWritten(w.aead, w.codec, w.near, w.back.packets[k], w.back.written[k], now);
  }

  /** What a line that is read does at the far end: a chat goes to the receiver, anything else does not. */
  lemma ChatTakesEffect(w: World, k: nat, now: int, e: Envelope)
    requires Enabled(w, FarReads(k, now)) && FarReading(w, k, now).1 == Some(e)
    ensures Step(w, FarReads(k, now)).link.receiver ==
            if e.typ == "chat" then R.Receive(w.link.receiver, e) else w.link.receiver
  {
  }

  /** And at the near end: an acknowledgement takes its message out of `pending`, anything else does nothing. */
  lemma AcknowledgementTakesEffect(w: World, k: nat, now: int, e: Envelope)
    requires Enabled(w, NearReads(k, now)) && NearReading(w, k, now).1 == Some(e)
    ensures Step(w, NearReads(k, now)).link.sender.pending ==
            if e.typ == "ack" && e.body.ackId.Some? then w.link.sender.pending - {e.body.ackId.value}
            else w.link.sender.pending
  {
  }

  lemma OneLinkEvent(l: T.Link, ev: T.Event)
    requires T.Enabled(l, ev)
    ensures Legal(T.Step, l, [ev]) && Run(T.Step, l, [ev]) == T.Step(l, ev)
  {
    One(T.Step, l, ev);
  }

  lemma PacketsOnlyGrow(s: S.Sender, ev: S.Event)
    requires S.Enabled(s, ev)
    ensures s.log.packets <= S.Step(s, ev).log.packets
    ensures WrittenBy(s, ev).Some? ==> WrittenBy(s, ev).value in S.Step(s, ev).log.packets
  {
  }

  /** Reading moves a window and hands the envelope over; the streams stay as they are. */
  lemma HandoverKeepsInv(w: World, t: World)
    requires Inv(w) && t == World(w.aead, w.codec, t.link, t.near, t.far, w.forth, w.back)
    requires t.near == w.near.(window := t.near.window) && t.far == w.far.(window := t.far.window)
    requires w.link.sender.log.packets <= t.link.sender.log.packets
    requires forall id | id in w.link.receiver.acked :: id in t.link.receiver.acked
    ensures Inv(t)
  {
  }

  lemma AcksOnlyGrow(r: R.Receiver, e: Envelope)
    ensures forall id | id in r.acked :: id in R.Receive(r, e).acked
  {
  }

  lemma FarReadKeepsInv(w: World, k: nat, now: int)
    requires Inv(w) && ReadableAll(w) && Enabled(w, FarReads(k, now))
    ensures Inv(Step(w, FarReads(k, now)))
  {
    FarReadsWhatWasWritten(w, k, now);
    AcksOnlyGrow(w.link.receiver, w.forth.written[k]);
    HandoverKeepsInv(w, Step(w, FarReads(k, now)));
  }

  lemma NearReadKeepsInv(w: World, k: nat, now: int)
    requires Inv(w) && ReadableAll(w) && Enabled(w, NearReads(k, now))
    ensures Inv(Step(w, NearReads(k, now)))
  {
    NearReadsWhatWasWritten(w, k, now);
    var (near, e) := NearReading(w, k, now);
    if Heard(e).Some? {
      PacketsOnlyGrow(w.link.sender, S.Acknowledge(Heard(e).value));
    }
    HandoverKeepsInv(w, Step(w, NearReads(k, now)));
  }

  lemma SenderStepKeepsInv(w: World, event: S.Event)
    requires Inv(w) && Enabled(w, AtSender(event))
    ensures Inv(Step(w, AtSender(event)))
  {
    var t := w.(link := w.link.(sender := S.Step(w.link.sender, event)));
    PacketsOnlyGrow(w.link.sender, event);
    assert Inv(t);
    if WrittenBy(w.link.sender, event).Some? {
      PutForthKeepsInv(t, WrittenBy(w.link.sender, event).value);
    }
  }

  lemma StepKeepsInv(w: World, ev: Event)
    requires Inv(w) && ReadableAll(w) && Enabled(w, ev)
    ensures Inv(Step(w, ev))
  {
    match ev
    case AtSender(event) => SenderStepKeepsInv(w, event);
    case NearWrites(e) => PutForthKeepsInv(w, e);
    case FarWrites(e) => PutBackKeepsInv(w, e);
    case FarReads(k, now) => FarReadKeepsInv(w, k, now);
    case NearReads(k, now) => NearReadKeepsInv(w, k, now);
    case Drains => HandoverKeepsInv(w, Step(w, ev));
  }

  lemma FarReadProjects(w: World, k: nat, now: int)
    requires Inv(w) && ReadableAll(w) && Enabled(w, FarReads(k, now))
    ensures Legal(T.Step, w.link, LinkEvents(w, FarReads(k, now)))
    ensures Run(T.Step, w.link, LinkEvents(w, FarReads(k, now))) == Step(w, FarReads(k, now)).link
  {
    FarReadsWhatWasWritten(w, k, now);
    var e := FarReading(w, k, now).1;
    if e.Some? && e.value.typ == TYPE_CHAT {
      OneLinkEvent(w.link, T.ChatArrives(e.value));
    }
  }

  /** What the sender hears was acknowledged by the receiver. */
  lemma HeardWasSent(w: World, k: nat, now: int)
    requires Inv(w) && ReadableAll(w) && k < |w.back.packets|
    ensures
      var id := Heard(NearReading(w, k, now).1);
      id.Some? ==> id.value in w.link.receiver.acked
  {
    NearReadsWhatWasWritten(w, k, now);
  }

  lemma AcknowledgementProjects(l: T.Link, id: string)
    requires id in l.receiver.acked
    ensures
      var events := [T.AtSender(S.Acknowledge(id))];
      Legal(T.Step, l, events) && Run(T.Step, l, events) == l.(sender := S.Step(l.sender, S.Acknowledge(id)))
  {
    OneLinkEvent(l, T.AtSender(S.Acknowledge(id)));
  }

  lemma NearReadProjects(w: World, k: nat, now: int)
    requires Inv(w) && ReadableAll(w) && Enabled(w, NearReads(k, now))
    ensures Legal(T.Step, w.link, LinkEvents(w, NearReads(k, now)))
    ensures Run(T.Step, w.link, LinkEvents(w, NearReads(k, now))) == Step(w, NearReads(k, now)).link
  {
    HeardWasSent(w, k, now);
    var id := Heard(NearReading(w, k, now).1);
    if id.Some? {
      AcknowledgementProjects(w.link, id.value);
    }
  }

  lemma StepProjects(w: World, ev: Event)
    requires Inv(w) && ReadableAll(w) && Enabled(w, ev)
    ensures Legal(T.Step, w.link, LinkEvents(w, ev))
    ensures Run(T.Step, w.link, LinkEvents(w, ev)) == Step(w, ev).link
  {
    match ev
    case AtSender(event) => OneLinkEvent(w.link, T.AtSender(event));
    case FarReads(k, now) => FarReadProjects(w, k, now);
    case NearReads(k, now) => NearReadProjects(w, k, now);
    case Drains => OneLinkEvent(w.link, T.Drains);
    case _ =>
  }

  lemma StepOnlyWrites(w: World, ev: Event)
    requires Enabled(w, ev)
    ensures
      var t := Step(w, ev);
      t.codec == w.codec && w.forth.written <= t.forth.written && w.back.written <= t.back.written
  {
  }

  lemma {:induction false} RunOnlyWrites(w: World, run: seq<Event>)
    requires Legal(Step, w, run)
    ensures
      var t := Run(Step, w, run);
      t.codec == w.codec && w.forth.written <= t.forth.written && w.back.written <= t.back.written
    decreases |run|
  {
    if run != [] {
      StepOnlyWrites(w, run[0]);
      RunOnlyWrites(Step(w, run[0]), run[1..]);
    }
  }

  lemma ReadableBefore(w: World, t: World)
    requires ReadableAll(t) && t.codec == w.codec
    requires w.forth.written <= t.forth.written && w.back.written <= t.back.written
    ensures ReadableAll(w)
  {
    forall k | 0 <= k < |w.forth.written| ensures Readable(w.codec, w.forth.written[k]) {
      assert w.forth.written[k] == t.forth.written[k];
    }
    forall k | 0 <= k < |w.back.written| ensures Readable(w.codec, w.back.written[k]) {
      assert w.back.written[k] == t.back.written[k];
    }
  }

  /** The session layer refines the network of the two-party model, in both directions: whatever the stream, the cipher,
      the replay windows and the decoders do to the lines, each chat and each acknowledgement that gets through is
      one that the model allows. Of the codec only this is asked, that it reads back what was written in the run. */
  lemma {:induction false} WireProjects(w: World, run: seq<Event>) returns (events: seq<T.Event>)
    requires Inv(w) && Legal(Step, w, run) && ReadableAll(Run(Step, w, run))
    ensures Legal(T.Step, w.link, events)
    ensures Run(T.Step, w.link, events) == Run(Step, w, run).link
    decreases |run|
  {
    events := [];
    if run != [] {
      RunOnlyWrites(w, run);
      ReadableBefore(w, Run(Step, w, run));
      StepProjects(w, run[0]);
      StepKeepsInv(w, run[0]);
      var rest := WireProjects(Step(w, run[0]), run[1..]);
      Concat(T.Step, w.link, LinkEvents(w, run[0]), rest);
      events := LinkEvents(w, run[0]) + rest;
    }
  }

  /** End to end over the encrypted stream. After a handshake, in every run in which lines of either direction are lost,
      repeated and reordered, the receiver has been shown exactly the texts numbered 1..recvSeq, in order and once
      each, and every number that was taken is accounted for. */
  lemma WireDeliversInOrder(w: World, run: seq<Event>)
    requires Correct(w.aead) && Handshakes.Complementary(w.near, w.far)
    requires w.link == T.FRESH && w.forth == Stream([], []) && w.back == Stream([], [])
    requires Legal(Step, w, run) && ReadableAll(Run(Step, w, run))
    requires Run(Step, w, run).link.sender.log.sends < UINT64_LIMIT
    ensures
      var l := Run(Step, w, run).link;
      var issued := l.sender.log.issued;
      && (forall k | 1 <= k <= l.receiver.recvSeq :: k in issued && Deliverable(issued[k]))
      && l.receiver.delivered == Arrivals.Texts(issued, l.receiver.recvSeq)
      && (forall k | 1 <= k <= l.sender.sendSeq :: T.NotLost(l, k))
  {
    var events := WireProjects(w, run);
    T.DeliveredInOrderExactlyOnce(events);
    forall k | 1 <= k <= Run(Step, w, run).link.sender.sendSeq ensures T.NotLost(Run(Step, w, run).link, k) {
      T.NoSilentLoss(events, k);
    }
  }
}
