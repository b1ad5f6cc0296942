/** The sending half of the chat protocol for one peer and one session. Three activities touch this
    state: `sendChat`, the retransmitter, and the arrival of acknowledgements. Each event below is one
    critical section or one write to the stream, so every interleaving of the three is a run. */
module Sending {
  import opened Prelude
  import opened Envelopes

  const PENDING_TIMEOUT := 2000   // milliseconds
  const MAX_PENDING_RETRIES := 5
  const MAX_TRANSMISSIONS := 6

  /** `ref` stands for the address of the source's `pendingChat` record, which the retransmitter compares. */
  datatype Pending = Pending(envelope: Envelope, lastSent: int, attempts: nat, ref: nat)

  /** What a snapshot remembers of a due message. */
  datatype Item = Item(envelope: Envelope, ref: nat)

  /** Where `sendChat` stands: a number taken, the message tracked but not written yet, or the write
      failed and the message about to be forgotten. */
  datatype Phase =
    | Idle
    | Numbered(sequence: uint64, text: string)
    | Tracked(envelope: Envelope)
    | Unwinding(envelope: Envelope)

  /** What has happened. In this session: how many sends began, which envelope each sequence number got, every
      envelope written to its stream, the acknowledgements that arrived, and the sequence numbers whose
      failure was reported; `carriedOver` tells that the `sendChat` under way began before the session, so that
      it holds a number and a stream of an earlier one. Since the beginning: per message id the clock
      reading of each transmission round and the number of writes. */
  datatype Log = Log(
    sends: nat,
    issued: map<nat, Envelope>,
    packets: set<Envelope>,
    rounds: map<string, seq<int>>,
    writes: map<string, nat>,
    acknowledged: set<string>,
    failed: set<nat>,
    carriedOver: bool)

  const EMPTY_LOG := Log(0, map[], {}, map[], map[], {}, {}, false)

  /** `todo` is what is left of the current retransmission pass, begun when the clock showed `passTime`;
      `inFlight` tells that its head has been written (and whether that succeeded) but not settled. */
  datatype Sender = Sender(
    sendSeq: uint64,
    phase: Phase,
    pending: map<string, Pending>,
    passTime: int,
    todo: seq<Item>,
    inFlight: Option<bool>,
    log: Log)

  const FRESH := Sender(0, Idle, map[], 0, [], None, EMPTY_LOG)

  datatype Event =
    | Number(text: string)
    | BuildFails
    | Track(envelope: Envelope, now: int, ref: nat)
    | Write(ok: bool)
    | Unwind
    | Snapshot(at: int, items: seq<Item>)
    | RetryWrite(ok: bool)
    | RetrySkip
    | Settle
    | Acknowledge(id: string)

  predicate Due(p: Pending, now: int) {
    now - p.lastSent >= PENDING_TIMEOUT
  }

  /** `items` lists, in any order and once each, the pending messages that are due. */
  ghost predicate IsSnapshot(pending: map<string, Pending>, now: int, items: seq<Item>) {
    && (forall i | 0 <= i < |items| ::
          var id := items[i].envelope.id;
          id in pending && Due(pending[id], now) && items[i] == Item(pending[id].envelope, pending[id].ref))
    && (forall i, j | 0 <= i < j < |items| :: items[i].envelope.id != items[j].envelope.id)
    && (forall id | id in pending && Due(pending[id], now) :: Item(pending[id].envelope, pending[id].ref) in items)
  }

  /** Message ids are random: a new one has not been used before. */
  ghost predicate Enabled(s: Sender, ev: Event) {
    match ev
    case Number(_) => s.phase.Idle?
    case BuildFails => s.phase.Numbered?
    case Track(e, _, _) =>
      && s.phase.Numbered?
      && e.typ == TYPE_CHAT && e.sequence == s.phase.sequence && e.sequence >= 1
      && e.body.chatText == Some(s.phase.text)
      && e.id !in s.log.rounds
    case Write(_) => s.phase.Tracked?
    case Unwind => s.phase.Unwinding?
    case Snapshot(now, items) => s.todo == [] && IsSnapshot(s.pending, now, items)
    case RetryWrite(_) => s.todo != [] && s.inFlight.None?
    case RetrySkip => s.todo != [] && s.inFlight.None?
    case Settle => s.todo != [] && s.inFlight.Some?
    case Acknowledge(_) => true
  }

  function Count(m: map<string, nat>, id: string): nat {
    if id in m then m[id] else 0
  }

  function Rounds(m: map<string, seq<int>>, id: string): seq<int> {
    if id in m then m[id] else []
  }

  function LogNumber(l: Log): Log {
    l.(sends := l.sends + 1, carriedOver := false)
  }

  /** A `sendChat` from before the session tracks its message all the same, under a number of the old session. */
  function LogTrack(l: Log, e: Envelope, now: int): Log {
    l.(issued := if l.carriedOver then l.issued else l.issued[e.sequence := e],
       rounds := l.rounds[e.id := [now]], writes := l.writes[e.id := 0])
  }

  /** A write by `sendChat`, to the stream that it found when it began. */
  function LogWrite(l: Log, e: Envelope): Log {
    l.(packets := if l.carriedOver then l.packets else l.packets + {e},
       writes := l.writes[e.id := Count(l.writes, e.id) + 1])
  }

  /** A write by the retransmitter, to the stream of this session. */
  function LogRetry(l: Log, e: Envelope, at: int): Log {
    l.(packets := l.packets + {e}, writes := l.writes[e.id := Count(l.writes, e.id) + 1],
       rounds := l.rounds[e.id := Rounds(l.rounds, e.id) + [at]])
  }

  /** The log of a new session, begun while `sendChat` stands at `phase`. */
  function LogSession(l: Log, phase: Phase): Log {
    Log(0, map[], {}, l.rounds, l.writes, {}, {}, !phase.Idle?)
  }

  /** A new session: the numbers start again. Neither `pending` is touched, nor what `sendChat` and the
      retransmitter are in the middle of. */
  function Restart(s: Sender): Sender {
    s.(sendSeq := 0, log := LogSession(s.log, s.phase))
  }

  /** The snapshot's record is still the pending one. */
  predicate Current(pending: map<string, Pending>, item: Item) {
    item.envelope.id in pending && pending[item.envelope.id].ref == item.ref
  }

  /** The write failed, or it was the last one. The retry has been written already, so `attempts` is compared with
      the limit only afterwards. */
  predicate GivesUp(pending: map<string, Pending>, item: Item, ok: bool) {
    Current(pending, item) && (!ok || pending[item.envelope.id].attempts >= MAX_PENDING_RETRIES)
  }

  /** The pending messages after a retry in the pass that began at `at`. */
  function AfterRetry(pending: map<string, Pending>, item: Item, ok: bool, at: int): map<string, Pending> {
    var id := item.envelope.id;
    if !Current(pending, item) then pending
    else if GivesUp(pending, item, ok) then pending - {id}
    else pending[id := pending[id].(attempts := pending[id].attempts + 1, lastSent := at)]
  }

  function LogSettle(l: Log, pending: map<string, Pending>, item: Item, ok: bool): Log {
    if GivesUp(pending, item, ok) then l.(failed := l.failed + {item.envelope.sequence}) else l
  }

  /** The outcome of a retry for the head of the pass, decided under the lock. */
  function SettleHead(s: Sender): Sender
    requires s.todo != [] && s.inFlight.Some?
  {
    var item, ok := s.todo[0], s.inFlight.value;
    s.(todo := s.todo[1..], inFlight := None,
       pending := AfterRetry(s.pending, item, ok, s.passTime), log := LogSettle(s.log, s.pending, item, ok))
  }

  function Step(s: Sender, ev: Event): Sender
    requires Enabled(s, ev)
  {
    match ev
    case Number(text) =>
      var sequence := Successor(s.sendSeq);
      s.(sendSeq := sequence, phase := Numbered(sequence, text), log := LogNumber(s.log))
    case BuildFails =>
      s.(phase := Idle, log := s.log.(failed := s.log.failed + {s.phase.sequence}))
    case Track(e, now, ref) =>
      s.(phase := Tracked(e), pending := s.pending[e.id := Pending(e, now, 1, ref)], log := LogTrack(s.log, e, now))
    case Write(ok) =>
      s.(phase := if ok then Idle else Unwinding(s.phase.envelope), log := LogWrite(s.log, s.phase.envelope))
    case Unwind =>
      s.(phase := Idle, pending := s.pending - {s.phase.envelope.id},
         log := s.log.(failed := s.log.failed + {s.phase.envelope.sequence}))
    case Snapshot(now, items) =>
      s.(passTime := now, todo := items, inFlight := None)
    case RetryWrite(ok) =>
      s.(inFlight := Some(ok), log := LogRetry(s.log, s.todo[0].envelope, s.passTime))
    case RetrySkip =>
      s.(todo := s.todo[1..])
    case Settle =>
      SettleHead(s)
    case Acknowledge(id) =>
      s.(pending := s.pending - {id}, log := s.log.(acknowledged := s.log.acknowledged + {id}))
  }
}
