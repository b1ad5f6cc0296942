/** One direction of a conversation, end to end, within one session: the sender of one node and the
    receiver of the other, joined by a network that may lose, duplicate and reorder whatever was written.
    Loss is an envelope that never arrives; duplication and reordering are envelopes that arrive from the
    set of all those ever written, any number of times and at any moment. Module `Wire` shows that the
    encrypted stream is such a network. */
module TwoParty {
  import opened Prelude
  import opened Envelopes
  import R = Receiving
  import S = Sending
  import Retransmission
  import Arrivals
  import opened Runs

  datatype Link = Link(sender: S.Sender, receiver: R.Receiver)

  const FRESH := Link(S.FRESH, R.FRESH)

  datatype Event =
    | AtSender(event: S.Event)
    | ChatArrives(envelope: Envelope)
    | Drains

  /** An acknowledgement that arrives was sent; a chat that arrives was written. The receiver has one
      read loop, so the next chat waits for the drain loop to end. */
  ghost predicate Enabled(l: Link, ev: Event) {
    match ev
    case AtSender(event) => S.Enabled(l.sender, event) && (event.Acknowledge? ==> event.id in l.receiver.acked)
    case ChatArrives(e) => !l.receiver.draining && e in l.sender.log.packets
    case Drains => l.receiver.draining
  }

  ghost function Step(l: Link, ev: Event): Link
    requires Enabled(l, ev)
  {
    match ev
    case AtSender(event) => l.(sender := S.Step(l.sender, event))
    case ChatArrives(e) => l.(receiver := R.Receive(l.receiver, e))
    case Drains => l.(receiver := R.DrainOne(l.receiver))
  }

  /** An envelope as it was issued in this session. */
  predicate Genuine(s: S.Sender, e: Envelope) {
    e.sequence in s.log.issued && s.log.issued[e.sequence] == e
  }

  /** Sequence number `k` is accounted for: still pending, acknowledged, or reported as failed. */
  predicate Accounted(s: S.Sender, k: nat)
    requires k in s.log.issued
  {
    var id := s.log.issued[k].id;
    id in s.pending || id in s.log.acknowledged || k in s.log.failed
  }

  ghost predicate IssuedOk(s: S.Sender) {
    && (forall k | k in s.log.issued ::
          1 <= k <= s.sendSeq && s.log.issued[k].sequence == k && s.log.issued[k].id in s.log.rounds)
    && (forall j, k | j in s.log.issued && k in s.log.issued && j != k :: s.log.issued[j].id != s.log.issued[k].id)
    && (s.phase.Numbered? ==> s.phase.sequence == s.sendSeq && s.sendSeq !in s.log.issued)
  }

  ghost predicate GenuineEverywhere(s: S.Sender) {
    && (forall e | e in s.log.packets :: Genuine(s, e))
    && (forall id | id in s.pending :: Genuine(s, s.pending[id].envelope))
    && (forall i | 0 <= i < |s.todo| :: Genuine(s, s.todo[i].envelope))
    && (s.phase.Tracked? || s.phase.Unwinding? ==> Genuine(s, s.phase.envelope))
  }

  ghost predicate NothingForgotten(s: S.Sender) {
    && (forall k | k in s.log.issued :: Accounted(s, k))
    && (forall k | 1 <= k <= s.sendSeq ::
          k in s.log.issued || k in s.log.failed || (s.phase.Numbered? && k == s.sendSeq))
  }

  /** The sender's invariant for as long as the sequence numbers have not run out. */
  ghost predicate SenderOk(s: S.Sender) {
    && s.sendSeq == s.log.sends && !s.log.carriedOver
    && IssuedOk(s) && GenuineEverywhere(s) && NothingForgotten(s)
  }

  lemma NumberKeepsSenderOk(s: S.Sender, text: string)
    requires SenderOk(s) && S.Enabled(s, S.Number(text)) && s.log.sends + 1 < UINT64_LIMIT
    ensures SenderOk(S.Step(s, S.Number(text)))
  {
    var t := S.Step(s, S.Number(text));
    forall k | k in t.log.issued ensures Accounted(t, k) {
      assert Accounted(s, k);
    }
  }

  lemma TrackKeepsIssued(s: S.Sender, e: Envelope, now: int, ref: nat)
    requires SenderOk(s) && S.Enabled(s, S.Track(e, now, ref))
    ensures IssuedOk(S.Step(s, S.Track(e, now, ref)))
  {
  }

  lemma TrackKeepsGenuine(s: S.Sender, e: Envelope, now: int, ref: nat)
    requires SenderOk(s) && S.Enabled(s, S.Track(e, now, ref))
    ensures GenuineEverywhere(S.Step(s, S.Track(e, now, ref)))
  {
  }

  lemma TrackKeepsAccounts(s: S.Sender, e: Envelope, now: int, ref: nat)
    requires SenderOk(s) && S.Enabled(s, S.Track(e, now, ref))
    ensures NothingForgotten(S.Step(s, S.Track(e, now, ref)))
  {
    var t := S.Step(s, S.Track(e, now, ref));
    forall k | k in t.log.issued ensures Accounted(t, k) {
      assert k != e.sequence ==> Accounted(s, k);
    }
  }

  lemma TrackKeepsSenderOk(s: S.Sender, e: Envelope, now: int, ref: nat)
    requires SenderOk(s) && S.Enabled(s, S.Track(e, now, ref))
    ensures SenderOk(S.Step(s, S.Track(e, now, ref)))
  {
    TrackKeepsIssued(s, e, now, ref);
    TrackKeepsGenuine(s, e, now, ref);
    TrackKeepsAccounts(s, e, now, ref);
  }

  /** The remaining events issue nothing; they move, remove or write envelopes that were issued before. */
  lemma OtherKeepsGenuine(s: S.Sender, ev: S.Event)
    requires GenuineEverywhere(s) && Retransmission.Inv(s) && S.Enabled(s, ev)
    requires !ev.Number? && !ev.Track? && !ev.Settle?
    ensures GenuineEverywhere(S.Step(s, ev))
  {
  }

  lemma OtherKeepsAccounts(s: S.Sender, ev: S.Event)
    requires SenderOk(s) && S.Enabled(s, ev)
    requires !ev.Number? && !ev.Track? && !ev.Settle?
    ensures NothingForgotten(S.Step(s, ev))
  {
    var t := S.Step(s, ev);
    forall k | k in t.log.issued ensures Accounted(t, k) {
      assert Accounted(s, k);
    }
  }

  lemma SettleKeepsGenuine(s: S.Sender)
    requires GenuineEverywhere(s) && S.Enabled(s, S.Settle)
    ensures GenuineEverywhere(S.SettleHead(s))
  {
    var t := S.SettleHead(s);
    forall id | id in t.pending ensures Genuine(t, t.pending[id].envelope) {
      assert Genuine(s, s.pending[id].envelope);
    }
    forall i | 0 <= i < |t.todo| ensures Genuine(t, t.todo[i].envelope) {
      assert t.todo[i] == s.todo[i + 1];
    }
  }

  lemma SettleKeepsAccounts(s: S.Sender)
    requires SenderOk(s) && S.Enabled(s, S.Settle)
    ensures NothingForgotten(S.SettleHead(s))
  {
    var t := S.SettleHead(s);
    assert Genuine(s, s.todo[0].envelope);
    forall k | k in t.log.issued ensures Accounted(t, k) {
      assert Accounted(s, k);
    }
  }

  lemma SettleKeepsSenderOk(s: S.Sender)
    requires SenderOk(s) && S.Enabled(s, S.Settle)
    ensures SenderOk(S.Step(s, S.Settle))
  {
    SettleKeepsGenuine(s);
    SettleKeepsAccounts(s);
  }

  lemma OtherKeepsIssued(s: S.Sender, ev: S.Event)
    requires s.sendSeq == s.log.sends && !s.log.carriedOver && IssuedOk(s) && S.Enabled(s, ev)
    requires !ev.Number? && !ev.Track? && !ev.Settle?
    ensures
      var t := S.Step(s, ev);
      IssuedOk(t) && t.sendSeq == t.log.sends && !t.log.carriedOver
  {
  }

  lemma SenderStepKeepsOk(s: S.Sender, ev: S.Event)
    requires SenderOk(s) && Retransmission.Inv(s) && S.Enabled(s, ev)
    requires ev.Number? ==> s.log.sends + 1 < UINT64_LIMIT
    ensures SenderOk(S.Step(s, ev))
  {
    match ev
    case Number(text) => NumberKeepsSenderOk(s, text);
    case Track(e, now, ref) => TrackKeepsSenderOk(s, e, now, ref);
    case Settle => SettleKeepsSenderOk(s);
    case _ =>
      OtherKeepsIssued(s, ev);
      OtherKeepsGenuine(s, ev);
      OtherKeepsAccounts(s, ev);
  }

  ghost predicate Extends(larger: map<nat, Envelope>, smaller: map<nat, Envelope>) {
    forall k | k in smaller :: k in larger && larger[k] == smaller[k]
  }

  lemma LogOnlyGrows(s: S.Sender, ev: S.Event)
    requires IssuedOk(s) && S.Enabled(s, ev)
    ensures Extends(S.Step(s, ev).log.issued, s.log.issued)
    ensures S.Step(s, ev).log.acknowledged == s.log.acknowledged + (if ev.Acknowledge? then {ev.id} else {})
  {
  }

  lemma SendsCount(s: S.Sender, ev: S.Event)
    requires S.Enabled(s, ev)
    ensures S.Step(s, ev).log.sends == s.log.sends + (if ev.Number? then 1 else 0)
  {
  }

  /** Message `id` was acknowledged by the receiver, so the receiver has it: delivered, or in its buffer. */
  ghost predicate AckMeansHeld(l: Link, id: string) {
    exists k | k in l.sender.log.issued :: l.sender.log.issued[k].id == id && R.Holds(l.receiver, k)
  }

  ghost predicate LinkOk(l: Link) {
    && Retransmission.Inv(l.sender) && SenderOk(l.sender)
    && R.Valid(l.receiver) && Arrivals.Faithful(l.receiver, l.sender.log.issued)
    && (forall i | 0 <= i < |l.receiver.acked| :: AckMeansHeld(l, l.receiver.acked[i]))
    && (forall id | id in l.sender.log.acknowledged :: id in l.receiver.acked)
  }

  lemma IssuingKeepsFaithful(r: R.Receiver, before: map<nat, Envelope>, after: map<nat, Envelope>)
    requires Arrivals.Faithful(r, before) && Extends(after, before)
    ensures Arrivals.Faithful(r, after)
  {
    forall i | 0 <= i < |r.delivered| ensures Arrivals.Says(after, i + 1, r.delivered[i]) {
      assert Arrivals.Says(before, i + 1, r.delivered[i]);
    }
  }

  lemma IssuingKeepsAcks(l: Link, t: Link, id: string)
    requires AckMeansHeld(l, id) && t.receiver == l.receiver && Extends(t.sender.log.issued, l.sender.log.issued)
    ensures AckMeansHeld(t, id)
  {
    var k :| k in l.sender.log.issued && l.sender.log.issued[k].id == id && R.Holds(l.receiver, k);
    assert k in t.sender.log.issued;
  }

  /** Whatever the sender does to its own state leaves the receiver's half of the invariant alone. */
  lemma SenderChangeKeepsLink(l: Link, s: S.Sender)
    requires LinkOk(l) && Retransmission.Inv(s) && SenderOk(s)
    requires Extends(s.log.issued, l.sender.log.issued)
    requires forall id | id in s.log.acknowledged :: id in l.receiver.acked
    ensures LinkOk(l.(sender := s))
  {
    var t := l.(sender := s);
    IssuingKeepsFaithful(l.receiver, l.sender.log.issued, s.log.issued);
    forall i | 0 <= i < |t.receiver.acked| ensures AckMeansHeld(t, t.receiver.acked[i]) {
      IssuingKeepsAcks(l, t, l.receiver.acked[i]);
    }
  }

  lemma SenderStepKeepsLink(l: Link, ev: S.Event)
    requires LinkOk(l) && Enabled(l, AtSender(ev))
    requires ev.Number? ==> l.sender.log.sends + 1 < UINT64_LIMIT
    ensures LinkOk(Step(l, AtSender(ev)))
  {
    Retransmission.StepKeepsInv(l.sender, ev);
    SenderStepKeepsOk(l.sender, ev);
    LogOnlyGrows(l.sender, ev);
    SenderChangeKeepsLink(l, S.Step(l.sender, ev));
  }

  /** An acknowledgement stays true while the receiver only gains messages. */
  lemma AckStaysTrue(l: Link, t: Link, id: string)
    requires AckMeansHeld(l, id) && t.sender == l.sender
    requires forall k :: R.Holds(l.receiver, k) ==> R.Holds(t.receiver, k)
    ensures AckMeansHeld(t, id)
  {
    var k :| k in l.sender.log.issued && l.sender.log.issued[k].id == id && R.Holds(l.receiver, k);
    assert k in t.sender.log.issued && R.Holds(t.receiver, k);
  }

  lemma AcksStayTrue(l: Link, t: Link)
    requires t.sender == l.sender && forall i | 0 <= i < |l.receiver.acked| :: AckMeansHeld(l, l.receiver.acked[i])
    requires forall k :: R.Holds(l.receiver, k) ==> R.Holds(t.receiver, k)
    ensures forall i | 0 <= i < |l.receiver.acked| :: AckMeansHeld(t, l.receiver.acked[i])
  {
    forall i | 0 <= i < |l.receiver.acked| ensures AckMeansHeld(t, l.receiver.acked[i]) {
      AckStaysTrue(l, t, l.receiver.acked[i]);
    }
  }

  /** Whatever the receiver takes in or releases leaves the sender's half of the invariant alone. */
  lemma ReceiverChangeKeepsLink(l: Link, r: R.Receiver)
    requires LinkOk(l) && R.Valid(r) && Arrivals.Faithful(r, l.sender.log.issued)
    requires forall k :: R.Holds(l.receiver, k) ==> R.Holds(r, k)
    requires r.acked == l.receiver.acked ||
             (exists id :: r.acked == l.receiver.acked + [id] && AckMeansHeld(l.(receiver := r), id))
    ensures LinkOk(l.(receiver := r))
  {
    var t := l.(receiver := r);
    AcksStayTrue(l, t);
    forall i | 0 <= i < |r.acked| ensures AckMeansHeld(t, r.acked[i]) {
      assert i < |l.receiver.acked| ==> r.acked[i] == l.receiver.acked[i];
    }
  }

  lemma ReceiveAcks(r: R.Receiver, e: Envelope)
    requires R.Settled(r)
    ensures forall k :: R.Holds(r, k) ==> R.Holds(R.Receive(r, e), k)
    ensures R.Receive(r, e).acked == r.acked ||
            (R.Receive(r, e).acked == r.acked + [e.id] && (e.sequence >= 1 ==> R.Holds(R.Receive(r, e), e.sequence)))
  {
  }

  lemma ArrivalKeepsLink(l: Link, e: Envelope)
    requires LinkOk(l) && Enabled(l, ChatArrives(e))
    ensures LinkOk(Step(l, ChatArrives(e)))
  {
    var r := R.Receive(l.receiver, e);
    assert Genuine(l.sender, e) && e.sequence in l.sender.log.issued;
    R.ReceiveKeepsValid(l.receiver, e);
    Arrivals.ReceiveKeepsFaithful(l.receiver, e, l.sender.log.issued);
    ReceiveAcks(l.receiver, e);
    if r.acked != l.receiver.acked {
      assert AckMeansHeld(l.(receiver := r), e.id);
    }
    ReceiverChangeKeepsLink(l, r);
  }

  lemma DrainAcks(r: R.Receiver)
    requires R.Valid(r) && r.draining
    ensures
      var t, next := R.DrainOne(r), Successor(r.recvSeq);
      && R.Valid(t)
      && (forall k :: R.Holds(r, k) ==> R.Holds(t, k))
      && (if next in r.buffer then t.acked == r.acked + [r.buffer[next].id] && R.Holds(t, next) else t.acked == r.acked)
  {
    R.DrainOneKeepsValid(r);
  }

  lemma DrainKeepsLink(l: Link)
    requires LinkOk(l) && Enabled(l, Drains)
    ensures LinkOk(Step(l, Drains))
  {
    var r, next := R.DrainOne(l.receiver), Successor(l.receiver.recvSeq);
    DrainAcks(l.receiver);
    Arrivals.DrainOneKeepsFaithful(l.receiver, l.sender.log.issued);
    if next in l.receiver.buffer {
      assert l.receiver.buffer[next] == l.sender.log.issued[next];
      assert AckMeansHeld(l.(receiver := r), l.receiver.buffer[next].id);
    }
    ReceiverChangeKeepsLink(l, r);
  }

  lemma SendsGrow(l: Link, ev: Event)
    requires Enabled(l, ev)
    ensures Step(l, ev).sender.log.sends ==
            l.sender.log.sends + (if ev.AtSender? && ev.event.Number? then 1 else 0)
  {
    if ev.AtSender? {
      SendsCount(l.sender, ev.event);
    }
  }

  lemma StepKeepsLink(l: Link, ev: Event)
    requires LinkOk(l) && Enabled(l, ev) && Step(l, ev).sender.log.sends < UINT64_LIMIT
    ensures LinkOk(Step(l, ev))
  {
    SendsGrow(l, ev);
    match ev
    case AtSender(event) => SenderStepKeepsLink(l, event);
    case ChatArrives(e) => ArrivalKeepsLink(l, e);
    case Drains => DrainKeepsLink(l);
  }

  /** The invariant holds for as long as fewer than 2^64 sends have begun. */
  lemma {:induction false} RunKeepsLink(l: Link, run: seq<Event>)
    requires LinkOk(l) && Legal(Step, l, run)
    ensures Run(Step, l, run).sender.log.sends < UINT64_LIMIT ==> LinkOk(Run(Step, l, run))
    ensures l.sender.log.sends <= Run(Step, l, run).sender.log.sends
    decreases |run|
  {
    if run != [] {
      var t := Step(l, run[0]);
      SendsGrow(l, run[0]);
      if t.sender.log.sends < UINT64_LIMIT {
        StepKeepsLink(l, run[0]);
        RunKeepsLink(t, run[1..]);
      } else {
        SendsOnlyGrow(t, run[1..]);
      }
    }
  }

  lemma {:induction false} SendsOnlyGrow(l: Link, run: seq<Event>)
    requires Legal(Step, l, run)
    ensures l.sender.log.sends <= Run(Step, l, run).sender.log.sends
    decreases |run|
  {
    if run != [] {
      SendsGrow(l, run[0]);
      SendsOnlyGrow(Step(l, run[0]), run[1..]);
    }
  }

  lemma FaithfulTexts(r: R.Receiver, issued: map<nat, Envelope>)
    requires R.Valid(r) && Arrivals.Faithful(r, issued)
    ensures forall k | 1 <= k <= r.recvSeq :: k in issued && Deliverable(issued[k])
    ensures r.delivered == Arrivals.Texts(issued, r.recvSeq)
  {
    forall k | 1 <= k <= r.recvSeq
      ensures k in issued && Deliverable(issued[k]) && r.delivered[k - 1] == Text(issued[k])
    {
      assert Arrivals.Says(issued, k - 1 + 1, r.delivered[k - 1]);
    }
  }

  /** End-to-end delivery. In every run of one session over a network that loses, duplicates and reorders, with
      retransmissions interleaved, what the receiver has shown is exactly the texts that the sender gave
      the sequence numbers 1..recvSeq: in order, each once, none invented and none changed. */
  lemma DeliveredInOrderExactlyOnce(run: seq<Event>)
    requires Legal(Step, FRESH, run) && Run(Step, FRESH, run).sender.log.sends < UINT64_LIMIT
    ensures
      var l := Run(Step, FRESH, run);
      var issued := l.sender.log.issued;
      && l.receiver.recvSeq <= l.sender.sendSeq
      && (forall k | 1 <= k <= l.receiver.recvSeq :: k in issued && Deliverable(issued[k]))
      && l.receiver.delivered == Arrivals.Texts(issued, l.receiver.recvSeq)
  {
    RunKeepsLink(FRESH, run);
    var l := Run(Step, FRESH, run);
    FaithfulTexts(l.receiver, l.sender.log.issued);
  }

  /** What has become of sequence number `k`: its send is still under way, or it is pending, or acknowledged, or
      its failure was reported; and if it is acknowledged, the receiver delivered it or has it in its buffer. */
  ghost predicate NotLost(l: Link, k: nat) {
    var s := l.sender;
    if k in s.log.issued then
      && (s.log.issued[k].id in s.pending || s.log.issued[k].id in s.log.acknowledged || k in s.log.failed)
      && (s.log.issued[k].id in s.log.acknowledged ==> R.Holds(l.receiver, k))
    else
      k in s.log.failed || (s.phase.Numbered? && s.phase.sequence == k)
  }

  lemma NothingIsLost(l: Link, k: nat)
    requires LinkOk(l) && 1 <= k <= l.sender.sendSeq
    ensures NotLost(l, k)
  {
    var s := l.sender;
    if k in s.log.issued {
      assert Accounted(s, k);
      var id := s.log.issued[k].id;
      if id in s.log.acknowledged {
        var i :| 0 <= i < |l.receiver.acked| && l.receiver.acked[i] == id;
        assert AckMeansHeld(l, id);
      }
    }
  }

  /** No silent loss: in every run of one session, every sequence number that was taken is accounted for. */
  lemma NoSilentLoss(run: seq<Event>, k: nat)
    requires Legal(Step, FRESH, run) && Run(Step, FRESH, run).sender.log.sends < UINT64_LIMIT
    requires 1 <= k <= Run(Step, FRESH, run).sender.sendSeq
    ensures NotLost(Run(Step, FRESH, run), k)
  {
    RunKeepsLink(FRESH, run);
    NothingIsLost(Run(Step, FRESH, run), k);
  }

  /** Safety without progress. A number whose envelope could not be built, or whose text is blank, holds back
      everything after it for the rest of the session. */
  lemma UndeliverableNumberStalls(run: seq<Event>, k: nat)
    requires Legal(Step, FRESH, run) && Run(Step, FRESH, run).sender.log.sends < UINT64_LIMIT
    requires k >= 1
    requires var issued := Run(Step, FRESH, run).sender.log.issued; k !in issued || !Deliverable(issued[k])
    ensures Run(Step, FRESH, run).receiver.recvSeq < k
  {
    DeliveredInOrderExactlyOnce(run);
  }
}
