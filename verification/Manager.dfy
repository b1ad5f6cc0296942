/** Everything one node keeps about one peer, as one machine: the connection flag, the sender and the receiver. The
    receiver is that of one read loop at a time; loops of several streams beside each other are in `ReadLoops`. */
module PeerMachine {
  import opened Envelopes
  import R = Receiving
  import S = Sending

  datatype Peer = Peer(connected: bool, sender: S.Sender, receiver: R.Receiver)

  const FRESH := Peer(false, S.FRESH, R.FRESH)

  datatype Event =
    | AtSender(event: S.Event)
    | ChatArrives(envelope: Envelope)
    | Drains
    | Connects
    | Disconnects
    | Forgets

  ghost predicate Enabled(p: Peer, ev: Event) {
    match ev
    case AtSender(event) =>
      S.Enabled(p.sender, event) && (event.RetryWrite? ==> p.connected) && (event.RetrySkip? ==> !p.connected)
    case ChatArrives(_) => !p.receiver.draining
    case Drains => p.receiver.draining
    case _ => true
  }

  /** A new stream resets the counters and the buffer and begins a new session. */
  ghost function Step(p: Peer, ev: Event): Peer
    requires Enabled(p, ev)
  {
    match ev
    case AtSender(event) => p.(sender := S.Step(p.sender, event))
    case ChatArrives(e) => p.(receiver := R.Receive(p.receiver, e))
    case Drains => p.(receiver := R.DrainOne(p.receiver))
    case Connects =>
      Peer(true, S.Restart(p.sender), R.FRESH.(draining := p.receiver.draining))
    case Disconnects =>
      Peer(false, p.sender.(sendSeq := 0), p.receiver.(recvSeq := 0, buffer := map[]))
    case Forgets => p.(sender := p.sender.(pending := map[]))
  }
}

/** The stream manager's maps, one entry per peer, and the steps that its goroutines take on them. The one
    `sendChat` that holds the send lock and the one retransmission pass are shared by all peers. */
module Managing {
  import opened Prelude
  import opened Envelopes
  import R = Receiving
  import S = Sending
  import P = PeerMachine
  import Runs

  type PeerId = string

  datatype Job = Job(peer: PeerId, item: S.Item)

  datatype Sending = NotSending | SendingTo(peer: PeerId, phase: S.Phase)

  datatype Outbox = Outbox(
    sendSeq: map<PeerId, uint64>,
    pending: map<PeerId, map<string, S.Pending>>,
    sending: Sending,
    passTime: int,
    todo: seq<Job>,
    inFlight: Option<bool>,
    logs: map<PeerId, S.Log>)

  datatype Inbox = Inbox(
    recvSeq: map<PeerId, uint64>,
    recvBuffer: map<PeerId, map<nat, Envelope>>,
    draining: set<PeerId>,
    delivered: map<PeerId, seq<string>>,
    acked: map<PeerId, seq<string>>)

  datatype Manager = Manager(streams: set<PeerId>, sessions: set<PeerId>, outbox: Outbox, inbox: Inbox)

  const EMPTY := Manager({}, {}, Outbox(map[], map[], NotSending, 0, [], None, map[]),
                         Inbox(map[], map[], {}, map[], map[]))

  // A Go map read: a missing entry reads as the zero value.

  function Number(m: map<PeerId, uint64>, p: PeerId): uint64 {
    if p in m then m[p] else 0
  }

  function Messages(m: map<PeerId, map<string, S.Pending>>, p: PeerId): map<string, S.Pending> {
    if p in m then m[p] else map[]
  }

  function Buffer(m: map<PeerId, map<nat, Envelope>>, p: PeerId): map<nat, Envelope> {
    if p in m then m[p] else map[]
  }

  function Strings(m: map<PeerId, seq<string>>, p: PeerId): seq<string> {
    if p in m then m[p] else []
  }

  function LogOf(m: map<PeerId, S.Log>, p: PeerId): S.Log {
    if p in m then m[p] else S.EMPTY_LOG
  }

  /** The part of a pass that concerns one peer. */
  function JobsOf(todo: seq<Job>, p: PeerId): seq<S.Item> {
    if todo == [] then []
    else (if todo[0].peer == p then [todo[0].item] else []) + JobsOf(todo[1..], p)
  }

  function PhaseOf(sending: Sending, p: PeerId): S.Phase {
    if sending.SendingTo? && sending.peer == p then sending.phase else S.Idle
  }

  function InFlightOf(o: Outbox, p: PeerId): Option<bool> {
    if o.todo != [] && o.todo[0].peer == p then o.inFlight else None
  }

  function SenderOf(o: Outbox, p: PeerId): S.Sender {
    S.Sender(Number(o.sendSeq, p), PhaseOf(o.sending, p), Messages(o.pending, p), o.passTime,
             JobsOf(o.todo, p), InFlightOf(o, p), LogOf(o.logs, p))
  }

  function ReceiverOf(i: Inbox, p: PeerId): R.Receiver {
    R.Receiver(Number(i.recvSeq, p), Buffer(i.recvBuffer, p), p in i.draining,
               Strings(i.delivered, p), Strings(i.acked, p))
  }

  /** What the manager keeps about one peer. */
  function View(m: Manager, p: PeerId): P.Peer {
    P.Peer(p in m.streams && p in m.sessions, SenderOf(m.outbox, p), ReceiverOf(m.inbox, p))
  }

  datatype Event =
    | For(peer: PeerId, event: P.Event)
    | Pass(now: int, jobs: seq<Job>)

  predicate OnPass(ev: S.Event) {
    ev.RetryWrite? || ev.RetrySkip? || ev.Settle?
  }

  /** `sendChat` for one peer waits for the send lock; a retransmission event is about the head of the pass. */
  ghost predicate SenderEnabled(o: Outbox, p: PeerId, ev: S.Event) {
    && S.Enabled(SenderOf(o, p), ev)
    && (OnPass(ev) ==> o.todo != [] && o.todo[0].peer == p)
    && (ev.Number? ==> o.sending.NotSending?)
    && !ev.Snapshot?
  }

  ghost predicate Enabled(m: Manager, ev: Event) {
    match ev
    case For(p, AtSender(e)) => SenderEnabled(m.outbox, p, e) && P.Enabled(View(m, p), P.AtSender(e))
    case For(p, e) => P.Enabled(View(m, p), e)
    case Pass(now, jobs) =>
      && m.outbox.todo == []
      && forall p :: S.IsSnapshot(Messages(m.outbox.pending, p), now, JobsOf(jobs, p))
  }

  /** Removing a message also removes a map that has become empty. */
  function RemovePending(pending: map<PeerId, map<string, S.Pending>>, p: PeerId, id: string)
    : map<PeerId, map<string, S.Pending>>
  {
    if p !in pending then
      pending
    else
      var messages := pending[p] - {id};
      if |messages| == 0 then pending - {p} else pending[p := messages]
  }

  function SetPhase(o: Outbox, p: PeerId, phase: S.Phase): Outbox {
    o.(sending := if phase.Idle? then NotSending else SendingTo(p, phase))
  }

  function SetLog(o: Outbox, p: PeerId, log: S.Log): Outbox {
    o.(logs := o.logs[p := log])
  }

  /** The pending messages after a retry to peer `p` has been settled. */
  function AfterRetry(pending: map<PeerId, map<string, S.Pending>>, p: PeerId, item: S.Item, ok: bool, at: int)
    : map<PeerId, map<string, S.Pending>>
  {
    var messages := Messages(pending, p);
    if !S.Current(messages, item) then pending
    else if S.GivesUp(messages, item, ok) then RemovePending(pending, p, item.envelope.id)
    else pending[p := S.AfterRetry(messages, item, ok, at)]
  }

  function SettleStep(o: Outbox, p: PeerId): Outbox
    requires o.todo != [] && o.inFlight.Some?
  {
    var item, ok := o.todo[0].item, o.inFlight.value;
    SetLog(o.(todo := o.todo[1..], inFlight := None, pending := AfterRetry(o.pending, p, item, ok, o.passTime)), p,
           S.LogSettle(LogOf(o.logs, p), Messages(o.pending, p), item, ok))
  }

  function NumberStep(o: Outbox, p: PeerId, text: string): Outbox {
    var log := LogOf(o.logs, p);
    var sequence := Successor(Number(o.sendSeq, p));
    SetLog(SetPhase(o.(sendSeq := o.sendSeq[p := sequence]), p, S.Numbered(sequence, text)), p,
           S.LogNumber(log))
  }

  function BuildFailsStep(o: Outbox, p: PeerId): Outbox
    requires PhaseOf(o.sending, p).Numbered?
  {
    var log := LogOf(o.logs, p);
    SetLog(SetPhase(o, p, S.Idle), p, log.(failed := log.failed + {o.sending.phase.sequence}))
  }

  function TrackStep(o: Outbox, p: PeerId, e: Envelope, now: int, ref: nat): Outbox {
    var log := LogOf(o.logs, p);
    var messages := Messages(o.pending, p)[e.id := S.Pending(e, now, 1, ref)];
    SetLog(SetPhase(o.(pending := o.pending[p := messages]), p, S.Tracked(e)), p,
           S.LogTrack(log, e, now))
  }

  function WriteStep(o: Outbox, p: PeerId, ok: bool): Outbox
    requires PhaseOf(o.sending, p).Tracked?
  {
    var e := o.sending.phase.envelope;
    SetLog(SetPhase(o, p, if ok then S.Idle else S.Unwinding(e)), p, S.LogWrite(LogOf(o.logs, p), e))
  }

  function UnwindStep(o: Outbox, p: PeerId): Outbox
    requires PhaseOf(o.sending, p).Unwinding?
  {
    var log := LogOf(o.logs, p);
    var e := o.sending.phase.envelope;
    SetLog(SetPhase(o.(pending := RemovePending(o.pending, p, e.id)), p, S.Idle), p,
           log.(failed := log.failed + {e.sequence}))
  }

  function RetryWriteStep(o: Outbox, p: PeerId, ok: bool): Outbox
    requires o.todo != []
  {
    SetLog(o.(inFlight := Some(ok)), p, S.LogRetry(LogOf(o.logs, p), o.todo[0].item.envelope, o.passTime))
  }

  function AcknowledgeStep(o: Outbox, p: PeerId, id: string): Outbox {
    var log := LogOf(o.logs, p);
    SetLog(o.(pending := RemovePending(o.pending, p, id)), p, log.(acknowledged := log.acknowledged + {id}))
  }

  /** The steps of `sendChat`, the retransmitter and the acknowledgement handler for peer `p`. */
  ghost function SenderStep(o: Outbox, p: PeerId, ev: S.Event): Outbox
    requires SenderEnabled(o, p, ev)
  {
    match ev
    case Number(text) => NumberStep(o, p, text)
    case BuildFails => BuildFailsStep(o, p)
    case Track(e, now, ref) => TrackStep(o, p, e, now, ref)
    case Write(ok) => WriteStep(o, p, ok)
    case Unwind => UnwindStep(o, p)
    case RetryWrite(ok) => RetryWriteStep(o, p, ok)
    case RetrySkip => o.(todo := o.todo[1..])
    case Settle => SettleStep(o, p)
    case Acknowledge(id) => AcknowledgeStep(o, p, id)
  }

  function Ack(i: Inbox, p: PeerId, id: string): Inbox {
    i.(acked := i.acked[p := Strings(i.acked, p) + [id]])
  }

  function Deliver(i: Inbox, p: PeerId, text: string): Inbox {
    i.(delivered := i.delivered[p := Strings(i.delivered, p) + [text]])
  }

  /** A chat from peer `p`, up to the drain loop. */
  function ReceiveStep(i: Inbox, p: PeerId, e: Envelope): Inbox {
    var last := Number(i.recvSeq, p);
    if !Deliverable(e) then
      i
    else if e.sequence <= last then
      Ack(i, p, e.id)
    else if e.sequence > Successor(last) then
      var buffer := Buffer(i.recvBuffer, p);
      if |buffer| >= R.MAX_RECEIVE_BUFFER then i
      else Ack(i.(recvBuffer := i.recvBuffer[p := buffer[e.sequence := e]]), p, e.id)
    else
      Ack(Deliver(i.(recvSeq := i.recvSeq[p := e.sequence], draining := i.draining + {p}), p, Text(e)), p, e.id)
  }

  /** One turn of the drain loop for peer `p`. */
  function DrainStep(i: Inbox, p: PeerId): Inbox {
    var next := Successor(Number(i.recvSeq, p));
    var buffer := Buffer(i.recvBuffer, p);
    if next !in buffer then
      i.(draining := i.draining - {p})
    else
      var e := buffer[next];
      var taken := i.(recvBuffer := i.recvBuffer[p := buffer - {next}], recvSeq := i.recvSeq[p := next]);
      if Deliverable(e) then Ack(Deliver(taken, p, Text(e)), p, e.id) else taken
  }

  function ConnectStep(m: Manager, p: PeerId): Manager {
    Manager(m.streams + {p}, m.sessions + {p},
            m.outbox.(sendSeq := m.outbox.sendSeq[p := 0],
                      logs := m.outbox.logs[p := S.LogSession(LogOf(m.outbox.logs, p), PhaseOf(m.outbox.sending, p))]),
            m.inbox.(recvSeq := m.inbox.recvSeq[p := 0], recvBuffer := m.inbox.recvBuffer[p := map[]],
                     delivered := m.inbox.delivered[p := []], acked := m.inbox.acked[p := []]))
  }

  function DisconnectStep(m: Manager, p: PeerId): Manager {
    Manager(m.streams - {p}, m.sessions - {p}, m.outbox.(sendSeq := m.outbox.sendSeq - {p}),
            m.inbox.(recvSeq := m.inbox.recvSeq - {p}, recvBuffer := m.inbox.recvBuffer - {p}))
  }

  ghost function Step(m: Manager, ev: Event): Manager
    requires Enabled(m, ev)
  {
    match ev
    case Pass(now, jobs) => m.(outbox := m.outbox.(passTime := now, todo := jobs, inFlight := None))
    case For(p, AtSender(event)) => m.(outbox := SenderStep(m.outbox, p, event))
    case For(p, ChatArrives(e)) => m.(inbox := ReceiveStep(m.inbox, p, e))
    case For(p, Drains) => m.(inbox := DrainStep(m.inbox, p))
    case For(p, Connects) => ConnectStep(m, p)
    case For(p, Disconnects) => DisconnectStep(m, p)
    case For(p, Forgets) => m.(outbox := m.outbox.(pending := m.outbox.pending - {p}))
  }

  /** What an event of the manager is to one peer: at most one event of that peer's machine. */
  function ProjectEvent(ev: Event, q: PeerId): seq<P.Event> {
    match ev
    case For(p, e) => if p == q then [e] else []
    case Pass(now, jobs) => [P.AtSender(S.Snapshot(now, JobsOf(jobs, q)))]
  }

  function Project(run: seq<Event>, q: PeerId): seq<P.Event> {
    if run == [] then [] else ProjectEvent(run[0], q) + Project(run[1..], q)
  }

  /** How removing a message looks from each peer: a map that is not there reads as an empty one. */
  lemma RemovePendingView(pending: map<PeerId, map<string, S.Pending>>, p: PeerId, id: string, q: PeerId)
    ensures Messages(RemovePending(pending, p, id), q) ==
            if q == p then Messages(pending, p) - {id} else Messages(pending, q)
  {
    if q == p {
      RemoveOwnPending(pending, p, id);
    }
  }

  lemma RemoveOwnPending(pending: map<PeerId, map<string, S.Pending>>, p: PeerId, id: string)
    ensures Messages(RemovePending(pending, p, id), p) == Messages(pending, p) - {id}
  {
    var messages := Messages(pending, p) - {id};
    assert |messages| == 0 ==> messages == map[];
  }

  lemma JobsOfTail(todo: seq<Job>, q: PeerId)
    requires todo != []
    ensures
      if todo[0].peer == q then
        JobsOf(todo, q) != [] && JobsOf(todo, q)[0] == todo[0].item && JobsOf(todo, q)[1..] == JobsOf(todo[1..], q)
      else
        JobsOf(todo, q) == JobsOf(todo[1..], q)
  {
  }

  lemma SendChatProjects(o: Outbox, p: PeerId, ev: S.Event, q: PeerId)
    requires SenderEnabled(o, p, ev) && (ev.Number? || ev.BuildFails? || ev.Track? || ev.Write?)
    ensures SenderOf(SenderStep(o, p, ev), q) == if q == p then S.Step(SenderOf(o, p), ev) else SenderOf(o, q)
  {
  }

  lemma RemovalProjects(o: Outbox, p: PeerId, ev: S.Event, q: PeerId)
    requires SenderEnabled(o, p, ev) && (ev.Unwind? || ev.Acknowledge?)
    ensures SenderOf(SenderStep(o, p, ev), q) == if q == p then S.Step(SenderOf(o, p), ev) else SenderOf(o, q)
  {
    var id := if ev.Unwind? then o.sending.phase.envelope.id else ev.id;
    RemovePendingView(o.pending, p, id, q);
  }

  lemma RetryProjects(o: Outbox, p: PeerId, ev: S.Event, q: PeerId)
    requires SenderEnabled(o, p, ev) && (ev.RetryWrite? || ev.RetrySkip?)
    ensures SenderOf(SenderStep(o, p, ev), q) == if q == p then S.Step(SenderOf(o, p), ev) else SenderOf(o, q)
  {
    JobsOfTail(o.todo, q);
    JobsOfTail(o.todo, p);
  }

  /** How settling looks from each peer. */
  lemma AfterRetryView(pending: map<PeerId, map<string, S.Pending>>, p: PeerId, item: S.Item, ok: bool, at: int,
                       q: PeerId)
    ensures Messages(AfterRetry(pending, p, item, ok, at), q) ==
            if q == p then S.AfterRetry(Messages(pending, p), item, ok, at) else Messages(pending, q)
  {
    RemovePendingView(pending, p, item.envelope.id, q);
  }

  lemma SettleOther(o: Outbox, p: PeerId, q: PeerId)
    requires SenderEnabled(o, p, S.Settle) && q != p
    ensures SenderOf(SettleStep(o, p), q) == SenderOf(o, q)
  {
    AfterRetryView(o.pending, p, o.todo[0].item, o.inFlight.value, o.passTime, q);
    JobsOfTail(o.todo, q);
  }

  lemma SettleOwn(o: Outbox, p: PeerId)
    requires SenderEnabled(o, p, S.Settle)
    ensures SenderOf(SettleStep(o, p), p) == S.SettleHead(SenderOf(o, p))
  {
    AfterRetryView(o.pending, p, o.todo[0].item, o.inFlight.value, o.passTime, p);
    JobsOfTail(o.todo, p);
  }

  lemma SenderStepProjects(o: Outbox, p: PeerId, ev: S.Event, q: PeerId)
    requires SenderEnabled(o, p, ev)
    ensures SenderOf(SenderStep(o, p, ev), q) == if q == p then S.Step(SenderOf(o, p), ev) else SenderOf(o, q)
  {
    match ev
    case Unwind => RemovalProjects(o, p, ev, q);
    case Acknowledge(_) => RemovalProjects(o, p, ev, q);
    case RetryWrite(_) => RetryProjects(o, p, ev, q);
    case RetrySkip => RetryProjects(o, p, ev, q);
    case Settle => if q == p { SettleOwn(o, p); } else { SettleOther(o, p, q); }
    case _ => SendChatProjects(o, p, ev, q);
  }

  lemma ReceiveOwn(i: Inbox, p: PeerId, e: Envelope)
    requires p !in i.draining
    ensures ReceiverOf(ReceiveStep(i, p, e), p) == R.Receive(ReceiverOf(i, p), e)
  {
    var last, buffer := Number(i.recvSeq, p), Buffer(i.recvBuffer, p);
    if !Deliverable(e) {
    } else if e.sequence <= last {
      AckOwn(i, p, e.id);
    } else if e.sequence > Successor(last) {
      AckOwn(i.(recvBuffer := i.recvBuffer[p := buffer[e.sequence := e]]), p, e.id);
    } else {
      var taken := i.(recvSeq := i.recvSeq[p := e.sequence], draining := i.draining + {p});
      DeliverOwn(taken, p, Text(e));
      AckOwn(Deliver(taken, p, Text(e)), p, e.id);
    }
  }

  lemma AckOwn(i: Inbox, p: PeerId, id: string)
    ensures ReceiverOf(Ack(i, p, id), p) == ReceiverOf(i, p).(acked := Strings(i.acked, p) + [id])
  {
  }

  lemma DeliverOwn(i: Inbox, p: PeerId, text: string)
    ensures ReceiverOf(Deliver(i, p, text), p) == ReceiverOf(i, p).(delivered := Strings(i.delivered, p) + [text])
  {
  }

  lemma AckOther(i: Inbox, p: PeerId, id: string, q: PeerId)
    requires q != p
    ensures ReceiverOf(Ack(i, p, id), q) == ReceiverOf(i, q)
  {
  }

  lemma DeliverOther(i: Inbox, p: PeerId, text: string, q: PeerId)
    requires q != p
    ensures ReceiverOf(Deliver(i, p, text), q) == ReceiverOf(i, q)
  {
  }

  lemma ReceiveOther(i: Inbox, p: PeerId, e: Envelope, q: PeerId)
    requires q != p
    ensures ReceiverOf(ReceiveStep(i, p, e), q) == ReceiverOf(i, q)
  {
    var last, buffer := Number(i.recvSeq, p), Buffer(i.recvBuffer, p);
    if !Deliverable(e) {
    } else if e.sequence <= last {
      AckOther(i, p, e.id, q);
    } else if e.sequence > Successor(last) {
      AckOther(i.(recvBuffer := i.recvBuffer[p := buffer[e.sequence := e]]), p, e.id, q);
    } else {
      var taken := i.(recvSeq := i.recvSeq[p := e.sequence], draining := i.draining + {p});
      DeliverOther(taken, p, Text(e), q);
      AckOther(Deliver(taken, p, Text(e)), p, e.id, q);
    }
  }

  lemma ReceiveProjects(i: Inbox, p: PeerId, e: Envelope, q: PeerId)
    requires p !in i.draining
    ensures ReceiverOf(ReceiveStep(i, p, e), q) == if q == p then R.Receive(ReceiverOf(i, p), e) else ReceiverOf(i, q)
  {
    if q == p { ReceiveOwn(i, p, e); } else { ReceiveOther(i, p, e, q); }
  }

  lemma DrainOwn(i: Inbox, p: PeerId)
    requires p in i.draining
    ensures ReceiverOf(DrainStep(i, p), p) == R.DrainOne(ReceiverOf(i, p))
  {
  }

  lemma DrainOther(i: Inbox, p: PeerId, q: PeerId)
    requires q != p
    ensures ReceiverOf(DrainStep(i, p), q) == ReceiverOf(i, q)
  {
  }

  lemma DrainProjects(i: Inbox, p: PeerId, q: PeerId)
    requires p in i.draining
    ensures ReceiverOf(DrainStep(i, p), q) == if q == p then R.DrainOne(ReceiverOf(i, p)) else ReceiverOf(i, q)
  {
    if q == p { DrainOwn(i, p); } else { DrainOther(i, p, q); }
  }

  lemma LifecycleProjects(m: Manager, p: PeerId, ev: P.Event, q: PeerId)
    requires Enabled(m, For(p, ev)) && (ev.Connects? || ev.Disconnects? || ev.Forgets?)
    ensures View(Step(m, For(p, ev)), q) == if q == p then P.Step(View(m, p), ev) else View(m, q)
  {
  }

  /** One step of the manager for peer `p` is one step of that peer's machine and invisible to every other. */
  lemma StepForProjects(m: Manager, p: PeerId, ev: P.Event, q: PeerId)
    requires Enabled(m, For(p, ev))
    ensures View(Step(m, For(p, ev)), q) == if q == p then P.Step(View(m, p), ev) else View(m, q)
  {
    match ev
    case AtSender(event) => SenderStepProjects(m.outbox, p, event, q);
    case ChatArrives(e) => ReceiveProjects(m.inbox, p, e, q);
    case Drains => DrainProjects(m.inbox, p, q);
    case _ => LifecycleProjects(m, p, ev, q);
  }

  lemma PassProjects(m: Manager, now: int, jobs: seq<Job>, q: PeerId)
    requires Enabled(m, Pass(now, jobs))
    ensures
      var snapshot := P.AtSender(S.Snapshot(now, JobsOf(jobs, q)));
      P.Enabled(View(m, q), snapshot) && View(Step(m, Pass(now, jobs)), q) == P.Step(View(m, q), snapshot)
  {
  }

  /** One step of the manager is, for each peer, at most one step of that peer's machine. */
  lemma StepProjects(m: Manager, ev: Event, q: PeerId)
    requires Enabled(m, ev)
    ensures Runs.Legal(P.Step, View(m, q), ProjectEvent(ev, q))
    ensures Runs.Run(P.Step, View(m, q), ProjectEvent(ev, q)) == View(Step(m, ev), q)
  {
    match ev
    case Pass(now, jobs) =>
      PassProjects(m, now, jobs, q);
      Runs.One(P.Step, View(m, q), P.AtSender(S.Snapshot(now, JobsOf(jobs, q))));
    case For(p, e) =>
      StepForProjects(m, p, e, q);
      if p == q {
        Runs.One(P.Step, View(m, q), e);
      }
  }

  /** Multi-peer projection: any interleaving of manager steps over any number of peers, seen from one peer,
      is a run of the single-peer machine. */
  lemma {:induction false} RunProjects(m: Manager, run: seq<Event>, q: PeerId)
    requires Runs.Legal(Step, m, run)
    ensures Runs.Legal(P.Step, View(m, q), Project(run, q))
    ensures View(Runs.Run(Step, m, run), q) == Runs.Run(P.Step, View(m, q), Project(run, q))
    decreases |run|
  {
    if run != [] {
      StepProjects(m, run[0], q);
      RunProjects(Step(m, run[0]), run[1..], q);
      Runs.Concat(P.Step, View(m, q), ProjectEvent(run[0], q), Project(run[1..], q));
    }
  }

  /** Streams and sessions come and go together, and no peer keeps an empty map of pending messages. */
  predicate Tidy(m: Manager) {
    m.streams == m.sessions && NoEmptyMaps(m.outbox)
  }

  predicate NoEmptyMaps(o: Outbox) {
    forall p | p in o.pending :: o.pending[p] != map[]
  }

  lemma RemovalKeepsTidy(pending: map<PeerId, map<string, S.Pending>>, p: PeerId, id: string)
    requires forall q | q in pending :: pending[q] != map[]
    ensures forall q | q in RemovePending(pending, p, id) :: RemovePending(pending, p, id)[q] != map[]
  {
  }

  lemma SettleKeepsTidy(o: Outbox, p: PeerId)
    requires NoEmptyMaps(o) && o.todo != [] && o.inFlight.Some?
    ensures NoEmptyMaps(SettleStep(o, p))
  {
    var id := o.todo[0].item.envelope.id;
    RemovalKeepsTidy(o.pending, p, id);
    var t := SettleStep(o, p);
    forall q | q in t.pending ensures t.pending[q] != map[] {
      assert q == p && id in t.pending[q] ==> t.pending[q] != map[];
    }
  }

  lemma SenderStepKeepsTidy(o: Outbox, p: PeerId, ev: S.Event)
    requires NoEmptyMaps(o) && SenderEnabled(o, p, ev)
    ensures NoEmptyMaps(SenderStep(o, p, ev))
  {
    match ev
    case Unwind => RemovalKeepsTidy(o.pending, p, o.sending.phase.envelope.id);
    case Acknowledge(id) => RemovalKeepsTidy(o.pending, p, id);
    case Settle => SettleKeepsTidy(o, p);
    case Track(e, _, _) => assert e.id in SenderStep(o, p, ev).pending[p];
    case _ =>
  }

  lemma StepKeepsTidy(m: Manager, ev: Event)
    requires Tidy(m) && Enabled(m, ev)
    ensures Tidy(Step(m, ev))
  {
    if ev.For? && ev.event.AtSender? {
      SenderStepKeepsTidy(m.outbox, ev.peer, ev.event.event);
    }
  }

  /** In every run that starts from the empty manager. */
  lemma {:induction false} RunKeepsTidy(m: Manager, run: seq<Event>)
    requires Tidy(m) && Runs.Legal(Step, m, run)
    ensures Tidy(Runs.Run(Step, m, run))
    decreases |run|
  {
    if run != [] {
      StepKeepsTidy(m, run[0]);
      RunKeepsTidy(Step(m, run[0]), run[1..]);
    }
  }
}
