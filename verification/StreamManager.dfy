/** The stream manager as the program has it: an object whose maps its methods update in place. Each method
    below is one operation of the program run without interruption, and its contract says which run of the
    step model it performs. The critical sections inside are the steps of that run. */
module Streams {
  import opened Prelude
  import opened Envelopes
  import R = Receiving
  import S = Sending
  import P = PeerMachine
  import Conversations
  import Sessions
  import Handshakes
  import opened Managing
  import opened Passes
  import opened Runs

  function Jobs(p: PeerId, items: seq<S.Item>): seq<Job> {
    seq(|items|, i requires 0 <= i < |items| => Job(p, items[i]))
  }

  lemma {:induction false} JobsOfConcat(first: seq<Job>, second: seq<Job>, q: PeerId)
    ensures JobsOf(first + second, q) == JobsOf(first, q) + JobsOf(second, q)
  {
    if first == [] {
      assert first + second == second;
    } else {
      var both, rest := first + second, first[1..];
      var head := if first[0].peer == q then [first[0].item] else [];
      JobsOfConcat(rest, second, q);
      assert both[0] == first[0] && both[1..] == rest + second;
      assert JobsOf(both, q) == head + JobsOf(rest + second, q);
      assert JobsOf(first, q) == head + JobsOf(rest, q);
    }
  }

  lemma {:induction false} JobsOfJobs(p: PeerId, items: seq<S.Item>, q: PeerId)
    ensures JobsOf(Jobs(p, items), q) == if q == p then items else []
  {
    if items != [] {
      JobsOfJobs(p, items[1..], q);
      assert Jobs(p, items)[1..] == Jobs(p, items[1..]);
    }
  }

  /** The inner loop of the snapshot: one peer's due messages, in whatever order the map gives them. */
  method DueMessages(messages: map<string, S.Pending>, now: int) returns (items: seq<S.Item>)
    requires forall id | id in messages :: messages[id].envelope.id == id
    ensures S.IsSnapshot(messages, now, items)
  {
    items := [];
    var left := messages.Keys;
    while left != {}
      invariant left <= messages.Keys
      invariant forall i | 0 <= i < |items| ::
        var id := items[i].envelope.id;
        && id in messages && id !in left && S.Due(messages[id], now)
        && items[i] == S.Item(messages[id].envelope, messages[id].ref)
      invariant forall i, j | 0 <= i < j < |items| :: items[i].envelope.id != items[j].envelope.id
      invariant forall id | id in messages && id !in left && S.Due(messages[id], now) ::
        S.Item(messages[id].envelope, messages[id].ref) in items
    {
      var id :| id in left;
      var message := messages[id];
      if now - message.lastSent >= S.PENDING_TIMEOUT {
        items := items + [S.Item(message.envelope, message.ref)];
      }
      left := left - {id};
    }
  }

  lemma RunThen(m: Manager, run: seq<Event>, ev: Event)
    requires Legal(Step, m, run) && Enabled(Run(Step, m, run), ev)
    ensures Legal(Step, m, run + [ev]) && Run(Step, m, run + [ev]) == Step(Run(Step, m, run), ev)
  {
    Then(Step, m, run, ev);
  }

  lemma SenderEventRuns(m: Manager, p: PeerId, ev: S.Event)
    requires SenderEnabled(m.outbox, p, ev) && !OnPass(ev)
    ensures Enabled(m, For(p, P.AtSender(ev)))
    ensures Step(m, For(p, P.AtSender(ev))) == m.(outbox := SenderStep(m.outbox, p, ev))
  {
  }

  /** The two steps of one retry to a connected peer. */
  lemma RetryRuns(m: Manager, p: PeerId, ok: bool)
    requires m.outbox.todo != [] && m.outbox.todo[0].peer == p && m.outbox.inFlight.None?
    requires p in m.streams && p in m.sessions
    ensures
      var run := [For(p, P.AtSender(S.RetryWrite(ok)))] + [For(p, P.AtSender(S.Settle))];
      && Legal(Step, m, run)
      && Run(Step, m, run) == m.(outbox := SettleStep(RetryWriteStep(m.outbox, p, ok), p))
  {
    var write, settle := For(p, P.AtSender(S.RetryWrite(ok))), For(p, P.AtSender(S.Settle));
    JobsOfTail(m.outbox.todo, p);
    RunThen(m, [], write);
    assert [] + [write] == [write];
    var t := Run(Step, m, [write]);
    JobsOfTail(t.outbox.todo, p);
    RunThen(m, [write], settle);
  }

  lemma SkipRuns(m: Manager, p: PeerId)
    requires m.outbox.todo != [] && m.outbox.todo[0].peer == p && m.outbox.inFlight.None?
    requires !(p in m.streams && p in m.sessions)
    ensures
      var run := [For(p, P.AtSender(S.RetrySkip))];
      Legal(Step, m, run) && Run(Step, m, run) == m.(outbox := m.outbox.(todo := m.outbox.todo[1..]))
  {
    var skip := For(p, P.AtSender(S.RetrySkip));
    JobsOfTail(m.outbox.todo, p);
    RunThen(m, [], skip);
    assert [] + [skip] == [skip];
  }

  lemma PassRuns(m: Manager, now: int, jobs: seq<Job>)
    requires m.outbox.todo == []
    requires forall p :: S.IsSnapshot(Messages(m.outbox.pending, p), now, JobsOf(jobs, p))
    ensures Legal(Step, m, [Pass(now, jobs)])
    ensures Run(Step, m, [Pass(now, jobs)]) == m.(outbox := m.outbox.(passTime := now, todo := jobs, inFlight := None))
  {
    RunThen(m, [], Pass(now, jobs));
    assert [] + [Pass(now, jobs)] == [Pass(now, jobs)];
  }

  lemma ForgetRuns(m: Manager, p: PeerId)
    ensures
      var run := [For(p, P.Disconnects), For(p, P.Forgets)];
      var t := DisconnectStep(m, p);
      && Legal(Step, m, run)
      && Run(Step, m, run) == t.(outbox := t.outbox.(pending := m.outbox.pending - {p}))
  {
    var first := For(p, P.Disconnects);
    RunThen(m, [], first);
    assert [] + [first] == [first];
    RunThen(m, [first], For(p, P.Forgets));
    assert [first] + [For(p, P.Forgets)] == [first, For(p, P.Forgets)];
  }

  /** Every peer's map of pending messages is non-empty and files each message under its own id. */
  predicate Filed(pending: map<PeerId, map<string, S.Pending>>) {
    forall p | p in pending :: pending[p] != map[] && forall id | id in pending[p] :: pending[p][id].envelope.id == id
  }

  lemma RemovalStaysFiled(pending: map<PeerId, map<string, S.Pending>>, p: PeerId, id: string)
    requires Filed(pending)
    ensures Filed(RemovePending(pending, p, id))
  {
  }

  /** What `sendChat` does, step by step, once the peer is known to be connected. */
  function SendEvents(p: PeerId, text: string, built: Result<Envelope, BuildError>, now: int, ref: nat, writeOk: bool)
    : seq<Event>
  {
    var number := For(p, P.AtSender(S.Number(text)));
    match built
    case Err(_) => [number] + [For(p, P.AtSender(S.BuildFails))]
    case Ok(e) =>
      var written := [number] + [For(p, P.AtSender(S.Track(e, now, ref)))] + [For(p, P.AtSender(S.Write(writeOk)))];
      if writeOk then written else written + [For(p, P.AtSender(S.Unwind))]
  }

  /** The outbox after `sendChat` has tracked and written its message. */
  function Sent(o: Outbox, p: PeerId, text: string, e: Envelope, now: int, ref: nat, ok: bool): Outbox
  {
    WriteStep(TrackStep(NumberStep(o, p, text), p, e, now, ref), p, ok)
  }

  lemma NumberRuns(m: Manager, p: PeerId, text: string)
    requires m.outbox.sending.NotSending?
    ensures
      var number := For(p, P.AtSender(S.Number(text)));
      Legal(Step, m, [number]) && Run(Step, m, [number]) == m.(outbox := NumberStep(m.outbox, p, text))
  {
    var ev := S.Number(text);
    SenderEventRuns(m, p, ev);
    RunThen(m, [], For(p, P.AtSender(ev)));
    assert [] + [For(p, P.AtSender(ev))] == [For(p, P.AtSender(ev))];
  }

  lemma BuildFailureRuns(m: Manager, p: PeerId, text: string)
    requires m.outbox.sending.NotSending?
    ensures
      var run := [For(p, P.AtSender(S.Number(text)))] + [For(p, P.AtSender(S.BuildFails))];
      Legal(Step, m, run) && Run(Step, m, run) == m.(outbox := BuildFailsStep(NumberStep(m.outbox, p, text), p))
  {
    NumberRuns(m, p, text);
    var t := m.(outbox := NumberStep(m.outbox, p, text));
    SenderEventRuns(t, p, S.BuildFails);
    RunThen(m, [For(p, P.AtSender(S.Number(text)))], For(p, P.AtSender(S.BuildFails)));
  }

  /** A successfully built envelope, as the tracking step needs it. */
  predicate Trackable(o: Outbox, p: PeerId, text: string, e: Envelope) {
    && e.typ == TYPE_CHAT && e.sequence == Successor(Number(o.sendSeq, p)) && e.sequence >= 1
    && e.body.chatText == Some(text) && e.id !in LogOf(o.logs, p).rounds
  }

  lemma TrackRuns(m: Manager, p: PeerId, text: string, e: Envelope, now: int, ref: nat)
    requires m.outbox.sending.NotSending? && Trackable(m.outbox, p, text, e)
    ensures
      var run := [For(p, P.AtSender(S.Number(text)))] + [For(p, P.AtSender(S.Track(e, now, ref)))];
      && Legal(Step, m, run)
      && Run(Step, m, run) == m.(outbox := TrackStep(NumberStep(m.outbox, p, text), p, e, now, ref))
  {
    NumberRuns(m, p, text);
    var t := m.(outbox := NumberStep(m.outbox, p, text));
    SenderEventRuns(t, p, S.Track(e, now, ref));
    RunThen(m, [For(p, P.AtSender(S.Number(text)))], For(p, P.AtSender(S.Track(e, now, ref))));
  }

  lemma WriteRuns(m: Manager, p: PeerId, text: string, e: Envelope, now: int, ref: nat, ok: bool)
    requires m.outbox.sending.NotSending? && Trackable(m.outbox, p, text, e)
    ensures
      var run := [For(p, P.AtSender(S.Number(text)))] + [For(p, P.AtSender(S.Track(e, now, ref)))] +
                 [For(p, P.AtSender(S.Write(ok)))];
      Legal(Step, m, run) && Run(Step, m, run) == m.(outbox := Sent(m.outbox, p, text, e, now, ref, ok))
  {
    TrackRuns(m, p, text, e, now, ref);
    var t := m.(outbox := TrackStep(NumberStep(m.outbox, p, text), p, e, now, ref));
    SenderEventRuns(t, p, S.Write(ok));
    RunThen(m, [For(p, P.AtSender(S.Number(text)))] + [For(p, P.AtSender(S.Track(e, now, ref)))],
            For(p, P.AtSender(S.Write(ok))));
  }

  lemma UnwindRuns(m: Manager, p: PeerId, text: string, e: Envelope, now: int, ref: nat)
    requires m.outbox.sending.NotSending? && Trackable(m.outbox, p, text, e)
    ensures
      var run := [For(p, P.AtSender(S.Number(text)))] + [For(p, P.AtSender(S.Track(e, now, ref)))] +
                 [For(p, P.AtSender(S.Write(false)))] + [For(p, P.AtSender(S.Unwind))];
      && Legal(Step, m, run)
      && Run(Step, m, run) == m.(outbox := UnwindStep(Sent(m.outbox, p, text, e, now, ref, false), p))
  {
    WriteRuns(m, p, text, e, now, ref, false);
    var t := m.(outbox := Sent(m.outbox, p, text, e, now, ref, false));
    SenderEventRuns(t, p, S.Unwind);
    RunThen(m, [For(p, P.AtSender(S.Number(text)))] + [For(p, P.AtSender(S.Track(e, now, ref)))] +
               [For(p, P.AtSender(S.Write(false)))], For(p, P.AtSender(S.Unwind)));
  }

  /** The outbox that `sendChat` leaves behind. */
  function AfterSend(o: Outbox, p: PeerId, text: string, built: Result<Envelope, BuildError>, now: int, ref: nat,
                     ok: bool): Outbox
  {
    if built.Err? then BuildFailsStep(NumberStep(o, p, text), p)
    else if ok then Sent(o, p, text, built.value, now, ref, true)
    else UnwindStep(Sent(o, p, text, built.value, now, ref, false), p)
  }

  /** `sendChat` as a run of the step model, with its final state. */
  lemma SendRuns(m: Manager, p: PeerId, text: string, built: Result<Envelope, BuildError>, now: int, ref: nat, ok: bool)
    requires m.outbox.sending.NotSending? && (built.Ok? ==> Trackable(m.outbox, p, text, built.value))
    ensures
      var run := SendEvents(p, text, built, now, ref, ok);
      Legal(Step, m, run) && Run(Step, m, run) == m.(outbox := AfterSend(m.outbox, p, text, built, now, ref, ok))
  {
    if built.Err? {
      BuildFailureRuns(m, p, text);
    } else if ok {
      WriteRuns(m, p, text, built.value, now, ref, true);
    } else {
      UnwindRuns(m, p, text, built.value, now, ref);
    }
  }

  function Tracked(pending: map<PeerId, map<string, S.Pending>>, p: PeerId, e: Envelope, now: int, ref: nat)
    : map<PeerId, map<string, S.Pending>>
  {
    pending[p := Messages(pending, p)[e.id := S.Pending(e, now, 1, ref)]]
  }

  /** Which maps `sendChat` changes: the message stays pending exactly when it was built and written. */
  function PendingAfterSend(pending: map<PeerId, map<string, S.Pending>>, p: PeerId,
                            built: Result<Envelope, BuildError>, now: int, ref: nat, ok: bool)
    : map<PeerId, map<string, S.Pending>>
  {
    if built.Err? then pending
    else if ok then Tracked(pending, p, built.value, now, ref)
    else RemovePending(Tracked(pending, p, built.value, now, ref), p, built.value.id)
  }

  /** One message is gone, and nothing else has changed. */
  ghost predicate OnlyGone(before: map<PeerId, map<string, S.Pending>>, after: map<PeerId, map<string, S.Pending>>,
                           p: PeerId, id: string)
  {
    forall q :: Messages(after, q) == if q == p then Messages(before, q) - {id} else Messages(before, q)
  }

  lemma RemovalLeaves(pending: map<PeerId, map<string, S.Pending>>, p: PeerId, id: string)
    ensures OnlyGone(pending, RemovePending(pending, p, id), p, id)
  {
    forall q {
      RemovePendingView(pending, p, id, q);
    }
  }

  /** The pending messages for one peer: to the peer written to, one message with one attempt, if it was built and
      written; otherwise nothing under that id; to other peers, what there was. */
  function MessagesAfterSend(was: map<string, S.Pending>, mine: bool, built: Result<Envelope, BuildError>, now: int,
                             ref: nat, ok: bool): map<string, S.Pending>
  {
    if !mine || built.Err? then was
    else if ok then was[built.value.id := S.Pending(built.value, now, 1, ref)]
    else was - {built.value.id}
  }

  ghost predicate SendOutcome(before: map<PeerId, map<string, S.Pending>>, after: map<PeerId, map<string, S.Pending>>,
                              p: PeerId, built: Result<Envelope, BuildError>, now: int, ref: nat, ok: bool)
  {
    forall q :: Messages(after, q) == MessagesAfterSend(Messages(before, q), q == p, built, now, ref, ok)
  }

  lemma TrackedView(pending: map<PeerId, map<string, S.Pending>>, p: PeerId, e: Envelope, now: int, ref: nat, q: PeerId)
    ensures
      Messages(Tracked(pending, p, e, now, ref), q) ==
        if q == p then Messages(pending, p)[e.id := S.Pending(e, now, 1, ref)] else Messages(pending, q)
  {
  }

  lemma SentView(pending: map<PeerId, map<string, S.Pending>>, p: PeerId, built: Result<Envelope, BuildError>,
                 now: int, ref: nat, ok: bool, q: PeerId)
    ensures
      Messages(PendingAfterSend(pending, p, built, now, ref, ok), q) ==
        MessagesAfterSend(Messages(pending, q), q == p, built, now, ref, ok)
  {
    if built.Ok? {
      var e := built.value;
      TrackedView(pending, p, e, now, ref, q);
      RemovePendingView(Tracked(pending, p, e, now, ref), p, e.id, q);
    }
  }

  lemma SendHasOutcome(pending: map<PeerId, map<string, S.Pending>>, p: PeerId, built: Result<Envelope, BuildError>,
                       now: int, ref: nat, ok: bool)
    ensures SendOutcome(pending, PendingAfterSend(pending, p, built, now, ref, ok), p, built, now, ref, ok)
  {
    forall q
      ensures Messages(PendingAfterSend(pending, p, built, now, ref, ok), q) ==
              MessagesAfterSend(Messages(pending, q), q == p, built, now, ref, ok)
    {
      SentView(pending, p, built, now, ref, ok, q);
    }
  }

  lemma SendLeaves(o: Outbox, p: PeerId, text: string, built: Result<Envelope, BuildError>, now: int, ref: nat,
                   ok: bool)
    requires o.sending.NotSending?
    ensures
      var after := AfterSend(o, p, text, built, now, ref, ok);
      && after == Outbox(o.sendSeq[p := Successor(Number(o.sendSeq, p))],
                         PendingAfterSend(o.pending, p, built, now, ref, ok),
                         NotSending, o.passTime, o.todo, o.inFlight, after.logs)
  {
  }

  lemma SendRefines(m: Manager, p: PeerId, text: string, built: Result<Envelope, BuildError>, now: int, ref: nat,
                    ok: bool)
    returns (logs: map<PeerId, S.Log>)
    requires m.outbox.sending.NotSending? && (built.Ok? ==> Trackable(m.outbox, p, text, built.value))
    ensures
      var run := SendEvents(p, text, built, now, ref, ok);
      && Legal(Step, m, run)
      && Run(Step, m, run) == m.(outbox :=
           Outbox(m.outbox.sendSeq[p := Successor(Number(m.outbox.sendSeq, p))],
                  PendingAfterSend(m.outbox.pending, p, built, now, ref, ok),
                  NotSending, m.outbox.passTime, m.outbox.todo, m.outbox.inFlight, logs))
  {
    SendRuns(m, p, text, built, now, ref, ok);
    SendLeaves(m.outbox, p, text, built, now, ref, ok);
    logs := AfterSend(m.outbox, p, text, built, now, ref, ok).logs;
  }

  lemma BuiltIsTrackable(o: Outbox, p: PeerId, text: string, conversation: string, local: PeerId, sequence: uint64,
                         bodySize: nat, id: Option<string>, clock: int)
    requires sequence == Successor(Number(o.sendSeq, p)) && (id.Some? ==> id.value !in LogOf(o.logs, p).rounds)
    ensures
      var built := NewEnvelope(TYPE_CHAT, conversation, local, sequence, Some(ChatBody(text, bodySize)), id, clock);
      built.Ok? ==> Trackable(o, p, text, built.value)
  {
    var built := NewEnvelope(TYPE_CHAT, conversation, local, sequence, Some(ChatBody(text, bodySize)), id, clock);
    if built.Ok? {
      ValidChatIsNumbered(built.value, clock);
    }
  }

  /** The same for an envelope as `sendChat` builds it. */
  lemma BuiltRefines(m: Manager, p: PeerId, text: string, conversation: string, local: PeerId, bodySize: nat,
                     id: Option<string>, clock: int, built: Result<Envelope, BuildError>, now: int, ref: nat, ok: bool)
    returns (logs: map<PeerId, S.Log>)
    requires m.outbox.sending.NotSending? && (id.Some? ==> id.value !in LogOf(m.outbox.logs, p).rounds)
    requires built == NewEnvelope(TYPE_CHAT, conversation, local, Successor(Number(m.outbox.sendSeq, p)),
                                  Some(ChatBody(text, bodySize)), id, clock)
    ensures
      var run := SendEvents(p, text, built, now, ref, ok);
      && Legal(Step, m, run)
      && Run(Step, m, run) == m.(outbox :=
           Outbox(m.outbox.sendSeq[p := Successor(Number(m.outbox.sendSeq, p))],
                  PendingAfterSend(m.outbox.pending, p, built, now, ref, ok),
                  NotSending, m.outbox.passTime, m.outbox.todo, m.outbox.inFlight, logs))
  {
    BuiltIsTrackable(m.outbox, p, text, conversation, local, Successor(Number(m.outbox.sendSeq, p)), bodySize, id,
                     clock);
    logs := SendRefines(m, p, text, built, now, ref, ok);
  }

  /** How conversations are named: the bytes of a peer id's text, and the truncated hash with its text encoding. */
  datatype Naming = Naming(utf8: string -> bytes, digest: bytes -> string)

  function ConversationOf(naming: Naming, local: PeerId, remote: PeerId): string {
    Conversations.ConversationId(naming.digest, naming.utf8(local), naming.utf8(remote))
  }

  /** What one node builds for another passes the other's checks of conversation and sender. */
  lemma BuiltIsRecognised(naming: Naming, local: PeerId, remote: PeerId, typ: string, sequence: uint64,
                          body: Option<Body>, id: Option<string>, clock: int)
    ensures
      var built := NewEnvelope(typ, ConversationOf(naming, local, remote), local, sequence, body, id, clock);
      built.Ok? ==> built.value.conversation == ConversationOf(naming, remote, local) && built.value.sender == local
  {
    Conversations.BothEndsAgree(naming.digest, naming.utf8(local), naming.utf8(remote));
  }

  /** `due` holds the due messages of every peer outside `left`, and nothing of the others. */
  ghost predicate Collected(pending: map<PeerId, map<string, S.Pending>>, now: int, due: seq<Job>, left: set<PeerId>) {
    forall p ::
      if p in left then JobsOf(due, p) == [] else S.IsSnapshot(Messages(pending, p), now, JobsOf(due, p))
  }

  lemma JobsAfter(due: seq<Job>, remote: PeerId, items: seq<S.Item>, q: PeerId)
    ensures JobsOf(due + Jobs(remote, items), q) == JobsOf(due, q) + (if q == remote then items else [])
  {
    JobsOfConcat(due, Jobs(remote, items), q);
    JobsOfJobs(remote, items, q);
  }

  lemma CollectFor(pending: map<PeerId, map<string, S.Pending>>, now: int, due: seq<Job>, left: set<PeerId>,
                   remote: PeerId, items: seq<S.Item>, q: PeerId)
    requires if q in left then JobsOf(due, q) == [] else S.IsSnapshot(Messages(pending, q), now, JobsOf(due, q))
    requires remote in left && S.IsSnapshot(Messages(pending, remote), now, items)
    ensures
      var jobs := JobsOf(due + Jobs(remote, items), q);
      if q in left - {remote} then jobs == [] else S.IsSnapshot(Messages(pending, q), now, jobs)
  {
    JobsAfter(due, remote, items, q);
    if q == remote {
      assert [] + items == items;
    } else {
      assert JobsOf(due, q) + [] == JobsOf(due, q);
    }
  }

  lemma CollectOne(pending: map<PeerId, map<string, S.Pending>>, now: int, due: seq<Job>, left: set<PeerId>,
                   remote: PeerId, items: seq<S.Item>)
    requires Collected(pending, now, due, left) && remote in left && S.IsSnapshot(Messages(pending, remote), now, items)
    ensures Collected(pending, now, due + Jobs(remote, items), left - {remote})
  {
    forall q
      ensures
        var jobs := JobsOf(due + Jobs(remote, items), q);
        if q in left - {remote} then jobs == [] else S.IsSnapshot(Messages(pending, q), now, jobs)
    {
      CollectFor(pending, now, due, left, remote, items, q);
    }
  }

  lemma RetryLeaves(o: Outbox, ok: bool) returns (logs: map<PeerId, S.Log>)
    requires o.todo != []
    ensures SettleStep(RetryWriteStep(o, o.todo[0].peer, ok), o.todo[0].peer) ==
            Outbox(o.sendSeq, AfterRetry(o.pending, o.todo[0].peer, o.todo[0].item, ok, o.passTime), o.sending,
                   o.passTime, o.todo[1..], None, logs)
  {
    logs := SettleStep(RetryWriteStep(o, o.todo[0].peer, ok), o.todo[0].peer).logs;
  }

  /** A legal run from `before` that ends in `m`. */
  ghost predicate Reaches(before: Manager, run: seq<Event>, m: Manager) {
    Legal(Step, before, run) && Run(Step, before, run) == m
  }

  /** One turn of the retransmission loop, as steps of the model. */
  lemma RetryRefines(before: Manager, run: seq<Event>, m: Manager, writeOk: (PeerId, string) -> bool)
    returns (logs: map<PeerId, S.Log>)
    requires Legal(Step, before, run) && Run(Step, before, run) == m && m.streams == m.sessions
    requires m.outbox.todo != [] && m.outbox.inFlight.None?
    ensures Legal(Step, before, run + TurnEvents(m.outbox.todo[0], m.streams, writeOk))
    ensures
      var o, job := m.outbox, m.outbox.todo[0];
      var pending := if job.peer !in m.streams then o.pending
                     else AfterRetry(o.pending, job.peer, job.item,
                                     writeOk(job.peer, job.item.envelope.id), o.passTime);
      Run(Step, before, run + TurnEvents(job, m.streams, writeOk)) ==
        m.(outbox := Outbox(o.sendSeq, pending, o.sending, o.passTime, o.todo[1..], None, logs))
  {
    var job := m.outbox.todo[0];
    var ok := writeOk(job.peer, job.item.envelope.id);
    if job.peer in m.streams {
      RetryRuns(m, job.peer, ok);
      logs := RetryLeaves(m.outbox, ok);
    } else {
      SkipRuns(m, job.peer);
      logs := m.outbox.logs;
    }
    Concat(Step, before, run, TurnEvents(job, m.streams, writeOk));
  }

  /** Drain steps until the loop has ended amount to the whole drain. */
  lemma {:induction false} DrainStepsDrain(m: Manager, turns: seq<Event>, p: PeerId)
    requires Legal(Step, m, turns) && forall i | 0 <= i < |turns| :: turns[i] == For(p, P.Drains)
    requires p in m.inbox.draining && p !in Run(Step, m, turns).inbox.draining
    ensures ReceiverOf(Run(Step, m, turns).inbox, p) == R.Drain(ReceiverOf(m.inbox, p))
    decreases |turns|
  {
    if turns != [] {
      var t := Step(m, turns[0]);
      DrainProjects(m.inbox, p, p);
      if p in t.inbox.draining {
        DrainStepsDrain(t, turns[1..], p);
      } else {
        assert |turns| > 1 ==> turns[1..][0] == For(p, P.Drains);
        assert !Enabled(t, For(p, P.Drains)) && Legal(Step, t, turns[1..]);
        assert turns[1..] == [];
      }
    }
  }

  /** A new session, spelled out for a manager that is not in the middle of a send. */
  lemma ConnectLeaves(m: Manager, p: PeerId)
    requires m.outbox.sending.NotSending?
    ensures
      var logs := m.outbox.logs[p := S.LogSession(LogOf(m.outbox.logs, p), S.Idle)];
      ConnectStep(m, p) ==
        Manager(m.streams + {p}, m.sessions + {p},
                Outbox(m.outbox.sendSeq[p := 0], m.outbox.pending, NotSending, m.outbox.passTime, m.outbox.todo,
                       m.outbox.inFlight, logs),
                Inbox(m.inbox.recvSeq[p := 0], m.inbox.recvBuffer[p := map[]], m.inbox.draining,
                      m.inbox.delivered[p := []], m.inbox.acked[p := []]))
  {
  }

  lemma DrainRuns(start: Manager, turns: seq<Event>, m: Manager, p: PeerId)
    requires Legal(Step, start, turns) && Run(Step, start, turns) == m && p in m.inbox.draining
    ensures
      var more := turns + [For(p, P.Drains)];
      Legal(Step, start, more) && Run(Step, start, more) == m.(inbox := DrainStep(m.inbox, p))
  {
    RunThen(start, turns, For(p, P.Drains));
  }

  lemma ArrivalRuns(m: Manager, p: PeerId, e: Envelope)
    requires p !in m.inbox.draining
    ensures
      var run := [For(p, P.ChatArrives(e))];
      Legal(Step, m, run) && Run(Step, m, run) == m.(inbox := ReceiveStep(m.inbox, p, e))
  {
    RunThen(m, [], For(p, P.ChatArrives(e)));
    assert [] + [For(p, P.ChatArrives(e))] == [For(p, P.ChatArrives(e))];
  }

  lemma AcknowledgementRuns(m: Manager, p: PeerId, id: string)
    ensures
      var run := [For(p, P.AtSender(S.Acknowledge(id)))];
      Legal(Step, m, run) && Run(Step, m, run) == m.(outbox := AcknowledgeStep(m.outbox, p, id))
  {
    var ev := S.Acknowledge(id);
    SenderEventRuns(m, p, ev);
    RunThen(m, [], For(p, P.AtSender(ev)));
    assert [] + [For(p, P.AtSender(ev))] == [For(p, P.AtSender(ev))];
  }

  class StreamManager {
    const local: PeerId
    const naming: Naming
    var streams: set<PeerId>
    var sessions: map<PeerId, Sessions.State>
    var sendSeq: map<PeerId, uint64>
    var recvSeq: map<PeerId, uint64>
    var recvBuffer: map<PeerId, map<nat, Envelope>>
    var pending: map<PeerId, map<string, S.Pending>>
    var allocations: nat

    // What has happened: per peer and session, the send log, the texts shown and the ids acknowledged.
    ghost var passTime: int
    ghost var logs: map<PeerId, S.Log>
    ghost var delivered: map<PeerId, seq<string>>
    ghost var acked: map<PeerId, seq<string>>

    ghost function OutboxValue(): Outbox
      reads this
    {
      Outbox(sendSeq, pending, NotSending, passTime, [], None, logs)
    }

    ghost function InboxValue(): Inbox
      reads this
    {
      Inbox(recvSeq, recvBuffer, {}, delivered, acked)
    }

    /** The object between two operations, as a state of the step model. */
    ghost function Value(): Manager
      reads this
    {
      Manager(streams, sessions.Keys, OutboxValue(), InboxValue())
    }

    ghost predicate Valid()
      reads this
    {
      streams == sessions.Keys && Filed(pending)
    }

    /** The conversation with a peer, as both ends name it. */
    function Conversation(p: PeerId): string {
      ConversationOf(naming, local, p)
    }

    constructor (local: PeerId, naming: Naming)
      ensures Valid() && Value() == EMPTY && this.local == local && this.naming == naming
    {
      this.local, this.naming := local, naming;
      streams, sessions, sendSeq, recvSeq, recvBuffer, pending := {}, map[], map[], map[], map[], map[];
      allocations, passTime, logs, delivered, acked := 0, 0, map[], map[], map[];
    }

    method TrackPending(remote: PeerId, e: Envelope, now: int)
      requires Valid()
      modifies `pending, `allocations
      ensures Valid()
      ensures
        var message := S.Pending(e, now, 1, old(allocations));
        pending == old(pending)[remote := Messages(old(pending), remote)[e.id := message]]
    {
      var messages := if remote in pending then pending[remote] else map[];
      pending := pending[remote := messages[e.id := S.Pending(e, now, 1, allocations)]];
      allocations := allocations + 1;
      assert e.id in pending[remote];
    }

    method AckPending(remote: PeerId, id: string)
      requires Valid()
      modifies `pending
      ensures Valid() && pending == RemovePending(old(pending), remote, id)
    {
      RemovalStaysFiled(pending, remote, id);
      if remote !in pending {
        return;
      }
      var messages := pending[remote] - {id};
      if |messages| == 0 {
        pending := pending - {remote};
      } else {
        pending := pending[remote := messages];
      }
    }

    method ClearPending(remote: PeerId)
      requires Valid()
      modifies `pending
      ensures Valid() && pending == old(pending) - {remote}
    {
      pending := pending - {remote};
    }

    method OpenStream(p: PeerId, session: Sessions.State)
      modifies `streams, `sessions
      ensures streams == old(streams) + {p} && sessions == old(sessions)[p := session]
      ensures sessions.Keys == old(sessions.Keys) + {p}
    {
      streams := streams + {p};
      sessions := sessions[p := session];
    }

    /** A new stream starts the sequence numbers again and says nothing of `pending`. */
    method ResetSending(p: PeerId)
      modifies `sendSeq, `logs
      ensures sendSeq == old(sendSeq)[p := 0] && logs == old(logs)[p := S.LogSession(LogOf(old(logs), p), S.Idle)]
    {
      sendSeq := sendSeq[p := 0];
      logs := logs[p := S.LogSession(LogOf(logs, p), S.Idle)];
    }

    method ResetReceiving(p: PeerId)
      modifies `recvSeq, `recvBuffer, `delivered, `acked
      ensures recvSeq == old(recvSeq)[p := 0] && recvBuffer == old(recvBuffer)[p := map[]]
      ensures delivered == old(delivered)[p := []] && acked == old(acked)[p := []]
    {
      recvSeq := recvSeq[p := 0];
      recvBuffer := recvBuffer[p := map[]];
      delivered, acked := delivered[p := []], acked[p := []];
    }

    /** What a new stream does to the maps under the lock. */
    method BeginSession(p: PeerId, session: Sessions.State)
      requires Valid()
      modifies `streams, `sessions, `sendSeq, `recvSeq, `recvBuffer, `logs, `delivered, `acked
      ensures Valid() && Value() == ConnectStep(old(Value()), p) && sessions == old(sessions)[p := session]
      ensures streams == old(streams) + {p} && sendSeq == old(sendSeq)[p := 0]
      ensures recvSeq == old(recvSeq)[p := 0] && recvBuffer == old(recvBuffer)[p := map[]]
    {
      ghost var before := Value();
      OpenStream(p, session);
      ResetSending(p);
      ResetReceiving(p);
      ConnectLeaves(before, p);
    }

    /** A stream on which the two lines of a handshake were read. Only a handshake that succeeds begins a session. */
    method AddStream(p: PeerId, primitives: Handshakes.Primitives, self: Handshakes.Party, hello: string, proof: string)
      requires Valid()
      modifies `streams, `sessions, `sendSeq, `recvSeq, `recvBuffer, `logs, `delivered, `acked
      ensures Valid()
      ensures
        match Handshakes.Handshake(primitives, self, hello, proof)
        case Ok(session) => Value() == ConnectStep(old(Value()), p) && sessions == old(sessions)[p := session]
        case Err(_) => Value() == old(Value()) && sessions == old(sessions)
      ensures !Handshakes.Vouched(primitives, self, hello, proof) ==>
                Value() == old(Value()) && sessions == old(sessions)
      ensures Handshakes.Handshake(primitives, self, hello, proof).Ok? ==>
                && streams == old(streams) + {p} && sendSeq == old(sendSeq)[p := 0]
                && recvSeq == old(recvSeq)[p := 0] && recvBuffer == old(recvBuffer)[p := map[]]
    {
      Handshakes.HandshakeExactly(primitives, self, hello, proof);
      match Handshakes.Handshake(primitives, self, hello, proof)
      case Ok(session) => BeginSession(p, session);
      case Err(_) =>
    }

    method DropStream(p: PeerId)
      modifies `streams, `sessions, `sendSeq, `recvSeq, `recvBuffer
      ensures streams == old(streams) - {p} && sessions == old(sessions) - {p}
      ensures sessions.Keys == old(sessions.Keys) - {p}
      ensures sendSeq == old(sendSeq) - {p} && recvSeq == old(recvSeq) - {p} && recvBuffer == old(recvBuffer) - {p}
    {
      streams := streams - {p};
      sessions := sessions - {p};
      sendSeq := sendSeq - {p};
      recvSeq := recvSeq - {p};
      recvBuffer := recvBuffer - {p};
    }

    method ForgetPeer(p: PeerId)
      requires Valid()
      modifies `streams, `sessions, `sendSeq, `recvSeq, `recvBuffer, `pending
      ensures Valid()
      ensures
        var run := [For(p, P.Disconnects), For(p, P.Forgets)];
        Legal(Step, old(Value()), run) && Value() == Run(Step, old(Value()), run)
      ensures streams == old(streams) - {p} && sessions == old(sessions) - {p} && pending == old(pending) - {p}
      ensures sendSeq == old(sendSeq) - {p} && recvSeq == old(recvSeq) - {p} && recvBuffer == old(recvBuffer) - {p}
    {
      ghost var before := Value();
      DropStream(p);
      ClearPending(p);
      ForgetRuns(before, p);
    }

    /** The part of `sendChat` after the envelope is built, or failed to be. */
    method TrackAndWrite(remote: PeerId, built: Result<Envelope, BuildError>, now: int, writeOk: bool)
      returns (r: Result<Envelope, string>)
      requires Valid()
      modifies `pending, `allocations
      ensures Valid()
      ensures pending == PendingAfterSend(old(pending), remote, built, now, old(allocations), writeOk)
      ensures built.Ok? ==> (built.value.id in Messages(pending, remote) <==> writeOk)
      ensures r.Ok? <==> built.Ok? && writeOk
      ensures r.Ok? ==> r.value == built.value
    {
      if built.Err? {
        return Err("cannot build envelope");
      }
      var e := built.value;
      TrackPending(remote, e, now);
      if !writeOk {
        RemovePendingView(pending, remote, e.id, remote);
        AckPending(remote, e.id);
        return Err("write failed");
      }
      r := Ok(e);
    }

    /** The part of `sendChat` under the send lock: the number is taken before the envelope is built. */
    method NumberAndSend(remote: PeerId, text: string, bodySize: nat, id: Option<string>, clock: int, now: int,
                         writeOk: bool)
      returns (r: Result<Envelope, string>, built: Result<Envelope, BuildError>)
      requires Valid()
      modifies `sendSeq, `pending, `allocations
      ensures Valid()
      ensures built == NewEnvelope(TYPE_CHAT, Conversation(remote), local, Successor(Number(old(sendSeq), remote)),
                                   Some(ChatBody(text, bodySize)), id, clock)
      ensures sendSeq == old(sendSeq)[remote := Successor(Number(old(sendSeq), remote))]
      ensures pending == PendingAfterSend(old(pending), remote, built, now, old(allocations), writeOk)
      ensures built.Ok? ==> (built.value.id in Messages(pending, remote) <==> writeOk)
      ensures r.Ok? <==> built.Ok? && writeOk
      ensures r.Ok? ==> r.value == built.value
    {
      var sequence := Successor(if remote in sendSeq then sendSeq[remote] else 0);
      sendSeq := sendSeq[remote := sequence];
      built := NewEnvelope(TYPE_CHAT, Conversation(remote), local, sequence, Some(ChatBody(text, bodySize)), id, clock);
      r := TrackAndWrite(remote, built, now, writeOk);
    }

    /** `sendChat` to a connected peer, as a run of the step model. */
    method SendConnected(remote: PeerId, text: string, bodySize: nat, id: Option<string>, clock: int, now: int,
                         writeOk: bool)
      returns (r: Result<Envelope, string>, built: Result<Envelope, BuildError>)
      requires Valid() && (id.Some? ==> id.value !in LogOf(logs, remote).rounds)
      modifies `sendSeq, `pending, `allocations, `logs
      ensures Valid()
      ensures built == NewEnvelope(TYPE_CHAT, Conversation(remote), local, Successor(Number(old(sendSeq), remote)),
                                   Some(ChatBody(text, bodySize)), id, clock)
      ensures
        var run := SendEvents(remote, text, built, now, old(allocations), writeOk);
        Legal(Step, old(Value()), run) && Value() == Run(Step, old(Value()), run)
      ensures sendSeq == old(sendSeq)[remote := Successor(Number(old(sendSeq), remote))]
      ensures pending == PendingAfterSend(old(pending), remote, built, now, old(allocations), writeOk)
      ensures if built.Ok? && writeOk then r == Ok(built.value) else r.Err?
    {
      ghost var before := Value();
      ghost var ref := allocations;
      r, built := NumberAndSend(remote, text, bodySize, id, clock, now, writeOk);
      ghost var recorded :=
        BuiltRefines(before, remote, text, Conversation(remote), local, bodySize, id, clock, built, now, ref, writeOk);
      assert Run(Step, before, SendEvents(remote, text, built, now, ref, writeOk)) ==
             Manager(streams, sessions.Keys, OutboxValue().(logs := recorded), InboxValue());
      logs := recorded;
    }

    /** Sends a chat. The new id is random, so it has not been used before; `None` is a random source that fails.
        `bodySize`, `clock`, `now` and `writeOk` stand for the JSON encoder, the clocks and the stream. */
    method SendChat(remote: PeerId, text: string, bodySize: nat, id: Option<string>, clock: int, now: int,
                    writeOk: bool)
      returns (r: Result<Envelope, string>, ghost run: seq<Event>)
      requires Valid() && (id.Some? ==> id.value !in LogOf(logs, remote).rounds)
      modifies `sendSeq, `pending, `allocations, `logs
      ensures Valid()
      ensures Legal(Step, old(Value()), run) && Value() == Run(Step, old(Value()), run)
      ensures
        var connected := remote in streams && remote in sessions;
        var built := NewEnvelope(TYPE_CHAT, Conversation(remote), local, Successor(Number(old(sendSeq), remote)),
                                 Some(ChatBody(text, bodySize)), id, clock);
        && run == (if connected then SendEvents(remote, text, built, now, old(allocations), writeOk) else [])
        && (if connected && built.Ok? && writeOk then r == Ok(built.value) else r.Err?)
        && sendSeq == (if connected then old(sendSeq)[remote := Successor(Number(old(sendSeq), remote))]
                       else old(sendSeq))
        && (if connected then SendOutcome(old(pending), pending, remote, built, now, old(allocations), writeOk)
            else pending == old(pending))
    {
      run := [];
      if remote !in streams || remote !in sessions {
        return Err("peer is not connected"), [];
      }
      ghost var ref := allocations;
      var built;
      r, built := SendConnected(remote, text, bodySize, id, clock, now, writeOk);
      run := SendEvents(remote, text, built, now, ref, writeOk);
      SendHasOutcome(old(pending), remote, built, now, ref, writeOk);
    }

    /** The snapshot: every due message of every peer. */
    method CollectDue(now: int) returns (due: seq<Job>)
      requires Valid()
      ensures Collected(pending, now, due, {})
    {
      due := [];
      var left := pending.Keys;
      while left != {}
        invariant left <= pending.Keys
        invariant Collected(pending, now, due, left)
      {
        var remote :| remote in left;
        var items := DueMessages(pending[remote], now);
        CollectOne(pending, now, due, left, remote, items);
        due := due + Jobs(remote, items);
        left := left - {remote};
      }
    }

    /** Settles the outcome of one retry that has just been written. */
    method SettleRetry(job: Job, now: int, writeOk: bool)
      requires Valid()
      modifies `pending
      ensures Valid() && pending == AfterRetry(old(pending), job.peer, job.item, writeOk, now)
    {
      var remote, id := job.peer, job.item.envelope.id;
      if remote !in pending || id !in pending[remote] || pending[remote][id].ref != job.item.ref {
        return;
      }
      var current := pending[remote][id];
      if !writeOk || current.attempts >= S.MAX_PENDING_RETRIES {
        AckPending(remote, id);
        return;
      }
      current := current.(attempts := current.attempts + 1, lastSent := now);
      pending := pending[remote := pending[remote][id := current]];
      assert id in pending[remote];
    }

    /** The object in the middle of a pass that still has `todo` ahead of it. */
    ghost function During(todo: seq<Job>): Manager
      reads this
    {
      Manager(streams, sessions.Keys, Outbox(sendSeq, pending, NotSending, passTime, todo, None, logs), InboxValue())
    }

    /** One turn of the loop, for the first of the jobs ahead; `run` is the run of the model so far. */
    method RetryOne(job: Job, now: int, writeOk: (PeerId, string) -> bool, ghost ahead: seq<Job>, ghost before: Manager,
                    ghost run: seq<Event>)
      requires Valid() && passTime == now && ahead != [] && ahead[0] == job
      requires Reaches(before, run, During(ahead))
      modifies `pending, `logs
      ensures Valid()
      ensures pending == if job.peer !in streams then old(pending)
                         else AfterRetry(old(pending), job.peer, job.item, writeOk(job.peer, job.item.envelope.id), now)
      ensures Reaches(before, run + TurnEvents(job, streams, writeOk), During(ahead[1..]))
    {
      ghost var recorded := RetryRefines(before, run, During(ahead), writeOk);
      if job.peer in streams && job.peer in sessions {
        var ok := writeOk(job.peer, job.item.envelope.id);
        SettleRetry(job, now, ok);
      }
      assert Run(Step, before, run + TurnEvents(job, streams, writeOk)) ==
             Manager(streams, sessions.Keys, Outbox(sendSeq, pending, NotSending, passTime, ahead[1..], None, recorded),
                     InboxValue());
      logs := recorded;
    }

    /** The loop over the snapshot. */
    method RetryAll(due: seq<Job>, now: int, writeOk: (PeerId, string) -> bool, ghost before: Manager,
                    ghost first: seq<Event>)
      requires Valid() && passTime == now && Lists(pending, now, due)
      requires Reaches(before, first, During(due))
      modifies `pending, `logs
      ensures Valid() && PassOutcome(old(pending), pending, now, streams, writeOk)
      ensures Reaches(before, first + LoopEvents(due, streams, writeOk), During([]))
    {
      var k := 0;
      ghost var run := first;
      LoopBegins(first, due, streams, writeOk);
      while k < |due|
        invariant k <= |due| && Valid()
        invariant run == first + LoopEvents(due[..k], streams, writeOk)
        invariant Reaches(before, run, During(due[k..]))
        invariant OutcomeSoFar(old(pending), pending, now, streams, writeOk, due, k)
      {
        TurnOutcome(old(pending), pending, now, streams, writeOk, due, k);
        RetryOne(due[k], now, writeOk, due[k..], before, run);
        LoopGoesOn(first, due, k, streams, writeOk);
        run := run + TurnEvents(due[k], streams, writeOk);
        k := k + 1;
      }
      LoopEnds(due, k);
      NothingAhead(old(pending), pending, now, streams, writeOk, due);
    }

    /** One retransmission pass. `writeOk` tells, per peer and message, whether the write succeeds. Exactly the due
        messages of connected peers are written: each is gone if its write failed or it was the last one, and has one
        more attempt otherwise; all other messages are as they were. */
    method RetransmitDue(now: int, writeOk: (PeerId, string) -> bool) returns (ghost run: seq<Event>)
      requires Valid()
      modifies `pending, `passTime, `logs
      ensures Valid()
      ensures PassOutcome(old(pending), pending, now, streams, writeOk)
      ensures Legal(Step, old(Value()), run) && Value() == Run(Step, old(Value()), run)
      ensures run != [] && run[0].Pass? && run[0].now == now
      ensures run[1..] == LoopEvents(run[0].jobs, streams, writeOk)
    {
      ghost var before := Value();
      var due := CollectDue(now);
      SnapshotLists(pending, now, due);
      PassRuns(before, now, due);
      passTime := now;
      RetryAll(due, now, writeOk, before, [Pass(now, due)]);
      run := [Pass(now, due)] + LoopEvents(due, streams, writeOk);
    }

    /** The inbox while the drain loop for `p` runs. */
    ghost function Draining(p: PeerId): Inbox
      reads this
    {
      InboxValue().(draining := {p})
    }

    /** One turn of the drain loop. */
    method DrainTurn(p: PeerId) returns (more: bool)
      modifies `recvSeq, `recvBuffer, `delivered, `acked
      ensures more <==> old(Successor(Number(recvSeq, p)) in Buffer(recvBuffer, p))
      ensures (if more then Draining(p) else InboxValue()) == DrainStep(old(Draining(p)), p)
      ensures more ==> |Buffer(recvBuffer, p)| < old(|Buffer(recvBuffer, p)|)
    {
      var next := Successor(if p in recvSeq then recvSeq[p] else 0);
      var buffer := if p in recvBuffer then recvBuffer[p] else map[];
      if next !in buffer {
        return false;
      }
      assert buffer.Keys == (buffer - {next}).Keys + {next};
      var e := buffer[next];
      recvBuffer := recvBuffer[p := buffer - {next}];
      recvSeq := recvSeq[p := next];
      more := true;
      if e.typ != TYPE_CHAT || e.body.chatText.None? {
        return;
      }
      BlankTrimsToNothing(e.body.chatText.value);
      if TrimSpace(e.body.chatText.value) == "" {
        return;
      }
      delivered := delivered[p := Strings(delivered, p) + [e.body.chatText.value]];
      acked := acked[p := Strings(acked, p) + [e.id]];
    }

    /** The object while the drain loop for `p` runs. */
    ghost function WhileDraining(p: PeerId): Manager
      reads this
    {
      Manager(streams, sessions.Keys, OutboxValue(), Draining(p))
    }

    /** Releases the buffered chats that have become next: each turn of the loop is one step of the model. */
    method DrainReceiveBuffer(p: PeerId) returns (ghost turns: seq<Event>)
      modifies `recvSeq, `recvBuffer, `delivered, `acked
      ensures ReceiverOf(InboxValue(), p) == R.Drain(ReceiverOf(old(Draining(p)), p))
      ensures Legal(Step, old(WhileDraining(p)), turns) && Value() == Run(Step, old(WhileDraining(p)), turns)
      ensures forall i | 0 <= i < |turns| :: turns[i] == For(p, P.Drains)
    {
      ghost var start := WhileDraining(p);
      var more := true;
      turns := [];
      while more
        invariant forall i | 0 <= i < |turns| :: turns[i] == For(p, P.Drains)
        invariant Legal(Step, start, turns)
        invariant Run(Step, start, turns) == if more then WhileDraining(p) else Value()
        decreases more, |Buffer(recvBuffer, p)|
      {
        DrainRuns(start, turns, WhileDraining(p), p);
        turns := turns + [For(p, P.Drains)];
        more := DrainTurn(p);
      }
      DrainStepsDrain(start, turns, p);
    }

    /** Sorts one chat: a duplicate is acknowledged, a chat after a gap is buffered and acknowledged unless the
        buffer is full, and the next one is delivered. */
    method SortChat(p: PeerId, e: Envelope) returns (next: bool)
      requires Deliverable(e)
      modifies `recvSeq, `recvBuffer, `delivered, `acked
      ensures (if next then Draining(p) else InboxValue()) == ReceiveStep(old(InboxValue()), p, e)
    {
      next := false;
      var last := if p in recvSeq then recvSeq[p] else 0;
      if e.sequence <= last {
        acked := acked[p := Strings(acked, p) + [e.id]];
      } else if e.sequence > Successor(last) {
        var buffer: map<nat, Envelope> := if p in recvBuffer then recvBuffer[p] else map[];
        if |buffer| < R.MAX_RECEIVE_BUFFER {
          recvBuffer := recvBuffer[p := buffer[e.sequence := e]];
          acked := acked[p := Strings(acked, p) + [e.id]];
        }
      } else {
        recvSeq := recvSeq[p := e.sequence];
        delivered := delivered[p := Strings(delivered, p) + [e.body.chatText.value]];
        acked := acked[p := Strings(acked, p) + [e.id]];
        next := true;
      }
    }

    /** What one chat does: the receiver of its peer changes exactly as `Handle` says, in the steps of `run`. */
    method HandleChat(p: PeerId, e: Envelope) returns (ghost run: seq<Event>)
      requires e.typ == TYPE_CHAT
      modifies `recvSeq, `recvBuffer, `delivered, `acked
      ensures ReceiverOf(InboxValue(), p) == R.Handle(ReceiverOf(old(InboxValue()), p), e)
      ensures Legal(Step, old(Value()), run) && Value() == Run(Step, old(Value()), run)
      ensures run != [] && run[0] == For(p, P.ChatArrives(e)) && forall i | 1 <= i < |run| :: run[i] == For(p, P.Drains)
    {
      ghost var before := Value();
      run := [For(p, P.ChatArrives(e))];
      ArrivalRuns(before, p, e);
      ReceiveProjects(before.inbox, p, e, p);
      if e.body.chatText.None? {
        return;
      }
      BlankTrimsToNothing(e.body.chatText.value);
      if TrimSpace(e.body.chatText.value) == "" {
        return;
      }
      var next := SortChat(p, e);
      if next {
        ghost var turns := DrainReceiveBuffer(p);
        Concat(Step, before, run, turns);
        run := run + turns;
      }
    }

    /** Handles one decoded envelope: a chat changes only this peer's receiver, exactly as `Handle` says; an
        acknowledgement is one step of this peer's sender; anything else, and any envelope with the
        wrong conversation or sender, changes nothing. */
    method HandleEnvelope(p: PeerId, e: Envelope) returns (ghost run: seq<Event>)
      requires Valid()
      modifies `recvSeq, `recvBuffer, `delivered, `acked, `pending, `logs
      ensures Valid()
      ensures Legal(Step, old(Value()), run) && Value() == Run(Step, old(Value()), run)
      ensures
        var genuine := e.conversation == Conversation(p) && e.sender == p;
        if genuine && e.typ == TYPE_CHAT then
          && run != [] && run[0] == For(p, P.ChatArrives(e))
          && (forall i | 1 <= i < |run| :: run[i] == For(p, P.Drains))
          && ReceiverOf(InboxValue(), p) == R.Handle(ReceiverOf(old(InboxValue()), p), e)
        else if genuine && e.typ == TYPE_ACK && e.body.ackId.Some? then
          run == [For(p, P.AtSender(S.Acknowledge(e.body.ackId.value)))]
        else
          run == []
      ensures
        if e.conversation == Conversation(p) && e.sender == p && e.typ == "ack" && e.body.ackId.Some? then
          OnlyGone(old(pending), pending, p, e.body.ackId.value)
        else pending == old(pending)
    {
      run := [];
      if e.conversation != Conversation(p) || e.sender != p {
        return;
      }
      if e.typ == TYPE_CHAT {
        run := HandleChat(p, e);
      } else if e.typ == TYPE_ACK && e.body.ackId.Some? {
        var id := e.body.ackId.value;
        run := [For(p, P.AtSender(S.Acknowledge(id)))];
        AcknowledgementRuns(Value(), p, id);
        logs := AcknowledgeStep(OutboxValue(), p, id).logs;
        RemovalLeaves(pending, p, id);
        AckPending(p, id);
      }
    }
  }
}
