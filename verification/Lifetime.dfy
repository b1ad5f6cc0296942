/** What holds of one peer over its whole life, through any number of sessions: streams that come, go and are
    replaced at any moment, also in the middle of a send or of a retransmission pass. */
module Lifetimes {
  import S = Sending
  import P = PeerMachine
  import M = Managing
  import Retransmission
  import opened Runs

  /** Every message that can still be sent has a sequence number. */
  ghost predicate Positive(s: S.Sender) {
    && (forall id | id in s.pending :: s.pending[id].envelope.sequence >= 1)
    && (forall i | 0 <= i < |s.todo| :: s.todo[i].envelope.sequence >= 1)
  }

  ghost predicate Sound(s: S.Sender) {
    Retransmission.Inv(s) && Positive(s) && s.log.writes.Keys <= s.log.rounds.Keys
  }

  lemma StepKeepsPositive(s: S.Sender, ev: S.Event)
    requires Positive(s) && S.Enabled(s, ev)
    ensures Positive(S.Step(s, ev))
  {
  }

  lemma RestartKeepsSound(s: S.Sender)
    requires Sound(s)
    ensures Sound(S.Restart(s))
  {
    var t := S.Restart(s);
    forall id | id in t.log.rounds ensures Retransmission.RoundsOk(t, id) {
      assert Retransmission.RoundsOk(s, id);
    }
    forall id | id in t.pending ensures Retransmission.PendingOk(t, id) {
      assert Retransmission.PendingOk(s, id);
    }
    forall i | 0 <= i < |t.todo| ensures Retransmission.ItemOk(t, i) {
      assert Retransmission.ItemOk(s, i);
    }
  }

  lemma EndingKeepsSound(s: S.Sender, t: S.Sender)
    requires Sound(s) && (t == s.(sendSeq := 0) || t == s.(pending := map[]))
    ensures Sound(t)
  {
    forall id | id in t.log.rounds ensures Retransmission.RoundsOk(t, id) {
      assert Retransmission.RoundsOk(s, id);
    }
    forall id | id in t.pending ensures Retransmission.PendingOk(t, id) {
      assert Retransmission.PendingOk(s, id);
    }
    forall i | 0 <= i < |t.todo| ensures Retransmission.ItemOk(t, i) {
      assert Retransmission.ItemOk(s, i);
    }
  }

  lemma PeerStepKeepsSound(p: P.Peer, ev: P.Event)
    requires Sound(p.sender) && P.Enabled(p, ev)
    ensures Sound(P.Step(p, ev).sender)
  {
    match ev
    case AtSender(event) =>
      Retransmission.StepKeepsInv(p.sender, event);
      Retransmission.StepKeepsKeys(p.sender, event);
      StepKeepsPositive(p.sender, event);
    case Connects => RestartKeepsSound(p.sender);
    case Disconnects => EndingKeepsSound(p.sender, p.sender.(sendSeq := 0));
    case Forgets => EndingKeepsSound(p.sender, p.sender.(pending := map[]));
    case _ =>
  }

  lemma {:induction false} PeerRunKeepsSound(p: P.Peer, run: seq<P.Event>)
    requires Sound(p.sender) && Legal(P.Step, p, run)
    ensures Sound(Run(P.Step, p, run).sender)
    decreases |run|
  {
    if run != [] {
      PeerStepKeepsSound(p, run[0]);
      PeerRunKeepsSound(P.Step(p, run[0]), run[1..]);
    }
  }

  /** Only the head of a pass can be in flight. */
  lemma {:induction false} PeerRunKeepsHead(p: P.Peer, run: seq<P.Event>)
    requires (p.sender.inFlight.Some? ==> p.sender.todo != []) && Legal(P.Step, p, run)
    ensures var s := Run(P.Step, p, run).sender; s.inFlight.Some? ==> s.todo != []
    decreases |run|
  {
    if run != [] {
      PeerRunKeepsHead(P.Step(p, run[0]), run[1..]);
    }
  }

  /** The bound over the life of a message. The counts are never reset: however often the peer reconnects while the
      message is pending, it is written at most six times in all, and any two of its rounds began at
      least one timeout apart. */
  lemma TransmissionsBoundedForLife(run: seq<P.Event>, id: string)
    requires Legal(P.Step, P.FRESH, run)
    ensures S.Count(Run(P.Step, P.FRESH, run).sender.log.writes, id) <= S.MAX_TRANSMISSIONS
    ensures Retransmission.Spaced(S.Rounds(Run(P.Step, P.FRESH, run).sender.log.rounds, id))
  {
    PeerRunKeepsSound(P.FRESH, run);
    var s := Run(P.Step, P.FRESH, run).sender;
    if id in s.log.rounds {
      assert Retransmission.RoundsOk(s, id);
    }
  }

  lemma PeerStepKeepsAway(p: P.Peer, ev: P.Event, id: string)
    requires P.Enabled(p, ev) && id in p.sender.log.rounds && id !in p.sender.pending
    ensures id in P.Step(p, ev).sender.log.rounds && id !in P.Step(p, ev).sender.pending
  {
    if ev.AtSender? {
      SenderStepKeepsAway(p.sender, ev.event, id);
    }
  }

  lemma SenderStepKeepsAway(s: S.Sender, ev: S.Event, id: string)
    requires S.Enabled(s, ev) && id in s.log.rounds && id !in s.pending
    ensures id in S.Step(s, ev).log.rounds && id !in S.Step(s, ev).pending
  {
  }

  /** A message that has left `pending` never comes back, in this session or a later one. */
  lemma {:induction false} LeavingIsFinalForLife(p: P.Peer, run: seq<P.Event>, id: string)
    requires Legal(P.Step, p, run)
    requires id in p.sender.log.rounds && id !in p.sender.pending
    ensures id !in Run(P.Step, p, run).sender.pending
    decreases |run|
  {
    if run != [] {
      PeerStepKeepsAway(p, run[0], id);
      LeavingIsFinalForLife(P.Step(p, run[0]), run[1..], id);
    }
  }

  /** The same of every peer of a stream manager, whatever happens to the others. */
  lemma ManagerKeepsSound(run: seq<M.Event>, q: M.PeerId)
    requires Legal(M.Step, M.EMPTY, run)
    ensures Sound(M.SenderOf(Run(M.Step, M.EMPTY, run).outbox, q))
  {
    M.RunProjects(M.EMPTY, run, q);
    assert M.View(M.EMPTY, q) == P.FRESH;
    PeerRunKeepsSound(P.FRESH, M.Project(run, q));
  }
}
