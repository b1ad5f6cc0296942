/** Two whole nodes, each with its stream manager and any number of other peers, joined by the same network.
    What the two keep about each other is a run of the two-party model, so its theorems hold for them. */
module TwoNodes {
  import opened Prelude
  import opened Envelopes
  import R = Receiving
  import S = Sending
  import P = PeerMachine
  import M = Managing
  import T = TwoParty
  import Retransmission
  import Lifetimes
  import Arrivals
  import opened Runs

  /** `alice` sends to `bob`; `a` and `b` are the peer ids under which they know each other. */
  datatype Nodes = Nodes(a: M.PeerId, b: M.PeerId, alice: M.Manager, bob: M.Manager)

  datatype Event = AtAlice(event: M.Event) | AtBob(event: M.Event)

  function LinkOf(n: Nodes): T.Link {
    T.Link(M.SenderOf(n.alice.outbox, n.b), M.ReceiverOf(n.bob.inbox, n.a))
  }

  /** Connecting, disconnecting and forgetting end the session between the two. */
  predicate EndsSession(ev: P.Event) {
    ev.Connects? || ev.Disconnects? || ev.Forgets?
  }

  /** Each node takes its own steps. An acknowledgement from Bob that reaches Alice was sent by him, and a chat
      from Alice that reaches Bob was written by her; nothing is assumed about any other peer. */
  ghost predicate Enabled(n: Nodes, ev: Event) {
    match ev
    case AtAlice(event) =>
      && M.Enabled(n.alice, event)
      && (event.For? && event.peer == n.b ==>
            && !EndsSession(event.event)
            && (event.event.AtSender? && event.event.event.Acknowledge? ==>
                  event.event.event.id in M.Strings(n.bob.inbox.acked, n.a)))
    case AtBob(event) =>
      && M.Enabled(n.bob, event)
      && (event.For? && event.peer == n.a ==>
            && !EndsSession(event.event)
            && (event.event.ChatArrives? ==> event.event.envelope in M.LogOf(n.alice.outbox.logs, n.b).packets))
  }

  ghost function Step(n: Nodes, ev: Event): Nodes
    requires Enabled(n, ev)
  {
    match ev
    case AtAlice(event) => n.(alice := M.Step(n.alice, event))
    case AtBob(event) => n.(bob := M.Step(n.bob, event))
  }

  /** What an event is to the link from Alice to Bob. */
  function LinkEvents(n: Nodes, ev: Event): seq<T.Event> {
    match ev
    case AtAlice(Pass(now, jobs)) => [T.AtSender(S.Snapshot(now, M.JobsOf(jobs, n.b)))]
    case AtAlice(For(p, AtSender(event))) => if p == n.b then [T.AtSender(event)] else []
    case AtBob(For(p, ChatArrives(e))) => if p == n.a then [T.ChatArrives(e)] else []
    case AtBob(For(p, Drains)) => if p == n.a then [T.Drains] else []
    case _ => []
  }

  lemma OneLinkEvent(l: T.Link, ev: T.Event)
    requires T.Enabled(l, ev)
    ensures Legal(T.Step, l, [ev]) && Run(T.Step, l, [ev]) == T.Step(l, ev)
  {
    One(T.Step, l, ev);
  }

  lemma NoLinkEvent(l: T.Link)
    ensures Legal(T.Step, l, []) && Run(T.Step, l, []) == l
  {
  }

  lemma AliceProjects(n: Nodes, event: M.Event)
    requires Enabled(n, AtAlice(event))
    ensures
      var l, events := LinkOf(n), LinkEvents(n, AtAlice(event));
      Legal(T.Step, l, events) && Run(T.Step, l, events) == LinkOf(Step(n, AtAlice(event)))
  {
    var l := LinkOf(n);
    NoLinkEvent(l);
    match event
    case Pass(now, jobs) =>
      M.PassProjects(n.alice, now, jobs, n.b);
      OneLinkEvent(l, T.AtSender(S.Snapshot(now, M.JobsOf(jobs, n.b))));
    case For(p, e) =>
      M.StepForProjects(n.alice, p, e, n.b);
      if p == n.b && e.AtSender? {
        OneLinkEvent(l, T.AtSender(e.event));
      }
  }

  lemma BobProjects(n: Nodes, event: M.Event)
    requires Enabled(n, AtBob(event))
    ensures
      var l, events := LinkOf(n), LinkEvents(n, AtBob(event));
      Legal(T.Step, l, events) && Run(T.Step, l, events) == LinkOf(Step(n, AtBob(event)))
  {
    var l := LinkOf(n);
    NoLinkEvent(l);
    match event
    case Pass(now, jobs) =>
    case For(p, e) =>
      M.StepForProjects(n.bob, p, e, n.a);
      if p == n.a && e.ChatArrives? {
        OneLinkEvent(l, T.ChatArrives(e.envelope));
      } else if p == n.a && e.Drains? {
        OneLinkEvent(l, T.Drains);
      }
  }

  /** Every run of the two nodes is, for the two of them, a run of the two-party model. */
  lemma {:induction false} NodesProject(n: Nodes, run: seq<Event>) returns (events: seq<T.Event>)
    requires Legal(Step, n, run)
    ensures Legal(T.Step, LinkOf(n), events)
    ensures Run(T.Step, LinkOf(n), events) == LinkOf(Run(Step, n, run))
    decreases |run|
  {
    events := [];
    if run != [] {
      var first := LinkEvents(n, run[0]);
      match run[0] {
        case AtAlice(event) => AliceProjects(n, event);
        case AtBob(event) => BobProjects(n, event);
      }
      var rest := NodesProject(Step(n, run[0]), run[1..]);
      Concat(T.Step, LinkOf(n), first, rest);
      events := first + rest;
    }
  }

  /** A session between the two has just begun and nothing is left over from an earlier one. */
  predicate Begins(l: T.Link) {
    && l.sender.sendSeq == 0 && l.sender.phase.Idle? && l.sender.pending == map[] && l.sender.todo == []
    && l.sender.log == S.LogSession(l.sender.log, S.Idle)
    && l.receiver == R.FRESH
  }

  lemma SessionStart(l: T.Link)
    requires Begins(l) && Retransmission.Inv(l.sender)
    ensures T.LinkOk(l)
  {
  }

  lemma NodesKeepLink(n: Nodes, past: seq<M.Event>, run: seq<Event>)
    requires Legal(M.Step, M.EMPTY, past) && n.alice == Run(M.Step, M.EMPTY, past)
    requires Legal(Step, n, run) && Begins(LinkOf(n))
    requires LinkOf(Run(Step, n, run)).sender.log.sends < UINT64_LIMIT
    ensures T.LinkOk(LinkOf(Run(Step, n, run)))
  {
    Lifetimes.ManagerKeepsSound(past, n.b);
    SessionStart(LinkOf(n));
    var events := NodesProject(n, run);
    T.RunKeepsLink(LinkOf(n), events);
  }

  /** The end-to-end theorem for whole nodes. Let the sending node have any past, and let a session begin between the
      two with nothing left over. However many other peers each has, whatever those do, and however the
      network loses, duplicates and reorders: Bob has been shown exactly the texts that Alice gave the
      numbers 1..recvSeq, in order and once each; every number she took is accounted for; and no message,
      of this session or an earlier one, was ever written more than six times. */
  lemma NodesDeliverInOrder(n: Nodes, past: seq<M.Event>, run: seq<Event>)
    requires Legal(M.Step, M.EMPTY, past) && n.alice == Run(M.Step, M.EMPTY, past)
    requires Legal(Step, n, run) && Begins(LinkOf(n))
    requires LinkOf(Run(Step, n, run)).sender.log.sends < UINT64_LIMIT
    ensures
      var l := LinkOf(Run(Step, n, run));
      var issued := l.sender.log.issued;
      && (forall k | 1 <= k <= l.receiver.recvSeq :: k in issued && Deliverable(issued[k]))
      && l.receiver.delivered == Arrivals.Texts(issued, l.receiver.recvSeq)
      && (forall k | 1 <= k <= l.sender.sendSeq :: T.NotLost(l, k))
      && (forall id | id in l.sender.log.rounds :: S.Count(l.sender.log.writes, id) <= S.MAX_TRANSMISSIONS)
  {
    NodesKeepLink(n, past, run);
    var l := LinkOf(Run(Step, n, run));
    T.FaithfulTexts(l.receiver, l.sender.log.issued);
    forall k | 1 <= k <= l.sender.sendSeq ensures T.NotLost(l, k) {
      T.NothingIsLost(l, k);
    }
    assert forall id | id in l.sender.log.rounds :: Retransmission.RoundsOk(l.sender, id);
  }
}
