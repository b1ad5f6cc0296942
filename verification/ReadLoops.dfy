/** The receiving side step by step. A read loop reads a line and then holds a chat until it gets the lock; it
    releases the lock before it shows the text; then it drains, taking the lock anew each time. A loop whose stream
    was replaced goes on with what it was doing, beside the loop of the new stream. With one loop all this amounts to
    the two-party model; with several it need not, and `StaleEpoch` says exactly when it does. */
module ReadLoops {
  import opened Prelude
  import opened Envelopes
  import R = Receiving
  import S = Sending
  import T = TwoParty
  import Arrivals
  import opened Runs

  /** Where a loop stands: waiting for a line, with a decoded chat in hand, about to show a text and acknowledge its
      message, or about to look for the next buffered chat. */
  datatype Loop = Reading | Holding(envelope: Envelope) | Showing(text: string, id: string) | Draining

  /** What the loops of one peer share, the loop of the present stream, and the loops of earlier streams. */
  datatype Node = Node(
    recvSeq: uint64,
    buffer: map<nat, Envelope>,
    delivered: seq<string>,
    acked: seq<string>,
    current: Loop,
    earlier: seq<Loop>)

  const FRESH_NODE := Node(0, map[], [], [], Reading, [])

  /** One step of a loop, and where it stands then. A loop that reads waits for its stream. */
  function Work(n: Node, loop: Loop): (Node, Loop) {
    match loop
    case Reading => (n, Reading)
    case Holding(e) =>
      if !Deliverable(e) then
        (n, Reading)
      else if e.sequence <= n.recvSeq then
        (n.(acked := n.acked + [e.id]), Reading)
      else if e.sequence > Successor(n.recvSeq) then
        if |n.buffer| >= R.MAX_RECEIVE_BUFFER then (n, Reading)
        else (n.(buffer := n.buffer[e.sequence := e], acked := n.acked + [e.id]), Reading)
      else
        (n.(recvSeq := e.sequence), Showing(Text(e), e.id))
    case Showing(text, id) =>
      (n.(delivered := n.delivered + [text], acked := n.acked + [id]), Draining)
    case Draining =>
      var next := Successor(n.recvSeq);
      if next !in n.buffer then
        (n, Reading)
      else
        var e := n.buffer[next];
        var taken := n.(buffer := n.buffer - {next}, recvSeq := next);
        if Deliverable(e) then (taken, Showing(Text(e), e.id)) else (taken, Draining)
  }

  /** A new stream: counters and buffer are reset and a new loop starts. The loop before it is not stopped. */
  function Connect(n: Node): Node {
    Node(0, map[], [], [], Reading, n.earlier + [n.current])
  }

  datatype Link = Link(sender: S.Sender, node: Node)

  const FRESH := Link(S.FRESH, FRESH_NODE)

  datatype Event =
    | AtSender(event: S.Event)
    | Reads(envelope: Envelope)
    | Works
    | EarlierWorks(i: nat)

  /** Only the present loop can read: what was written to an earlier stream does not decrypt in this session. */
  ghost predicate Enabled(l: Link, ev: Event) {
    match ev
    case AtSender(event) => S.Enabled(l.sender, event) && (event.Acknowledge? ==> event.id in l.node.acked)
    case Reads(e) => l.node.current.Reading? && e in l.sender.log.packets
    case Works => !l.node.current.Reading?
    case EarlierWorks(i) => i < |l.node.earlier| && !l.node.earlier[i].Reading?
  }

  function CurrentStep(n: Node): Node {
    var (next, loop) := Work(n, n.current);
    next.(current := loop)
  }

  function EarlierStep(n: Node, i: nat): Node
    requires i < |n.earlier|
  {
    var (next, loop) := Work(n, n.earlier[i]);
    next.(earlier := n.earlier[i := loop])
  }

  ghost function Step(l: Link, ev: Event): Link
    requires Enabled(l, ev)
  {
    match ev
    case AtSender(event) => l.(sender := S.Step(l.sender, event))
    case Reads(e) => l.(node := l.node.(current := Holding(e)))
    case Works => l.(node := CurrentStep(l.node))
    case EarlierWorks(i) => l.(node := EarlierStep(l.node, i))
  }

  /** The receiver of the coarser model: a text counts as delivered when its number is taken. */
  function View(n: Node): R.Receiver {
    if n.current.Showing? then
      R.Receiver(n.recvSeq, n.buffer, true, n.delivered + [n.current.text], n.acked + [n.current.id])
    else
      R.Receiver(n.recvSeq, n.buffer, n.current.Draining?, n.delivered, n.acked)
  }

  lemma HandlingIsReceiving(n: Node)
    requires n.current.Holding?
    ensures View(CurrentStep(n)) == R.Receive(View(n), n.current.envelope)
  {
  }

  lemma ShowingIsInvisible(n: Node)
    requires n.current.Showing?
    ensures View(CurrentStep(n)) == View(n)
  {
  }

  lemma DrainingIsDraining(n: Node)
    requires n.current.Draining?
    ensures View(CurrentStep(n)) == R.DrainOne(View(n))
  {
  }

  // One loop: a session that nothing of an earlier one runs into.

  ghost predicate OneLoop(l: Link) {
    l.node.earlier == [] && (l.node.current.Holding? ==> l.node.current.envelope in l.sender.log.packets)
  }

  function LinkView(l: Link): T.Link {
    T.Link(l.sender, View(l.node))
  }

  /** What an event is to the two-party model. */
  function LinkEvents(l: Link, ev: Event): seq<T.Event> {
    match ev
    case AtSender(event) => [T.AtSender(event)]
    case Works =>
      if l.node.current.Holding? then [T.ChatArrives(l.node.current.envelope)]
      else if l.node.current.Draining? then [T.Drains]
      else []
    case _ => []
  }

  lemma OneLinkEvent(l: T.Link, ev: T.Event)
    requires T.Enabled(l, ev)
    ensures Legal(T.Step, l, [ev]) && Run(T.Step, l, [ev]) == T.Step(l, ev)
  {
    One(T.Step, l, ev);
  }

  lemma WorkProjects(l: Link)
    requires OneLoop(l) && Enabled(l, Works)
    ensures Legal(T.Step, LinkView(l), LinkEvents(l, Works))
    ensures Run(T.Step, LinkView(l), LinkEvents(l, Works)) == LinkView(Step(l, Works))
  {
    if l.node.current.Holding? {
      HandlingIsReceiving(l.node);
      OneLinkEvent(LinkView(l), T.ChatArrives(l.node.current.envelope));
    } else if l.node.current.Draining? {
      DrainingIsDraining(l.node);
      OneLinkEvent(LinkView(l), T.Drains);
    } else {
      ShowingIsInvisible(l.node);
    }
  }

  lemma StepProjects(l: Link, ev: Event)
    requires OneLoop(l) && Enabled(l, ev)
    ensures OneLoop(Step(l, ev))
    ensures Legal(T.Step, LinkView(l), LinkEvents(l, ev))
    ensures Run(T.Step, LinkView(l), LinkEvents(l, ev)) == LinkView(Step(l, ev))
  {
    match ev
    case AtSender(event) =>
      PacketsOnlyGrow(l.sender, event);
      OneLinkEvent(LinkView(l), T.AtSender(event));
    case Works => WorkProjects(l);
    case _ =>
  }

  lemma PacketsOnlyGrow(s: S.Sender, ev: S.Event)
    requires S.Enabled(s, ev)
    ensures s.log.packets <= S.Step(s, ev).log.packets
  {
  }

  /** With one read loop the steps between reading, taking the number and showing the text make no difference: every
      run is a run of the two-party model. */
  lemma {:induction false} OneLoopProjects(l: Link, run: seq<Event>) returns (events: seq<T.Event>)
    requires OneLoop(l) && Legal(Step, l, run)
    ensures Legal(T.Step, LinkView(l), events)
    ensures Run(T.Step, LinkView(l), events) == LinkView(Run(Step, l, run))
    decreases |run|
  {
    events := [];
    if run != [] {
      StepProjects(l, run[0]);
      var rest := OneLoopProjects(Step(l, run[0]), run[1..]);
      Concat(T.Step, LinkView(l), LinkEvents(l, run[0]), rest);
      events := LinkEvents(l, run[0]) + rest;
    }
  }

  /** The text shown as number `i` is the one that this session gave that number, for every text shown so far. */
  ghost predicate InOrder(l: Link) {
    forall i | 0 <= i < |l.node.delivered| :: Arrivals.Says(l.sender.log.issued, i + 1, l.node.delivered[i])
  }

  lemma FaithfulIsInOrder(l: Link)
    requires Arrivals.Faithful(View(l.node), l.sender.log.issued)
    ensures InOrder(l)
  {
    forall i | 0 <= i < |l.node.delivered|
      ensures Arrivals.Says(l.sender.log.issued, i + 1, l.node.delivered[i])
    {
      assert View(l.node).delivered[i] == l.node.delivered[i];
    }
  }

  /** End-to-end delivery, with every step of the read loop seen: at each moment the texts shown are those numbered
      1, 2, 3 and so on, in order and once each, and at most one more number has been taken than shown. */
  lemma ShownInOrder(run: seq<Event>)
    requires Legal(Step, FRESH, run) && Run(Step, FRESH, run).sender.log.sends < UINT64_LIMIT
    ensures
      var l := Run(Step, FRESH, run);
      InOrder(l) && |l.node.delivered| <= l.node.recvSeq <= |l.node.delivered| + 1
  {
    var l := Run(Step, FRESH, run);
    var events := OneLoopProjects(FRESH, run);
    T.RunKeepsLink(T.FRESH, events);
    FaithfulIsInOrder(l);
  }
}
