/** What a previous session can leave behind. A new stream resets the counters and the receive buffer but not
    `pending`. On the sending side a retransmission pass can outlive the session it began in, and so can a
    `sendChat` that has taken its number. On the receiving side the read loop of the old stream can still have a
    chat in hand, a text to show, or a buffer to drain. This module says exactly when such leftovers are harmless. */
module StaleEpoch {
  import opened Prelude
  import opened Envelopes
  import R = Receiving
  import S = Sending
  import T = TwoParty
  import P = PeerMachine
  import Lifetimes
  import Retransmission
  import Arrivals
  import opened ReadLoops
  import opened Runs

  /** The start of a session between a sender that stood at `s` and a receiver that stood at `n`. */
  function Resumed(s: S.Sender, n: Node): Link {
    Link(S.Restart(s), Connect(n))
  }

  /** Leftovers are envelopes that an earlier session built, filed under their ids; the pass and the map
      agree on what is still pending. `ReachableIsPlausible` shows that nothing else can be left. */
  ghost predicate Plausible(s: S.Sender) {
    && (forall id | id in s.pending :: s.pending[id].envelope.id == id && s.pending[id].envelope.sequence >= 1)
    && (forall i | 0 <= i < |s.todo| ::
          var id := s.todo[i].envelope.id;
          s.todo[i].envelope.sequence >= 1 && (id in s.pending ==> s.pending[id].envelope == s.todo[i].envelope))
  }

  /** The head of the pass has been written already. */
  predicate Sent(s: S.Sender, i: nat) {
    i == 0 && s.inFlight.Some?
  }

  /** Message `id` has had its last transmission: it was the one just written, and settling will remove it. */
  predicate Doomed(s: S.Sender, id: string)
    requires id in s.pending
  {
    && s.inFlight.Some? && s.todo != [] && s.todo[0].envelope.id == id && s.todo[0].ref == s.pending[id].ref
    && (!s.inFlight.value || s.pending[id].attempts >= S.MAX_PENDING_RETRIES)
  }

  /** No leftover that can still be sent is a chat with text: none that is pending, unless its last transmission was
      just made; none that the pass has ahead of it; and none that a `sendChat` is about to track. */
  ghost predicate Clean(s: S.Sender) {
    && (forall id | id in s.pending && !Doomed(s, id) :: !Deliverable(s.pending[id].envelope))
    && (forall i | 0 <= i < |s.todo| && !Sent(s, i) :: !Deliverable(s.todo[i].envelope))
    && (s.phase.Numbered? && s.phase.sequence >= 1 ==> IsBlank(s.phase.text))
  }

  predicate Harmless(s: S.Sender, e: Envelope) {
    T.Genuine(s, e) || !Deliverable(e)
  }

  ghost predicate HarmlessEverywhere(s: S.Sender) {
    && (forall e | e in s.log.packets :: Harmless(s, e))
    && (forall id | id in s.pending && !Doomed(s, id) :: Harmless(s, s.pending[id].envelope))
    && (forall i | 0 <= i < |s.todo| && !Sent(s, i) :: Harmless(s, s.todo[i].envelope))
    && (s.phase.Tracked? && !s.log.carriedOver ==> Harmless(s, s.phase.envelope))
    && (s.phase.Numbered? && s.log.carriedOver && s.phase.sequence >= 1 ==> IsBlank(s.phase.text))
  }

  ghost predicate NumbersOk(s: S.Sender) {
    && s.sendSeq == s.log.sends
    && (forall k | k in s.log.issued :: k <= s.sendSeq)
    && (s.phase.Numbered? && !s.log.carriedOver ==> s.phase.sequence == s.sendSeq && s.sendSeq !in s.log.issued)
  }

  /** A loop that can do nothing more to what the user is shown: it waits for its stream, or holds a chat that is
      dropped wherever the counters stand. */
  predicate QuietLoop(loop: Loop) {
    loop.Reading? || (loop.Holding? && (!Deliverable(loop.envelope) || loop.envelope.sequence == 0))
  }

  /** Every read loop of the receiver is quiet. */
  ghost predicate Quiet(n: Node) {
    QuietLoop(n.current) && forall i | 0 <= i < |n.earlier| :: QuietLoop(n.earlier[i])
  }

  ghost predicate ResumedOk(l: Link) {
    && NumbersOk(l.sender) && HarmlessEverywhere(l.sender)
    && R.Valid(View(l.node)) && Arrivals.Faithful(View(l.node), l.sender.log.issued)
    && (l.node.current.Holding? ==> Harmless(l.sender, l.node.current.envelope))
    && (forall i | 0 <= i < |l.node.earlier| :: QuietLoop(l.node.earlier[i]))
  }

  lemma StepKeepsNumbers(s: S.Sender, ev: S.Event)
    requires NumbersOk(s) && S.Enabled(s, ev)
    requires ev.Number? ==> s.log.sends + 1 < UINT64_LIMIT
    ensures NumbersOk(S.Step(s, ev)) && T.Extends(S.Step(s, ev).log.issued, s.log.issued)
  {
  }

  lemma SettleKeepsHarmless(s: S.Sender)
    requires HarmlessEverywhere(s) && S.Enabled(s, S.Settle)
    ensures HarmlessEverywhere(S.Step(s, S.Settle))
  {
    var t := S.SettleHead(s);
    forall id | id in t.pending ensures Harmless(t, t.pending[id].envelope) {
      assert !Doomed(s, id);
      assert Harmless(s, s.pending[id].envelope);
    }
    forall i | 0 <= i < |t.todo| ensures Harmless(t, t.todo[i].envelope) {
      assert t.todo[i] == s.todo[i + 1] && !Sent(s, i + 1);
    }
  }

  lemma TrackKeepsHarmless(s: S.Sender, e: Envelope, now: int, ref: nat)
    requires HarmlessEverywhere(s) && NumbersOk(s) && S.Enabled(s, S.Track(e, now, ref))
    ensures HarmlessEverywhere(S.Step(s, S.Track(e, now, ref)))
  {
    var t := S.Step(s, S.Track(e, now, ref));
    assert forall x | Harmless(s, x) :: Harmless(t, x);
    assert Harmless(t, e);
    forall id | id in t.pending && !Doomed(t, id) ensures Harmless(t, t.pending[id].envelope) {
      assert id != e.id ==> !Doomed(s, id) && Harmless(s, s.pending[id].envelope);
    }
  }

  lemma RetryKeepsHarmless(s: S.Sender, ok: bool)
    requires HarmlessEverywhere(s) && S.Enabled(s, S.RetryWrite(ok))
    ensures HarmlessEverywhere(S.Step(s, S.RetryWrite(ok)))
  {
    assert !Sent(s, 0);
    assert forall id | id in s.pending :: !Doomed(s, id);
  }

  lemma PassKeepsHarmless(s: S.Sender, ev: S.Event)
    requires HarmlessEverywhere(s) && S.Enabled(s, ev) && (ev.Snapshot? || ev.RetrySkip?)
    ensures HarmlessEverywhere(S.Step(s, ev))
  {
    assert forall id | id in s.pending :: !Doomed(s, id);
    var t := S.Step(s, ev);
    forall i | 0 <= i < |t.todo| ensures Harmless(t, t.todo[i].envelope) {
      if ev.RetrySkip? {
        assert t.todo[i] == s.todo[i + 1] && !Sent(s, i + 1);
      }
    }
  }

  lemma StepKeepsHarmless(s: S.Sender, ev: S.Event)
    requires HarmlessEverywhere(s) && NumbersOk(s) && S.Enabled(s, ev)
    ensures HarmlessEverywhere(S.Step(s, ev))
  {
    match ev
    case Settle => SettleKeepsHarmless(s);
    case Track(e, now, ref) => TrackKeepsHarmless(s, e, now, ref);
    case RetryWrite(ok) => RetryKeepsHarmless(s, ok);
    case Snapshot(_, _) => PassKeepsHarmless(s, ev);
    case RetrySkip => PassKeepsHarmless(s, ev);
    case _ => SendingKeepsHarmless(s, ev);
  }

  lemma SendingKeepsHarmless(s: S.Sender, ev: S.Event)
    requires HarmlessEverywhere(s) && S.Enabled(s, ev)
    requires ev.Number? || ev.BuildFails? || ev.Write? || ev.Unwind? || ev.Acknowledge?
    ensures HarmlessEverywhere(S.Step(s, ev))
  {
    var t := S.Step(s, ev);
    forall id | id in t.pending && !Doomed(t, id) ensures Harmless(t, t.pending[id].envelope) {
      assert !Doomed(s, id);
    }
    forall i | 0 <= i < |t.todo| && !Sent(t, i) ensures Harmless(t, t.todo[i].envelope) {
      assert !Sent(s, i);
    }
  }

  lemma SenderKeepsResumed(l: Link, ev: S.Event)
    requires ResumedOk(l) && Enabled(l, AtSender(ev))
    requires ev.Number? ==> l.sender.log.sends + 1 < UINT64_LIMIT
    ensures ResumedOk(Step(l, AtSender(ev)))
  {
    StepKeepsNumbers(l.sender, ev);
    StepKeepsHarmless(l.sender, ev);
    T.IssuingKeepsFaithful(View(l.node), l.sender.log.issued, S.Step(l.sender, ev).log.issued);
  }

  lemma WorkKeepsResumed(l: Link)
    requires ResumedOk(l) && Enabled(l, Works)
    ensures ResumedOk(Step(l, Works))
  {
    var n, issued := l.node, l.sender.log.issued;
    if n.current.Holding? {
      HandlingIsReceiving(n);
      R.ReceiveKeepsValid(View(n), n.current.envelope);
      if Deliverable(n.current.envelope) {
        Arrivals.ReceiveKeepsFaithful(View(n), n.current.envelope, issued);
      }
    } else if n.current.Draining? {
      DrainingIsDraining(n);
      R.DrainOneKeepsValid(View(n));
      Arrivals.DrainOneKeepsFaithful(View(n), issued);
    } else {
      ShowingIsInvisible(n);
    }
  }

  lemma QuietWorkKeepsResumed(l: Link, i: nat)
    requires ResumedOk(l) && Enabled(l, EarlierWorks(i))
    ensures ResumedOk(Step(l, EarlierWorks(i)))
  {
    var n, t := l.node, EarlierStep(l.node, i);
    assert QuietLoop(n.earlier[i]);
    assert View(t) == View(n).(acked := View(t).acked);
  }

  lemma StepKeepsResumed(l: Link, ev: Event)
    requires ResumedOk(l) && Enabled(l, ev)
    requires ev.AtSender? && ev.event.Number? ==> l.sender.log.sends + 1 < UINT64_LIMIT
    ensures ResumedOk(Step(l, ev))
  {
    match ev
    case AtSender(event) => SenderKeepsResumed(l, event);
    case Reads(e) => assert View(Step(l, ev).node) == View(l.node);
    case Works => WorkKeepsResumed(l);
    case EarlierWorks(i) => QuietWorkKeepsResumed(l, i);
  }

  lemma SendsGrow(l: Link, ev: Event)
    requires Enabled(l, ev)
    ensures Step(l, ev).sender.log.sends ==
            l.sender.log.sends + (if ev.AtSender? && ev.event.Number? then 1 else 0)
  {
    if ev.AtSender? {
      T.SendsCount(l.sender, ev.event);
    }
  }

  lemma {:induction false} SendsOnlyGrow(l: Link, run: seq<Event>)
    requires Legal(Step, l, run)
    ensures l.sender.log.sends <= Run(Step, l, run).sender.log.sends
    decreases |run|
  {
    if run != [] {
      SendsGrow(l, run[0]);
      SendsOnlyGrow(Step(l, run[0]), run[1..]);
    }
  }

  lemma {:induction false} RunKeepsResumed(l: Link, run: seq<Event>)
    requires ResumedOk(l) && Legal(Step, l, run)
    ensures Run(Step, l, run).sender.log.sends < UINT64_LIMIT ==> ResumedOk(Run(Step, l, run))
    decreases |run|
  {
    if run != [] {
      var t := Step(l, run[0]);
      SendsGrow(l, run[0]);
      SendsOnlyGrow(t, run[1..]);
      if t.sender.log.sends < UINT64_LIMIT {
        StepKeepsResumed(l, run[0]);
        RunKeepsResumed(t, run[1..]);
      }
    }
  }

  lemma CleanStartIsOk(s: S.Sender, n: Node)
    requires Clean(s) && Quiet(n)
    ensures ResumedOk(Resumed(s, n))
  {
    var t := S.Restart(s);
    forall id | id in t.pending && !Doomed(t, id) ensures !Deliverable(t.pending[id].envelope) {
      assert !Doomed(s, id);
    }
    forall i | 0 <= i < |t.todo| && !Sent(t, i) ensures !Deliverable(t.todo[i].envelope) {
      assert !Sent(s, i);
    }
  }

  // The other half: any other leftover can be shown to the user as if it were of the new session.

  lemma More(start: Link, run: seq<Event>, l: Link, ev: Event)
    requires Legal(Step, start, run) && Run(Step, start, run) == l && Enabled(l, ev)
    ensures Legal(Step, start, run + [ev]) && Run(Step, start, run + [ev]) == Step(l, ev)
  {
    Then(Step, start, run, ev);
  }

  /** The session has shown and issued nothing yet, and its loop is waiting. */
  ghost predicate Untouched(l: Link) {
    && l.sender.sendSeq == 0 && l.sender.log.sends == 0 && l.sender.log.issued == map[]
    && l.node == Node(0, map[], [], [], Reading, l.node.earlier)
  }

  /** `n` chats have been numbered in the session, and all were shown. */
  ghost predicate Shown(l: Link, n: nat) {
    && l.sender.phase.Idle? && l.sender.sendSeq == n && l.sender.log.sends == n
    && (forall k | k in l.sender.log.issued :: k <= n)
    && l.node.recvSeq == n && |l.node.delivered| == n && l.node.buffer == map[] && l.node.current.Reading?
  }

  /** A run that shows the user, as message number `k`, a text that is not that of message `k` of the session. */
  ghost predicate Misdelivers(start: Link, run: seq<Event>) {
    && Legal(Step, start, run)
    && Run(Step, start, run).sender.log.sends < UINT64_LIMIT
    && !InOrder(Run(Step, start, run))
  }

  /** There is always an id that has not been used. */
  lemma {:induction false} UnusedId(used: set<string>) returns (id: string)
    ensures forall x | x in used :: |x| < |id|
    decreases |used|
  {
    id := "0";
    if used != {} {
      var x :| x in used;
      id := UnusedId(used - {x});
      if |id| <= |x| {
        id := x + "0";
      }
    }
  }

  function PlainChat(id: string, sequence: uint64, text: string): Envelope {
    Envelope(VERSION, TYPE_CHAT, id, "", "", 0, sequence, ChatBody(text, 0))
  }

  /** A `sendChat` from before ends, one way or another, and writes nothing to this session. */
  lemma EndSend(l: Link) returns (run: seq<Event>)
    requires l.sender.phase.Idle? || l.sender.log.carriedOver
    ensures Legal(Step, l, run)
    ensures
      var t := Run(Step, l, run);
      && t.node == l.node && t.sender.phase.Idle? && t.sender.sendSeq == l.sender.sendSeq
      && t.sender.log.sends == l.sender.log.sends && t.sender.log.issued == l.sender.log.issued
      && t.sender.log.packets == l.sender.log.packets
  {
    var ev := match l.sender.phase
      case Numbered(_, _) => AtSender(S.BuildFails)
      case Tracked(_) => AtSender(S.Write(true))
      case _ => AtSender(S.Unwind);
    run := [];
    if !l.sender.phase.Idle? {
      More(l, [], l, ev);
      run := [] + [ev];
    }
  }

  /** A new chat is numbered, tracked and written. */
  lemma WriteFresh(l: Link, text: string) returns (run: seq<Event>, e: Envelope)
    requires l.sender.phase.Idle? && l.sender.sendSeq + 1 < UINT64_LIMIT && !IsBlank(text)
    ensures Legal(Step, l, run)
    ensures Deliverable(e) && Text(e) == text && e.sequence == l.sender.sendSeq + 1
    ensures
      var t := Run(Step, l, run);
      && t.node == l.node && t.sender.phase.Idle? && t.sender.sendSeq == e.sequence
      && t.sender.log.sends == l.sender.log.sends + 1 && t.sender.log.issued == l.sender.log.issued[e.sequence := e]
      && t.sender.log.packets == l.sender.log.packets + {e}
  {
    var id := UnusedId(l.sender.log.rounds.Keys);
    e := PlainChat(id, l.sender.sendSeq + 1, text);
    var number, track, write := AtSender(S.Number(text)), AtSender(S.Track(e, 0, 0)), AtSender(S.Write(true));
    More(l, [], l, number);
    var l1 := Step(l, number);
    More(l, [] + [number], l1, track);
    var l2 := Step(l1, track);
    More(l, [] + [number] + [track], l2, write);
    run := [] + [number] + [track] + [write];
  }

  /** The chat that is next arrives, is shown, and nothing is left to drain. */
  lemma TakeNext(l: Link, e: Envelope) returns (run: seq<Event>)
    requires e in l.sender.log.packets && Deliverable(e) && e.sequence == l.node.recvSeq + 1
    requires l.node.current.Reading? && l.node.buffer == map[]
    ensures Legal(Step, l, run)
    ensures
      Run(Step, l, run) ==
        l.(node := l.node.(recvSeq := e.sequence, delivered := l.node.delivered + [Text(e)],
                           acked := l.node.acked + [e.id]))
  {
    More(l, [], l, Reads(e));
    var l1 := Step(l, Reads(e));
    More(l, [] + [Reads(e)], l1, Works);
    var l2 := Step(l1, Works);
    More(l, [] + [Reads(e)] + [Works], l2, Works);
    var l3 := Step(l2, Works);
    More(l, [] + [Reads(e)] + [Works] + [Works], l3, Works);
    run := [] + [Reads(e)] + [Works] + [Works] + [Works];
  }

  lemma SendAndTake(l: Link, n: nat) returns (run: seq<Event>)
    requires Shown(l, n) && n + 1 < UINT64_LIMIT
    ensures Legal(Step, l, run)
    ensures
      var t := Run(Step, l, run);
      && Shown(t, n + 1) && t.node.earlier == l.node.earlier && l.sender.log.packets <= t.sender.log.packets
  {
    assert !IsSpace("x"[0]);
    var first, e := WriteFresh(l, "x");
    var second := TakeNext(Run(Step, l, first), e);
    Concat(Step, l, first, second);
    run := first + second;
  }

  /** Fresh chats are sent and shown until number `n`. */
  lemma {:induction false} ShowUpTo(l: Link, m: nat, n: nat) returns (run: seq<Event>)
    requires Shown(l, m) && m <= n < UINT64_LIMIT
    ensures Legal(Step, l, run)
    ensures
      var t := Run(Step, l, run);
      && Shown(t, n) && t.node.earlier == l.node.earlier && l.sender.log.packets <= t.sender.log.packets
    decreases n - m
  {
    run := [];
    if m < n {
      run := SendAndTake(l, m);
      var rest := ShowUpTo(Run(Step, l, run), m + 1, n);
      Concat(Step, l, run, rest);
      run := run + rest;
    }
  }

  lemma ShowFromStart(start: Link, run: seq<Event>, n: nat) returns (longer: seq<Event>)
    requires Legal(Step, start, run) && n < UINT64_LIMIT
    requires
      var l := Run(Step, start, run);
      Untouched(l) && (l.sender.phase.Idle? || l.sender.log.carriedOver)
    ensures Legal(Step, start, longer)
    ensures
      var l, t := Run(Step, start, run), Run(Step, start, longer);
      && Shown(t, n) && t.node.earlier == l.node.earlier && l.sender.log.packets <= t.sender.log.packets
  {
    var l := Run(Step, start, run);
    var first := EndSend(l);
    var second := ShowUpTo(Run(Step, l, first), 0, n);
    Concat(Step, l, first, second);
    Concat(Step, start, run, first + second);
    longer := run + (first + second);
  }

  /** A text shown beyond the numbers that the session has issued is none of its own. */
  lemma ForeignText(start: Link, run: seq<Event>, n: nat)
    requires Legal(Step, start, run) && n < UINT64_LIMIT
    requires
      var l := Run(Step, start, run);
      l.sender.log.sends <= n && |l.node.delivered| == n + 1 && n + 1 !in l.sender.log.issued
    ensures Misdelivers(start, run)
  {
    var l := Run(Step, start, run);
    assert !Arrivals.Says(l.sender.log.issued, n + 1, l.node.delivered[n]);
  }

  /** A stale chat that was written to the new session is shown, whatever its number: the session only has to get as
      far as the number before it. */
  lemma WrittenIsUnsafe(start: Link, run: seq<Event>, e: Envelope) returns (longer: seq<Event>)
    requires Legal(Step, start, run) && Deliverable(e) && e.sequence >= 1
    requires
      var l := Run(Step, start, run);
      Untouched(l) && (l.sender.phase.Idle? || l.sender.log.carriedOver) && e in l.sender.log.packets
    ensures Misdelivers(start, longer)
  {
    var n := e.sequence - 1;
    var before := ShowFromStart(start, run, n);
    var last := TakeNext(Run(Step, start, before), e);
    Concat(Step, start, before, last);
    longer := before + last;
    ForeignText(start, longer, n);
  }

  /** So is one that the loop of an earlier stream has in hand. */
  lemma HeldIsUnsafe(start: Link, i: nat) returns (run: seq<Event>)
    requires Untouched(start) && (start.sender.phase.Idle? || start.sender.log.carriedOver)
    requires i < |start.node.earlier| && start.node.earlier[i].Holding? && !QuietLoop(start.node.earlier[i])
    ensures Misdelivers(start, run)
  {
    var e := start.node.earlier[i].envelope;
    var n := e.sequence - 1;
    var before := ShowFromStart(start, [], n);
    var l := Run(Step, start, before);
    More(start, before, l, EarlierWorks(i));
    var l1 := Step(l, EarlierWorks(i));
    More(start, before + [EarlierWorks(i)], l1, EarlierWorks(i));
    run := before + [EarlierWorks(i)] + [EarlierWorks(i)];
    ForeignText(start, run, n);
  }

  /** So is a text that such a loop is about to show. */
  lemma ShowingIsUnsafe(start: Link, i: nat) returns (run: seq<Event>)
    requires Untouched(start) && i < |start.node.earlier| && start.node.earlier[i].Showing?
    ensures Misdelivers(start, run)
  {
    More(start, [], start, EarlierWorks(i));
    run := [] + [EarlierWorks(i)];
    ForeignText(start, run, 0);
  }

  /** Two chats have been written, the second has overtaken the first, and the first is being handled. */
  lemma Overtake(start: Link, first: Envelope, second: Envelope) returns (run: seq<Event>)
    requires start.node == Node(0, map[], [], [], Reading, start.node.earlier)
    requires first in start.sender.log.packets && Deliverable(first) && first.sequence == 1
    requires second in start.sender.log.packets && Deliverable(second) && second.sequence == 2
    ensures Legal(Step, start, run)
    ensures
      Run(Step, start, run) ==
        start.(node := Node(1, map[2 := second], [], [second.id], Showing(Text(first), first.id), start.node.earlier))
  {
    More(start, [], start, Reads(second));
    var l1 := Step(start, Reads(second));
    More(start, [] + [Reads(second)], l1, Works);
    var l2 := Step(l1, Works);
    More(start, [] + [Reads(second)] + [Works], l2, Reads(first));
    var l3 := Step(l2, Reads(first));
    More(start, [] + [Reads(second)] + [Works] + [Reads(first)], l3, Works);
    run := [] + [Reads(second)] + [Works] + [Reads(first)] + [Works];
  }

  lemma WriteTwo(start: Link) returns (run: seq<Event>, first: Envelope, second: Envelope)
    requires Untouched(start) && (start.sender.phase.Idle? || start.sender.log.carriedOver)
    ensures Legal(Step, start, run)
    ensures Deliverable(first) && first.sequence == 1 && Text(first) == "x"
    ensures Deliverable(second) && second.sequence == 2 && Text(second) == "y"
    ensures
      var t := Run(Step, start, run);
      && t.node == start.node && first in t.sender.log.packets && second in t.sender.log.packets
      && t.sender.log.sends == 2 && t.sender.log.issued == map[1 := first, 2 := second]
  {
    assert !IsSpace("x"[0]) && !IsSpace("y"[0]);
    var a := EndSend(start);
    var l := Run(Step, start, a);
    var b, e := WriteFresh(l, "x");
    Concat(Step, start, a, b);
    var c, f := WriteFresh(Run(Step, l, b), "y");
    Concat(Step, start, a + b, c);
    run, first, second := a + b + c, e, f;
  }

  /** A loop of an earlier stream that is still draining takes chats of the new session out of the buffer, and can show
      one before the loop of the new stream has shown the one before it. */
  lemma DrainingIsUnsafe(start: Link, i: nat) returns (run: seq<Event>)
    requires Untouched(start) && (start.sender.phase.Idle? || start.sender.log.carriedOver)
    requires i < |start.node.earlier| && start.node.earlier[i].Draining?
    ensures Misdelivers(start, run)
  {
    var a, first, second := WriteTwo(start);
    var b := Overtake(Run(Step, start, a), first, second);
    Concat(Step, start, a, b);
    var l := Run(Step, start, a + b);
    More(start, a + b, l, EarlierWorks(i));
    var l1 := Step(l, EarlierWorks(i));
    More(start, a + b + [EarlierWorks(i)], l1, EarlierWorks(i));
    run := a + b + [EarlierWorks(i)] + [EarlierWorks(i)];
    var t := Step(l1, EarlierWorks(i));
    assert t.node.delivered == ["y"] && t.sender.log.issued[1] == first;
    assert !Arrivals.Says(t.sender.log.issued, 0 + 1, t.node.delivered[0]);
  }

  lemma LoudIsUnsafe(s: S.Sender, n: Node) returns (run: seq<Event>)
    requires !Quiet(n)
    ensures Misdelivers(Resumed(s, n), run)
  {
    var start := Resumed(s, n);
    var i := |n.earlier|;
    if QuietLoop(n.current) {
      i :| 0 <= i < |n.earlier| && !QuietLoop(n.earlier[i]);
    }
    var loop := start.node.earlier[i];
    assert !QuietLoop(loop);
    if loop.Holding? {
      run := HeldIsUnsafe(start, i);
    } else if loop.Showing? {
      run := ShowingIsUnsafe(start, i);
    } else {
      run := DrainingIsUnsafe(start, i);
    }
  }

  // Leftovers of the sender: first they have to be written to the new session.

  /** Nothing new has happened yet in the session except retransmissions of leftovers. */
  ghost predicate OnlyRetries(l: Link) {
    && Untouched(l) && (l.sender.phase.Idle? || l.sender.log.carriedOver)
    && l.sender.inFlight.None? && Plausible(l.sender)
  }

  /** Writes and settles the head of the pass. */
  lemma WorkHead(l: Link) returns (run: seq<Event>)
    requires OnlyRetries(l) && l.sender.todo != []
    ensures Legal(Step, l, run)
    ensures
      var t := Run(Step, l, run);
      var head := l.sender.todo[0].envelope;
      && OnlyRetries(t) && t.sender.todo == l.sender.todo[1..]
      && head in t.sender.log.packets && l.sender.log.packets <= t.sender.log.packets
      && (forall id | id in l.sender.pending && id != head.id ::
            id in t.sender.pending && t.sender.pending[id] == l.sender.pending[id])
  {
    var write, settle := AtSender(S.RetryWrite(true)), AtSender(S.Settle);
    More(l, [], l, write);
    var l1 := Step(l, write);
    More(l, [] + [write], l1, settle);
    SettleStaysPlausible(l1.sender);
    run := [] + [write] + [settle];
  }

  /** A leftover that the pass still has to send gets sent. */
  lemma {:induction false} WorkUntilSent(l: Link, e: Envelope, i: nat) returns (run: seq<Event>)
    requires OnlyRetries(l) && i < |l.sender.todo| && l.sender.todo[i].envelope == e
    ensures Legal(Step, l, run) && OnlyRetries(Run(Step, l, run)) && e in Run(Step, l, run).sender.log.packets
    decreases i
  {
    run := WorkHead(l);
    if i > 0 {
      var rest := WorkUntilSent(Run(Step, l, run), e, i - 1);
      Concat(Step, l, run, rest);
      run := run + rest;
    }
  }

  /** A pass runs to its end; a leftover that is still pending either gets sent or stays pending. */
  lemma {:induction false} FinishPass(l: Link, e: Envelope) returns (run: seq<Event>)
    requires OnlyRetries(l) && e.id in l.sender.pending && l.sender.pending[e.id].envelope == e
    ensures Legal(Step, l, run) && OnlyRetries(Run(Step, l, run))
    ensures
      var s := Run(Step, l, run).sender;
      e in s.log.packets || (s.todo == [] && e.id in s.pending && s.pending[e.id].envelope == e)
    decreases |l.sender.todo|
  {
    run := [];
    if l.sender.todo != [] {
      run := WorkHead(l);
      if l.sender.todo[0].envelope.id != e.id {
        var rest := FinishPass(Run(Step, l, run), e);
        Concat(Step, l, run, rest);
        run := run + rest;
      }
    }
  }

  lemma {:induction false} SnapshotExists(pending: map<string, S.Pending>, now: int) returns (items: seq<S.Item>)
    requires forall id | id in pending :: pending[id].envelope.id == id
    ensures S.IsSnapshot(pending, now, items)
    decreases |pending|
  {
    items := [];
    if pending != map[] {
      var id :| id in pending;
      assert pending.Keys == (pending - {id}).Keys + {id};
      items := SnapshotExists(pending - {id}, now);
      if S.Due(pending[id], now) {
        items := items + [S.Item(pending[id].envelope, pending[id].ref)];
      }
    }
  }

  /** Any leftover is written into the new session by some run of the retransmitter alone. */
  lemma LeftoverGetsSent(l: Link, e: Envelope) returns (run: seq<Event>)
    requires OnlyRetries(l) && e.id in l.sender.pending && l.sender.pending[e.id].envelope == e
    ensures Legal(Step, l, run) && OnlyRetries(Run(Step, l, run)) && e in Run(Step, l, run).sender.log.packets
  {
    run := FinishPass(l, e);
    var t := Run(Step, l, run);
    if e !in t.sender.log.packets {
      var now := t.sender.pending[e.id].lastSent + S.PENDING_TIMEOUT;
      var items := SnapshotExists(t.sender.pending, now);
      var begin := AtSender(S.Snapshot(now, items));
      More(t, [], t, begin);
      var i :| 0 <= i < |items| && items[i] == S.Item(e, t.sender.pending[e.id].ref);
      var rest := WorkUntilSent(Step(t, begin), e, i);
      Concat(Step, t, [] + [begin], rest);
      Concat(Step, l, run, [] + [begin] + rest);
      run := run + ([] + [begin] + rest);
    }
  }

  lemma SettleStaysPlausible(s: S.Sender)
    requires Plausible(s) && S.Enabled(s, S.Settle)
    ensures Plausible(S.SettleHead(s))
  {
    var t := S.SettleHead(s);
    forall i | 0 <= i < |t.todo|
      ensures
        var id := t.todo[i].envelope.id;
        t.todo[i].envelope.sequence >= 1 && (id in t.pending ==> t.pending[id].envelope == t.todo[i].envelope)
    {
      assert t.todo[i] == s.todo[i + 1];
    }
  }

  /** The new session settles a retry that was written in the old one. Nothing that can still be sent is lost. */
  lemma SettleDown(s: S.Sender, n: Node) returns (run: seq<Event>)
    requires Plausible(s) && (s.inFlight.Some? ==> s.todo != [])
    ensures Legal(Step, Resumed(s, n), run)
    ensures
      var t := Run(Step, Resumed(s, n), run);
      && OnlyRetries(t) && t.sender.phase == s.phase
      && t.sender.todo == (if s.inFlight.Some? then s.todo[1..] else s.todo)
      && (forall id | id in s.pending && !Doomed(s, id) ::
            id in t.sender.pending && t.sender.pending[id].envelope == s.pending[id].envelope)
  {
    var l := Resumed(s, n);
    run := [];
    if s.inFlight.Some? {
      var settle := AtSender(S.Settle);
      More(l, [], l, settle);
      run := [] + [settle];
      SettleStaysPlausible(l.sender);
    }
  }

  /** A `sendChat` of the old session goes on in the new one: its message becomes a pending leftover. */
  lemma FinishTracking(l: Link) returns (run: seq<Event>, e: Envelope)
    requires OnlyRetries(l) && l.sender.log.carriedOver
    requires l.sender.phase.Numbered? && l.sender.phase.sequence >= 1 && !IsBlank(l.sender.phase.text)
    ensures Legal(Step, l, run) && OnlyRetries(Run(Step, l, run))
    ensures Deliverable(e) && e.sequence >= 1
    ensures
      var pending := Run(Step, l, run).sender.pending;
      e.id in pending && pending[e.id].envelope == e
  {
    var s := l.sender;
    var id := UnusedId(s.log.rounds.Keys + set i | 0 <= i < |s.todo| :: s.todo[i].envelope.id);
    e := PlainChat(id, s.phase.sequence, s.phase.text);
    var track := AtSender(S.Track(e, 0, 0));
    More(l, [], l, track);
    run := [] + [track];
  }

  lemma PendingIsUnsafe(start: Link, run: seq<Event>, e: Envelope) returns (longer: seq<Event>)
    requires Legal(Step, start, run) && OnlyRetries(Run(Step, start, run))
    requires Deliverable(e) && e.sequence >= 1
    requires
      var pending := Run(Step, start, run).sender.pending;
      e.id in pending && pending[e.id].envelope == e
    ensures Misdelivers(start, longer)
  {
    var more := LeftoverGetsSent(Run(Step, start, run), e);
    Concat(Step, start, run, more);
    longer := WrittenIsUnsafe(start, run + more, e);
  }

  lemma AheadIsUnsafe(start: Link, run: seq<Event>, i: nat) returns (longer: seq<Event>)
    requires Legal(Step, start, run) && OnlyRetries(Run(Step, start, run))
    requires i < |Run(Step, start, run).sender.todo|
    requires Deliverable(Run(Step, start, run).sender.todo[i].envelope)
    ensures Misdelivers(start, longer)
  {
    var e := Run(Step, start, run).sender.todo[i].envelope;
    var more := WorkUntilSent(Run(Step, start, run), e, i);
    Concat(Step, start, run, more);
    longer := WrittenIsUnsafe(start, run + more, e);
  }

  lemma DirtyIsUnsafe(s: S.Sender, n: Node) returns (run: seq<Event>)
    requires Plausible(s) && (s.inFlight.Some? ==> s.todo != []) && !Clean(s)
    ensures Misdelivers(Resumed(s, n), run)
  {
    var start := Resumed(s, n);
    var first := SettleDown(s, n);
    var l := Run(Step, start, first);
    if i :| 0 <= i < |s.todo| && !Sent(s, i) && Deliverable(s.todo[i].envelope) {
      run := AheadIsUnsafe(start, first, if s.inFlight.Some? then i - 1 else i);
    } else if id :| id in s.pending && !Doomed(s, id) && Deliverable(s.pending[id].envelope) {
      run := PendingIsUnsafe(start, first, s.pending[id].envelope);
    } else {
      var more, e := FinishTracking(l);
      Concat(Step, start, first, more);
      run := PendingIsUnsafe(start, first + more, e);
    }
  }

  lemma FaithfulFromExactly(s: S.Sender, n: Node, l: Link)
    requires Plausible(s) && (s.inFlight.Some? ==> s.todo != []) && l == Resumed(s, n)
    ensures Clean(s) && Quiet(n) <==> forall run :: !Misdelivers(l, run)
  {
    if !Clean(s) {
      var run := DirtyIsUnsafe(s, n);
      assert Misdelivers(l, run);
    } else if !Quiet(n) {
      var run := LoudIsUnsafe(s, n);
      assert Misdelivers(l, run);
    } else {
      CleanStartIsOk(s, n);
      forall run | Legal(Step, l, run) && Run(Step, l, run).sender.log.sends < UINT64_LIMIT
        ensures !Misdelivers(l, run)
      {
        RunKeepsResumed(l, run);
        FaithfulIsInOrder(Run(Step, l, run));
      }
    }
  }

  /** What a peer's machine leaves behind is always of the kinds that are considered here. */
  lemma ReachableIsPlausible(past: seq<P.Event>)
    requires Legal(P.Step, P.FRESH, past)
    ensures
      var s := Run(P.Step, P.FRESH, past).sender;
      Plausible(s) && (s.inFlight.Some? ==> s.todo != [])
  {
    Lifetimes.PeerRunKeepsSound(P.FRESH, past);
    Lifetimes.PeerRunKeepsHead(P.FRESH, past);
    var s := Run(P.Step, P.FRESH, past).sender;
    forall id | id in s.pending ensures s.pending[id].envelope.id == id {
      assert Retransmission.PendingOk(s, id);
    }
    forall i | 0 <= i < |s.todo|
      ensures
        var id := s.todo[i].envelope.id;
        id in s.pending ==> s.pending[id].envelope == s.todo[i].envelope
    {
      assert Retransmission.ItemOk(s, i);
    }
  }

  /** The link between two nodes that have just connected. */
  ghost function Connected(sender: P.Peer, receiver: Node): Link {
    Link(P.Step(sender, P.Connects).sender, Connect(receiver))
  }

  /** The hypothesis under which the end-to-end theorems hold, and why no weaker one will do. Take a sending node after
      any past, with any number of earlier sessions that may have ended at any moment, and a receiving node whose
      read loops, however many, stand anywhere; and let a new session begin. In every run of it the user is shown
      the messages of that session, each under its own number, exactly when nothing is left over on either side. For
      the sender: no chat with text is pending, ahead in an unfinished pass, or in the hands of a `sendChat` that took
      its number before. For the receiver: no loop of an earlier stream holds a chat with text and a number, is about
      to show a text, or is still draining. */
  lemma FaithfulExactlyWhenNothingStale(sender: P.Peer, past: seq<P.Event>, receiver: Node)
    requires Legal(P.Step, P.FRESH, past) && sender == Run(P.Step, P.FRESH, past)
    ensures Clean(sender.sender) && Quiet(receiver) <==> forall run :: !Misdelivers(Connected(sender, receiver), run)
  {
    ReachableIsPlausible(past);
    FaithfulFromExactly(sender.sender, receiver, Connected(sender, receiver));
  }

  // A concrete trace.

  /** An old session that sent one message and got no answer. */
  function OneUnanswered(stale: Envelope): S.Sender {
    S.FRESH.(sendSeq := 1, pending := map[stale.id := S.Pending(stale, 0, 1, 0)],
             log := S.EMPTY_LOG.(rounds := map[stale.id := [0]], writes := map[stale.id := 1]))
  }

  lemma RetransmitStale(l: Link, stale: Envelope) returns (run: seq<Event>)
    requires l == Resumed(OneUnanswered(stale), FRESH_NODE)
    requires stale.sequence == 1 && Deliverable(stale)
    ensures Legal(Step, l, run)
    ensures
      var t := Run(Step, l, run);
      && t.node == l.node && t.sender.phase.Idle? && t.sender.sendSeq == 0 && t.sender.log.issued == map[]
      && t.sender.log.rounds.Keys == {stale.id} && stale in t.sender.log.packets
  {
    var items := [S.Item(stale, 0)];
    assert items[0] in items;
    var begin := AtSender(S.Snapshot(S.PENDING_TIMEOUT, items));
    var write := AtSender(S.RetryWrite(true));
    More(l, [], l, begin);
    var l1 := Step(l, begin);
    More(l, [] + [begin], l1, write);
    run := [] + [begin] + [write];
  }

  lemma SendNewer(l: Link, newer: Envelope) returns (run: seq<Event>)
    requires l.sender.phase.Idle? && l.sender.sendSeq == 0 && l.sender.log.issued == map[]
    requires newer.sequence == 1 && Deliverable(newer) && newer.id !in l.sender.log.rounds
    ensures Legal(Step, l, run)
    ensures
      var t := Run(Step, l, run);
      && t.node == l.node && t.sender.log.issued == map[1 := newer] && newer in t.sender.log.packets
  {
    var number, track, write :=
      AtSender(S.Number(Text(newer))), AtSender(S.Track(newer, 0, 1)), AtSender(S.Write(true));
    More(l, [], l, number);
    var l1 := Step(l, number);
    More(l, [] + [number], l1, track);
    var l2 := Step(l1, track);
    More(l, [] + [number] + [track], l2, write);
    run := [] + [number] + [track] + [write];
  }

  /** A chat that looks like a duplicate is acknowledged, and the sender hears of it. */
  lemma AcknowledgeDuplicate(l: Link, e: Envelope) returns (run: seq<Event>)
    requires l.node.current.Reading? && e in l.sender.log.packets && Deliverable(e) && e.sequence <= l.node.recvSeq
    ensures Legal(Step, l, run)
    ensures
      var t := Run(Step, l, run);
      && t.node == l.node.(acked := l.node.acked + [e.id]) && t.sender.log.issued == l.sender.log.issued
      && e.id in t.sender.log.acknowledged && e.id !in t.sender.pending
  {
    var ack := AtSender(S.Acknowledge(e.id));
    More(l, [], l, Reads(e));
    var l1 := Step(l, Reads(e));
    More(l, [] + [Reads(e)], l1, Works);
    var l2 := Step(l1, Works);
    assert l2.node.acked[|l.node.acked|] == e.id;
    More(l, [] + [Reads(e)] + [Works], l2, ack);
    run := [] + [Reads(e)] + [Works] + [ack];
  }

  /** Message 1 of the old session is still pending when the new one begins. Its retransmission is delivered as
      message 1 of the new session; the real message 1 then looks like a duplicate. The sender sees it
      acknowledged, yet its text was never shown. */
  lemma StaleMessageReplacesNewOne(stale: Envelope, newer: Envelope) returns (run: seq<Event>)
    requires stale.sequence == 1 && Deliverable(stale)
    requires newer.sequence == 1 && Deliverable(newer) && newer.id != stale.id
    ensures Legal(Step, Resumed(OneUnanswered(stale), FRESH_NODE), run)
    ensures
      var l := Run(Step, Resumed(OneUnanswered(stale), FRESH_NODE), run);
      && l.sender.log.issued == map[1 := newer]
      && newer.id in l.sender.log.acknowledged && newer.id !in l.sender.pending
      && l.node.delivered == [Text(stale)]
  {
    var start := Resumed(OneUnanswered(stale), FRESH_NODE);
    var a := RetransmitStale(start, stale);
    var b := TakeNext(Run(Step, start, a), stale);
    Concat(Step, start, a, b);
    var c := SendNewer(Run(Step, start, a + b), newer);
    Concat(Step, start, a + b, c);
    var d := AcknowledgeDuplicate(Run(Step, start, a + b + c), newer);
    Concat(Step, start, a + b + c, d);
    run := a + b + c + d;
  }
}
