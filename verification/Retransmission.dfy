/** Retransmission under interleaving: how often and how densely a message is sent again while
    acknowledgements and new sends land at any point of a pass. */
module Retransmission {
  import opened Envelopes
  import opened Sending
  import opened Runs

  /** Any two readings are at least one timeout apart, in order. */
  ghost predicate Spaced(times: seq<int>) {
    forall i, j | 0 <= i < j < |times| :: times[j] - times[i] >= PENDING_TIMEOUT
  }

  function Last(times: seq<int>): int
    requires times != []
  {
    times[|times| - 1]
  }

  /** The head of the pass has been written, its outcome is not settled yet, and it is message `id`. */
  predicate Written(s: Sender, id: string) {
    s.inFlight.Some? && s.todo != [] && s.todo[0].envelope.id == id
  }

  /** `sendChat` has tracked message `id` and has not written it yet. */
  predicate Unwritten(s: Sender, id: string) {
    s.phase.Tracked? && s.phase.envelope.id == id
  }

  ghost predicate RoundsOk(s: Sender, id: string)
    requires id in s.log.rounds
  {
    var rounds := s.log.rounds[id];
    && 1 <= |rounds| <= MAX_TRANSMISSIONS
    && Spaced(rounds)
    && Count(s.log.writes, id) + (if Unwritten(s, id) then 1 else 0) == |rounds|
  }

  ghost predicate PendingOk(s: Sender, id: string)
    requires id in s.pending
  {
    var p := s.pending[id];
    var rounds := Rounds(s.log.rounds, id);
    && p.envelope.id == id
    && 1 <= p.attempts <= MAX_PENDING_RETRIES
    && |rounds| == (if Written(s, id) then p.attempts + 1 else p.attempts)
    && Last(rounds) == (if Written(s, id) then s.passTime else p.lastSent)
  }

  ghost predicate ItemOk(s: Sender, i: nat)
    requires i < |s.todo|
  {
    var item := s.todo[i];
    var id := item.envelope.id;
    var rounds := Rounds(s.log.rounds, id);
    && rounds != []
    && (id in s.pending ==> item == Item(s.pending[id].envelope, s.pending[id].ref))
    && (i > 0 || s.inFlight.None? ==> |rounds| < MAX_TRANSMISSIONS && s.passTime - Last(rounds) >= PENDING_TIMEOUT)
  }

  ghost predicate Distinct(todo: seq<Item>) {
    forall i, j | 0 <= i < j < |todo| :: todo[i].envelope.id != todo[j].envelope.id
  }

  ghost predicate Inv(s: Sender) {
    && (forall id | id in s.log.rounds :: RoundsOk(s, id))
    && (forall id | id in s.pending :: PendingOk(s, id))
    && (forall i | 0 <= i < |s.todo| :: ItemOk(s, i))
    && Distinct(s.todo)
    && (s.phase.Tracked? ==> s.phase.envelope.id in s.log.rounds)
  }

  lemma SendingKeepsInv(s: Sender, ev: Event)
    requires Inv(s) && Enabled(s, ev)
    requires ev.Number? || ev.BuildFails? || ev.Write? || ev.Unwind? || ev.Acknowledge?
    ensures Inv(Step(s, ev))
  {
    var t := Step(s, ev);
    forall id | id in t.log.rounds ensures RoundsOk(t, id) {
      assert RoundsOk(s, id);
    }
    forall id | id in t.pending ensures PendingOk(t, id) {
      assert PendingOk(s, id);
    }
    forall i | 0 <= i < |t.todo| ensures ItemOk(t, i) {
      assert ItemOk(s, i);
    }
  }

  lemma TrackKeepsInv(s: Sender, e: Envelope, now: int, ref: nat)
    requires Inv(s) && Enabled(s, Track(e, now, ref))
    ensures Inv(Step(s, Track(e, now, ref)))
  {
    var t := Step(s, Track(e, now, ref));
    forall i | 0 <= i < |t.todo| ensures ItemOk(t, i) && t.todo[i].envelope.id != e.id {
      assert ItemOk(s, i);
    }
    forall id | id in t.log.rounds ensures RoundsOk(t, id) {
      assert id != e.id ==> RoundsOk(s, id);
    }
    forall id | id in t.pending ensures PendingOk(t, id) {
      assert id != e.id ==> PendingOk(s, id);
    }
  }

  lemma SnapshotKeepsInv(s: Sender, now: int, items: seq<Item>)
    requires Inv(s) && Enabled(s, Snapshot(now, items))
    ensures Inv(Step(s, Snapshot(now, items)))
  {
    var t := Step(s, Snapshot(now, items));
    forall i | 0 <= i < |t.todo| ensures ItemOk(t, i) {
      assert PendingOk(s, items[i].envelope.id);
    }
    forall id | id in t.log.rounds ensures RoundsOk(t, id) {
      assert RoundsOk(s, id);
    }
    forall id | id in t.pending ensures PendingOk(t, id) {
      assert PendingOk(s, id);
    }
  }

  lemma RetryWriteKeepsRounds(s: Sender, ok: bool, id: string)
    requires Inv(s) && Enabled(s, RetryWrite(ok)) && id in Step(s, RetryWrite(ok)).log.rounds
    ensures RoundsOk(Step(s, RetryWrite(ok)), id)
  {
    assert ItemOk(s, 0) && RoundsOk(s, id);
  }

  lemma RetryWriteKeepsInv(s: Sender, ok: bool)
    requires Inv(s) && Enabled(s, RetryWrite(ok))
    ensures Inv(Step(s, RetryWrite(ok)))
  {
    var t := Step(s, RetryWrite(ok));
    assert ItemOk(s, 0);
    forall id | id in t.log.rounds ensures RoundsOk(t, id) {
      RetryWriteKeepsRounds(s, ok, id);
    }
    forall id | id in t.pending ensures PendingOk(t, id) {
      assert PendingOk(s, id);
    }
    forall i | 0 <= i < |t.todo| ensures ItemOk(t, i) {
      assert ItemOk(s, i);
    }
  }

  lemma SkipKeepsInv(s: Sender)
    requires Inv(s) && Enabled(s, RetrySkip)
    ensures Inv(Step(s, RetrySkip))
  {
    var t := Step(s, RetrySkip);
    forall i | 0 <= i < |t.todo| ensures ItemOk(t, i) {
      assert ItemOk(s, i + 1);
    }
    forall id | id in t.log.rounds ensures RoundsOk(t, id) {
      assert RoundsOk(s, id);
    }
    forall id | id in t.pending ensures PendingOk(t, id) {
      assert PendingOk(s, id);
    }
  }

  lemma SettleKeepsPending(s: Sender, id: string)
    requires Inv(s) && Enabled(s, Settle) && id in SettleHead(s).pending
    ensures PendingOk(SettleHead(s), id)
  {
    assert ItemOk(s, 0) && PendingOk(s, id);
    assert SettleHead(s).todo != [] ==> SettleHead(s).todo[0] == s.todo[1];
  }

  lemma SettleKeepsItem(s: Sender, i: nat)
    requires Inv(s) && Enabled(s, Settle) && i < |SettleHead(s).todo|
    ensures ItemOk(SettleHead(s), i)
  {
    assert ItemOk(s, i + 1) && s.todo[i + 1].envelope.id != s.todo[0].envelope.id;
  }

  lemma SettleKeepsInv(s: Sender)
    requires Inv(s) && Enabled(s, Settle)
    ensures Inv(Step(s, Settle))
  {
    var t := SettleHead(s);
    forall i | 0 <= i < |t.todo| ensures ItemOk(t, i) {
      SettleKeepsItem(s, i);
    }
    forall id | id in t.log.rounds ensures RoundsOk(t, id) {
      assert RoundsOk(s, id);
    }
    forall id | id in t.pending ensures PendingOk(t, id) {
      SettleKeepsPending(s, id);
    }
  }

  lemma StepKeepsInv(s: Sender, ev: Event)
    requires Inv(s) && Enabled(s, ev)
    ensures Inv(Step(s, ev))
  {
    match ev
    case Track(e, now, ref) => TrackKeepsInv(s, e, now, ref);
    case Snapshot(now, items) => SnapshotKeepsInv(s, now, items);
    case RetryWrite(ok) => RetryWriteKeepsInv(s, ok);
    case RetrySkip => SkipKeepsInv(s);
    case Settle => SettleKeepsInv(s);
    case _ => SendingKeepsInv(s, ev);
  }

  lemma {:induction false} RunKeepsInv(s: Sender, run: seq<Event>)
    requires Inv(s) && Legal(Step, s, run)
    ensures Inv(Run(Step, s, run))
    decreases |run|
  {
    if run != [] {
      StepKeepsInv(s, run[0]);
      RunKeepsInv(Step(s, run[0]), run[1..]);
    }
  }

  /** Only messages that were tracked are counted. */
  lemma StepKeepsKeys(s: Sender, ev: Event)
    requires Inv(s) && Enabled(s, ev) && s.log.writes.Keys <= s.log.rounds.Keys
    ensures Step(s, ev).log.writes.Keys <= Step(s, ev).log.rounds.Keys
  {
    if ev.RetryWrite? {
      assert ItemOk(s, 0);
    }
  }

  /** The sender after `n` rounds for its only message, one timeout apart. */
  ghost predicate AfterRounds(s: Sender, e: Envelope, n: nat) {
    && s.todo == [] && s.inFlight.None? && s.phase.Idle?
    && s.pending.Keys == {e.id}
    && s.pending[e.id] == Pending(e, n * PENDING_TIMEOUT, n, 0)
    && Count(s.log.writes, e.id) == n
  }

  lemma OneRound(s: Sender, e: Envelope, n: nat) returns (round: seq<Event>)
    requires AfterRounds(s, e, n) && 1 <= n <= MAX_PENDING_RETRIES
    ensures Legal(Step, s, round)
    ensures n < MAX_PENDING_RETRIES ==> AfterRounds(Run(Step, s, round), e, n + 1)
    ensures n == MAX_PENDING_RETRIES ==>
      var t := Run(Step, s, round);
      Count(t.log.writes, e.id) == MAX_TRANSMISSIONS && e.id !in t.pending && e.sequence in t.log.failed
  {
    var items := [Item(e, 0)];
    var snapshot := Snapshot((n + 1) * PENDING_TIMEOUT, items);
    round := [snapshot, RetryWrite(true), Settle];
    assert Item(s.pending[e.id].envelope, s.pending[e.id].ref) == items[0];
    assert IsSnapshot(s.pending, (n + 1) * PENDING_TIMEOUT, items);
    var s1 := Step(s, snapshot);
    var s2 := Step(s1, RetryWrite(true));
    var s3 := Step(s2, Settle);
    assert round[1..] == [RetryWrite(true), Settle] && round[1..][1..] == [Settle];
    assert Legal(Step, s2, [Settle]) && Run(Step, s2, [Settle]) == s3;
    assert Legal(Step, s1, round[1..]) && Run(Step, s1, round[1..]) == s3;
  }

  lemma {:induction false} RoundsUntilFailure(s: Sender, e: Envelope, n: nat) returns (run: seq<Event>)
    requires AfterRounds(s, e, n) && 1 <= n <= MAX_PENDING_RETRIES
    ensures Legal(Step, s, run)
    ensures var t := Run(Step, s, run);
      Count(t.log.writes, e.id) == MAX_TRANSMISSIONS && e.id !in t.pending && e.sequence in t.log.failed
    decreases MAX_PENDING_RETRIES - n
  {
    var round := OneRound(s, e, n);
    run := round;
    if n < MAX_PENDING_RETRIES {
      var rest := RoundsUntilFailure(Run(Step, s, round), e, n + 1);
      Concat(Step, s, round, rest);
      run := round + rest;
    }
  }

  /** The bound of six is reached: a message that is never acknowledged is written six times before its
      failure is reported, one more than the five attempts that the protocol notes mention. */
  lemma SixTransmissionsHappen(e: Envelope) returns (run: seq<Event>)
    requires e.typ == TYPE_CHAT && e.sequence == 1 && e.body.chatText.Some?
    ensures Legal(Step, FRESH, run)
    ensures var t := Run(Step, FRESH, run);
      Count(t.log.writes, e.id) == MAX_TRANSMISSIONS && e.id !in t.pending && 1 in t.log.failed
  {
    var number, track := Number(e.body.chatText.value), Track(e, PENDING_TIMEOUT, 0);
    var first := [number, track, Write(true)];
    var s1 := Step(FRESH, number);
    var s2 := Step(s1, track);
    var s3 := Step(s2, Write(true));
    assert first[1..] == [track, Write(true)] && first[1..][1..] == [Write(true)];
    assert Legal(Step, s2, [Write(true)]) && Run(Step, s2, [Write(true)]) == s3;
    assert Legal(Step, s1, first[1..]) && Run(Step, s1, first[1..]) == s3;
    var rest := RoundsUntilFailure(s3, e, 1);
    Concat(Step, FRESH, first, rest);
    run := first + rest;
  }

  ghost function Pick(pending: map<string, Pending>): (id: string)
    requires pending != map[]
    ensures id in pending
  {
    var id :| id in pending;
    id
  }

  function Left(p: Pending): int {
    MAX_TRANSMISSIONS - p.attempts
  }

  lemma Smaller(pending: map<string, Pending>, id: string)
    requires id in pending
    ensures |pending - {id}| < |pending|
  {
    assert pending.Keys == (pending - {id}).Keys + {id};
  }

  /** How many more transmissions the pending messages may still get. */
  ghost function Debt(pending: map<string, Pending>): int
    decreases |pending|
  {
    if pending == map[] then
      0
    else
      var id := Pick(pending);
      Smaller(pending, id);
      Left(pending[id]) + Debt(pending - {id})
  }

  lemma {:induction false} DebtWithout(pending: map<string, Pending>, id: string)
    requires id in pending
    ensures Debt(pending) == Left(pending[id]) + Debt(pending - {id})
    decreases |pending|
  {
    var x := Pick(pending);
    if x != id {
      Smaller(pending, x);
      Smaller(pending, id);
      DebtWithout(pending - {x}, id);
      DebtWithout(pending - {id}, x);
      assert pending - {x} - {id} == pending - {id} - {x};
    }
  }

  lemma {:induction false} DebtAfterRemoval(pending: map<string, Pending>, id: string)
    ensures Debt(pending - {id}) == Debt(pending) - (if id in pending then Left(pending[id]) else 0)
  {
    if id in pending {
      DebtWithout(pending, id);
    } else {
      assert pending - {id} == pending;
    }
  }

  lemma {:induction false} DebtAfterUpdate(pending: map<string, Pending>, id: string, p: Pending)
    requires id in pending
    ensures Debt(pending[id := p]) == Debt(pending) - p.attempts + pending[id].attempts
  {
    DebtWithout(pending, id);
    DebtWithout(pending[id := p], id);
    assert pending[id := p] - {id} == pending - {id};
  }

  lemma {:induction false} RemovalLowersDebt(s: Sender, id: string)
    requires Inv(s)
    ensures Debt(s.pending - {id}) <= Debt(s.pending)
    ensures s.pending - {id} != s.pending ==> Debt(s.pending - {id}) < Debt(s.pending)
  {
    DebtAfterRemoval(s.pending, id);
    if id in s.pending {
      assert PendingOk(s, id);
    } else {
      assert s.pending - {id} == s.pending;
    }
  }

  lemma {:induction false} SettleLowersDebt(s: Sender)
    requires Inv(s) && Enabled(s, Settle)
    ensures Debt(SettleHead(s).pending) <= Debt(s.pending)
    ensures SettleHead(s).pending != s.pending ==> Debt(SettleHead(s).pending) < Debt(s.pending)
  {
    RetryLowersDebt(s, s.todo[0], s.inFlight.value);
  }

  lemma {:induction false} RetryLowersDebt(s: Sender, item: Item, ok: bool)
    requires Inv(s)
    ensures
      var after := AfterRetry(s.pending, item, ok, s.passTime);
      Debt(after) <= Debt(s.pending) && (after != s.pending ==> Debt(after) < Debt(s.pending))
  {
    var id := item.envelope.id;
    if GivesUp(s.pending, item, ok) {
      RemovalLowersDebt(s, id);
    } else if Current(s.pending, item) {
      DebtAfterUpdate(s.pending, id, AfterRetry(s.pending, item, ok, s.passTime)[id]);
    }
  }

  /** No event other than tracking a new message raises the debt; removing or retrying a message lowers it. */
  lemma StepLowersDebt(s: Sender, ev: Event)
    requires Inv(s) && Enabled(s, ev) && !ev.Track?
    ensures Debt(Step(s, ev).pending) <= Debt(s.pending)
    ensures Step(s, ev).pending != s.pending ==> Debt(Step(s, ev).pending) < Debt(s.pending)
  {
    match ev
    case Unwind => RemovalLowersDebt(s, s.phase.envelope.id);
    case Acknowledge(id) => RemovalLowersDebt(s, id);
    case Settle => SettleLowersDebt(s);
    case _ =>
  }

  /** A pass that still has `id` ahead of it, or in flight, and has not touched it. */
  predicate StillToDo(s: Sender, id: string) {
    exists i | 0 <= i < |s.todo| :: s.todo[i].envelope.id == id
  }

  lemma {:induction false} PassLowersDebtFrom(s: Sender, run: seq<Event>, id: string, debt: int)
    requires Inv(s) && Legal(Step, s, run)
    requires forall i | 0 <= i < |run| :: !run[i].Track? && !run[i].RetrySkip?
    requires Debt(s.pending) < debt || (Debt(s.pending) == debt && id in s.pending && StillToDo(s, id))
    requires Run(Step, s, run).todo == []
    ensures Debt(Run(Step, s, run).pending) < debt
    decreases |run|
  {
    if run != [] {
      var ev, t := run[0], Step(s, run[0]);
      StepKeepsInv(s, ev);
      StepLowersDebt(s, ev);
      if Debt(t.pending) == debt {
        assert t.pending == s.pending;
        StillToDoSurvives(s, ev, id);
      }
      PassLowersDebtFrom(t, run[1..], id, debt);
    }
  }

  lemma SettleSparesOthers(s: Sender, i: nat)
    requires Inv(s) && Enabled(s, Settle) && i < |s.todo|
    requires s.todo[i].envelope.id in s.pending && SettleHead(s).pending == s.pending
    ensures i > 0 && StillToDo(SettleHead(s), s.todo[i].envelope.id)
  {
    assert ItemOk(s, 0);
    assert i != 0;
    assert SettleHead(s).todo[i - 1] == s.todo[i];
  }

  lemma StillToDoSurvives(s: Sender, ev: Event, id: string)
    requires Inv(s) && Enabled(s, ev) && !ev.RetrySkip? && !ev.Track?
    requires Step(s, ev).pending == s.pending && id in s.pending && StillToDo(s, id)
    ensures StillToDo(Step(s, ev), id)
  {
    var i :| 0 <= i < |s.todo| && s.todo[i].envelope.id == id;
    if ev.Settle? {
      SettleSparesOthers(s, i);
    } else {
      assert Step(s, ev).todo == s.todo;
    }
  }

  /** Progress of the retransmitter. While no new message is tracked and the peer stays connected, every pass that
      finds a due message leaves strictly less to do, whatever else happens while it runs. */
  lemma PassLowersDebt(s: Sender, now: int, items: seq<Item>, run: seq<Event>)
    requires Inv(s) && Enabled(s, Snapshot(now, items)) && items != []
    requires Legal(Step, Step(s, Snapshot(now, items)), run)
    requires forall i | 0 <= i < |run| :: !run[i].Track? && !run[i].RetrySkip?
    requires Run(Step, Step(s, Snapshot(now, items)), run).todo == []
    ensures 0 <= Debt(Run(Step, Step(s, Snapshot(now, items)), run).pending) < Debt(s.pending)
  {
    var t := Step(s, Snapshot(now, items));
    StepKeepsInv(s, Snapshot(now, items));
    assert t.todo[0].envelope.id == items[0].envelope.id;
    PassLowersDebtFrom(t, run, items[0].envelope.id, Debt(s.pending));
    RunKeepsInv(t, run);
    DebtNotNegative(Run(Step, t, run).pending);
  }

  lemma {:induction false} DebtNotNegative(pending: map<string, Pending>)
    requires forall id | id in pending :: pending[id].attempts <= MAX_PENDING_RETRIES
    ensures Debt(pending) >= 0
    decreases |pending|
  {
    if pending != map[] {
      var id := Pick(pending);
      Smaller(pending, id);
      DebtNotNegative(pending - {id});
    }
  }
}
