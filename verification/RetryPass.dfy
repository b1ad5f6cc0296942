/** One retransmission pass as a whole: what it does to each pending message, and which events it is made of. */
module Passes {
  import opened Prelude
  import S = Sending
  import P = PeerMachine
  import opened Managing

  /** What one turn of the loop does: write and settle for a connected peer, skip otherwise. */
  function TurnEvents(job: Job, connected: set<PeerId>, writeOk: (PeerId, string) -> bool): seq<Event> {
    if job.peer in connected then
      var ok := writeOk(job.peer, job.item.envelope.id);
      [For(job.peer, P.AtSender(S.RetryWrite(ok)))] + [For(job.peer, P.AtSender(S.Settle))]
    else
      [For(job.peer, P.AtSender(S.RetrySkip))]
  }

  function LoopEvents(due: seq<Job>, connected: set<PeerId>, writeOk: (PeerId, string) -> bool): seq<Event> {
    if due == [] then []
    else
      var n := |due| - 1;
      LoopEvents(due[..n], connected, writeOk) + TurnEvents(due[n], connected, writeOk)
  }

  // The loop's run, before, between and after its turns.

  lemma LoopBegins(first: seq<Event>, due: seq<Job>, connected: set<PeerId>, writeOk: (PeerId, string) -> bool)
    ensures first + LoopEvents(due[..0], connected, writeOk) == first && due[0..] == due
  {
  }

  lemma LoopGoesOn(first: seq<Event>, due: seq<Job>, k: nat, connected: set<PeerId>,
                   writeOk: (PeerId, string) -> bool)
    requires k < |due|
    ensures first + LoopEvents(due[..k + 1], connected, writeOk) ==
            first + LoopEvents(due[..k], connected, writeOk) + TurnEvents(due[k], connected, writeOk)
    ensures due[k..][1..] == due[k + 1..]
  {
    assert due[..k + 1][..k] == due[..k];
  }

  lemma LoopEnds(due: seq<Job>, k: nat)
    requires k == |due|
    ensures due[..k] == due && due[k..] == []
  {
  }

  /** What happens to one message. A message that was retried is gone if the write failed or if it had been tried five
      times before, and otherwise has one more attempt and a new time; any other is as it was. */
  ghost predicate Outcome(was: map<string, S.Pending>, after: map<string, S.Pending>, id: string, now: int,
                          retried: bool, ok: bool)
  {
    if id in was && retried then
      if !ok || was[id].attempts >= 5 then id !in after
      else id in after && after[id] == was[id].(attempts := was[id].attempts + 1, lastSent := now)
    else
      (id in after <==> id in was) && (id in was ==> after[id] == was[id])
  }

  type Box = map<PeerId, map<string, S.Pending>>

  /** The outcome of a whole pass: exactly the messages that are due, two seconds after their last transmission, and
      whose peer is connected were retried. */
  ghost predicate PassOutcome(before: Box, after: Box, now: int, connected: set<PeerId>,
                              writeOk: (PeerId, string) -> bool)
  {
    forall p, id ::
      var was := Messages(before, p);
      Outcome(was, Messages(after, p), id, now,
              id in was && now - was[id].lastSent >= 2000 && p in connected, writeOk(p, id))
  }

  /** The snapshot lists a message of this peer with this id at place `k`. */
  predicate Names(due: seq<Job>, k: nat, p: PeerId, id: string)
    requires k < |due|
  {
    due[k].peer == p && due[k].item.envelope.id == id
  }

  /** The job at place `k` is a due message as it stands. */
  predicate IsDueAt(before: Box, now: int, due: seq<Job>, k: nat)
    requires k < |due|
  {
    var was, item := Messages(before, due[k].peer), due[k].item;
    && item.envelope.id in was && now - was[item.envelope.id].lastSent >= 2000
    && was[item.envelope.id].ref == item.ref
  }

  ghost predicate ListsOnce(due: seq<Job>) {
    forall k, l | 0 <= k < l < |due| :: !Names(due, k, due[l].peer, due[l].item.envelope.id)
  }

  ghost predicate Ahead(due: seq<Job>, k: nat, p: PeerId, id: string)
    requires k <= |due|
  {
    exists l | k <= l < |due| :: Names(due, l, p, id)
  }

  ghost predicate ListsAll(before: Box, now: int, due: seq<Job>) {
    forall p, id | id in Messages(before, p) && now - Messages(before, p)[id].lastSent >= 2000 :: Ahead(due, 0, p, id)
  }

  /** The snapshot, place by place: due messages as they stand, each once, and all of them. */
  ghost predicate Lists(before: Box, now: int, due: seq<Job>) {
    (forall k | 0 <= k < |due| :: IsDueAt(before, now, due, k)) && ListsOnce(due) && ListsAll(before, now, due)
  }

  lemma {:induction false} JobListed(due: seq<Job>, k: nat) returns (i: nat)
    requires k < |due|
    ensures i < |JobsOf(due, due[k].peer)| && JobsOf(due, due[k].peer)[i] == due[k].item
  {
    JobsOfTail(due, due[k].peer);
    if k == 0 {
      i := 0;
    } else {
      i := JobListed(due[1..], k - 1);
      if due[0].peer == due[k].peer {
        i := i + 1;
      }
    }
  }

  lemma {:induction false} JobFound(due: seq<Job>, p: PeerId, i: nat) returns (k: nat)
    requires i < |JobsOf(due, p)|
    ensures k < |due| && due[k] == Job(p, JobsOf(due, p)[i])
  {
    JobsOfTail(due, p);
    if due[0].peer == p && i == 0 {
      k := 0;
    } else {
      k := JobFound(due[1..], p, if due[0].peer == p then i - 1 else i);
      k := k + 1;
    }
  }

  lemma {:induction false} JobsDistinct(due: seq<Job>, k: nat, l: nat)
    requires k < l < |due| && due[k].peer == due[l].peer
    requires
      var items := JobsOf(due, due[k].peer);
      forall i, j | 0 <= i < j < |items| :: items[i].envelope.id != items[j].envelope.id
    ensures due[k].item.envelope.id != due[l].item.envelope.id
  {
    var p := due[k].peer;
    JobsOfTail(due, p);
    if k == 0 {
      var j := JobListed(due[1..], l - 1);
      assert JobsOf(due, p)[1..][j] == due[l].item;
    } else {
      var items, rest := JobsOf(due, p), JobsOf(due[1..], p);
      if due[0].peer == p {
        assert forall i | 0 <= i < |rest| :: rest[i] == items[i + 1];
      }
      JobsDistinct(due[1..], k - 1, l - 1);
    }
  }

  lemma DueAt(before: Box, now: int, due: seq<Job>, k: nat)
    requires k < |due| && S.IsSnapshot(Messages(before, due[k].peer), now, JobsOf(due, due[k].peer))
    ensures IsDueAt(before, now, due, k)
  {
    var i := JobListed(due, k);
  }

  lemma OnceAt(before: Box, now: int, due: seq<Job>, k: nat, l: nat)
    requires k < l < |due| && S.IsSnapshot(Messages(before, due[k].peer), now, JobsOf(due, due[k].peer))
    ensures !Names(due, k, due[l].peer, due[l].item.envelope.id)
  {
    if due[k].peer == due[l].peer {
      JobsDistinct(due, k, l);
    }
  }

  lemma AllAt(before: Box, now: int, due: seq<Job>, p: PeerId, id: string)
    requires S.IsSnapshot(Messages(before, p), now, JobsOf(due, p))
    requires id in Messages(before, p) && now - Messages(before, p)[id].lastSent >= 2000
    requires Messages(before, p)[id].envelope.id == id
    ensures Ahead(due, 0, p, id)
  {
    var item := S.Item(Messages(before, p)[id].envelope, Messages(before, p)[id].ref);
    var i :| 0 <= i < |JobsOf(due, p)| && JobsOf(due, p)[i] == item;
    var k := JobFound(due, p, i);
    assert Names(due, k, p, id);
  }

  lemma SnapshotLists(before: Box, now: int, due: seq<Job>)
    requires forall p :: S.IsSnapshot(Messages(before, p), now, JobsOf(due, p))
    requires forall p, id | id in Messages(before, p) :: Messages(before, p)[id].envelope.id == id
    ensures Lists(before, now, due)
  {
    forall k | 0 <= k < |due| ensures IsDueAt(before, now, due, k) {
      DueAt(before, now, due, k);
    }
    forall k, l | 0 <= k < l < |due| ensures !Names(due, k, due[l].peer, due[l].item.envelope.id) {
      OnceAt(before, now, due, k, l);
    }
    forall p, id | id in Messages(before, p) && now - Messages(before, p)[id].lastSent >= 2000
      ensures Ahead(due, 0, p, id)
    {
      AllAt(before, now, due, p, id);
    }
  }

  /** The outcome when the jobs from place `k` on are still ahead. */
  ghost predicate OutcomeSoFar(before: Box, after: Box, now: int, connected: set<PeerId>,
                               writeOk: (PeerId, string) -> bool, due: seq<Job>, k: nat)
    requires k <= |due|
  {
    forall p, id ::
      var was := Messages(before, p);
      Outcome(was, Messages(after, p), id, now,
              id in was && now - was[id].lastSent >= 2000 && p in connected && !Ahead(due, k, p, id), writeOk(p, id))
  }

  /** What settling does to one message of any peer. */
  lemma SettledMessage(pending: Box, job: Job, ok: bool, now: int, q: PeerId, id: string)
    requires
      var messages := Messages(pending, job.peer);
      job.item.envelope.id in messages && messages[job.item.envelope.id].ref == job.item.ref
    ensures
      Outcome(Messages(pending, q), Messages(AfterRetry(pending, job.peer, job.item, ok, now), q), id, now,
              q == job.peer && id == job.item.envelope.id, ok)
  {
    AfterRetryView(pending, job.peer, job.item, ok, now, q);
  }

  lemma AheadNext(due: seq<Job>, k: nat, p: PeerId, id: string)
    requires k < |due|
    ensures Ahead(due, k, p, id) <==> Names(due, k, p, id) || Ahead(due, k + 1, p, id)
  {
  }

  lemma TurnOutcome(before: Box, pending: Box, now: int, connected: set<PeerId>, writeOk: (PeerId, string) -> bool,
                    due: seq<Job>, k: nat)
    requires k < |due| && Lists(before, now, due)
    requires OutcomeSoFar(before, pending, now, connected, writeOk, due, k)
    ensures
      var job := due[k];
      var ok := writeOk(job.peer, job.item.envelope.id);
      var after := if job.peer in connected then AfterRetry(pending, job.peer, job.item, ok, now) else pending;
      OutcomeSoFar(before, after, now, connected, writeOk, due, k + 1)
  {
    var job := due[k];
    var ok := writeOk(job.peer, job.item.envelope.id);
    var after := if job.peer in connected then AfterRetry(pending, job.peer, job.item, ok, now) else pending;
    assert IsDueAt(before, now, due, k) && Names(due, k, job.peer, job.item.envelope.id);
    AheadNext(due, k, job.peer, job.item.envelope.id);
    forall p, id
      ensures
        var was := Messages(before, p);
        Outcome(was, Messages(after, p), id, now,
                id in was && now - was[id].lastSent >= 2000 && p in connected && !Ahead(due, k + 1, p, id),
                writeOk(p, id))
    {
      AheadNext(due, k, p, id);
      if job.peer in connected {
        SettledMessage(pending, job, ok, now, p, id);
      }
    }
  }

  lemma NothingAhead(before: Box, after: Box, now: int, connected: set<PeerId>, writeOk: (PeerId, string) -> bool,
                     due: seq<Job>)
    requires OutcomeSoFar(before, after, now, connected, writeOk, due, |due|)
    ensures PassOutcome(before, after, now, connected, writeOk)
  {
    forall p, id ensures !Ahead(due, |due|, p, id) {
    }
  }
}
