/** The receiving half of the chat protocol for one peer and one session: sequence numbers decide
    whether a chat is a duplicate, comes after a gap, or is the next one; chats that come after a gap
    wait in a bounded buffer, which is drained once the gap is filled. */
module Receiving {
  import opened Prelude
  import opened Envelopes

  const MAX_RECEIVE_BUFFER := 64

  /** `draining` is set between the delivery of the next expected chat and the end of the drain loop
      that follows it. `delivered` and `acked` record what left the receiver in this session: the texts
      shown to the user and the message ids acknowledged to the peer. */
  datatype Receiver = Receiver(
    recvSeq: uint64,
    buffer: map<nat, Envelope>,
    draining: bool,
    delivered: seq<string>,
    acked: seq<string>)

  const FRESH := Receiver(0, map[], false, [], [])

  /** The first critical section of `handleEnvelope` for a chat, together with the delivery and the
      acknowledgement that follow it. */
  function Receive(r: Receiver, e: Envelope): Receiver {
    if !Deliverable(e) then
      r
    else if e.sequence <= r.recvSeq then
      r.(acked := r.acked + [e.id])
    else if e.sequence > Successor(r.recvSeq) then
      if |r.buffer| >= MAX_RECEIVE_BUFFER then
        r
      else
        r.(buffer := r.buffer[e.sequence := e], acked := r.acked + [e.id])
    else
      r.(recvSeq := e.sequence, delivered := r.delivered + [Text(e)], acked := r.acked + [e.id], draining := true)
  }

  /** One turn of the drain loop. The turn that finds no entry ends the loop. */
  function DrainOne(r: Receiver): Receiver {
    var next := Successor(r.recvSeq);
    if next !in r.buffer then
      r.(draining := false)
    else
      var e := r.buffer[next];
      var taken := r.(buffer := r.buffer - {next}, recvSeq := next);
      if Deliverable(e) then
        taken.(delivered := r.delivered + [Text(e)], acked := r.acked + [e.id])
      else
        taken
  }

  function Drain(r: Receiver): Receiver
    decreases |r.buffer|
  {
    if Successor(r.recvSeq) in r.buffer then
      assert r.buffer.Keys == (r.buffer - {Successor(r.recvSeq)}).Keys + {Successor(r.recvSeq)};
      Drain(DrainOne(r))
    else
      DrainOne(r)
  }

  /** What one chat does to the receiver from its arrival to the end of the drain loop. */
  function Handle(r: Receiver, e: Envelope): Receiver {
    var received := Receive(r, e);
    if received.draining then Drain(received) else received
  }

  function HandleAll(r: Receiver, arrivals: seq<Envelope>): Receiver {
    if arrivals == [] then r
    else Handle(HandleAll(r, arrivals[..|arrivals| - 1]), arrivals[|arrivals| - 1])
  }

  /** A chat is accepted when it is delivered or put in the buffer, not when it is a duplicate
      and not when it is dropped. */
  predicate Accepts(r: Receiver, e: Envelope) {
    && Deliverable(e)
    && e.sequence > r.recvSeq
    && (e.sequence > Successor(r.recvSeq) ==> |r.buffer| < MAX_RECEIVE_BUFFER)
  }

  /** The sequence numbers accepted over a whole run of arrivals, on top of `before`. */
  function AcceptedBy(r: Receiver, arrivals: seq<Envelope>, before: set<nat>): set<nat> {
    if arrivals == [] then
      before
    else
      var earlier := arrivals[..|arrivals| - 1];
      var last := arrivals[|arrivals| - 1];
      AcceptedBy(r, earlier, before) +
      (if Accepts(HandleAll(r, earlier), last) then {last.sequence} else {})
  }

  /** What the receiver holds: everything up to `recvSeq`, and the buffer. */
  predicate Holds(r: Receiver, k: nat) {
    1 <= k <= r.recvSeq || k in r.buffer
  }

  /** The buffer's part of the invariant; it holds also in the middle of a drain. */
  ghost predicate BufferSound(r: Receiver) {
    && |r.buffer| <= MAX_RECEIVE_BUFFER
    && (forall k | k in r.buffer :: k > r.recvSeq && Deliverable(r.buffer[k]) && r.buffer[k].sequence == k)
  }

  ghost predicate Valid(r: Receiver) {
    && BufferSound(r)
    && |r.delivered| == r.recvSeq
    && (!r.draining ==> Successor(r.recvSeq) !in r.buffer)
  }

  /** Between two chats the loop is idle. */
  ghost predicate Settled(r: Receiver) {
    Valid(r) && !r.draining
  }

  lemma ReceiveKeepsValid(r: Receiver, e: Envelope)
    requires Settled(r)
    ensures Valid(Receive(r, e))
    ensures Receive(r, e).draining <==> Deliverable(e) && e.sequence == Successor(r.recvSeq) && e.sequence > r.recvSeq
    ensures r.acked <= Receive(r, e).acked && r.delivered <= Receive(r, e).delivered
  {
  }

  lemma ReceiveHolds(r: Receiver, e: Envelope, k: nat)
    requires Settled(r)
    ensures Holds(Receive(r, e), k) <==> Holds(r, k) || (Accepts(r, e) && k == e.sequence)
  {
  }

  /** Neither skip branch of the drain loop can be taken: whatever it takes out of the buffer is delivered. */
  lemma DrainOneKeepsValid(r: Receiver)
    requires Valid(r) && r.draining
    ensures Valid(DrainOne(r))
    ensures var next := Successor(r.recvSeq);
      if next in r.buffer then
        && Deliverable(r.buffer[next])
        && next == r.recvSeq + 1
        && DrainOne(r) == Receiver(next, r.buffer - {next}, true,
                                   r.delivered + [Text(r.buffer[next])], r.acked + [r.buffer[next].id])
      else
        DrainOne(r) == r.(draining := false)
    ensures forall k :: Holds(DrainOne(r), k) <==> Holds(r, k)
  {
  }

  lemma {:induction false} DrainKeepsValid(r: Receiver)
    requires Valid(r) && r.draining
    ensures Settled(Drain(r))
    ensures forall k :: Holds(Drain(r), k) <==> Holds(r, k)
    ensures r.delivered <= Drain(r).delivered && r.acked <= Drain(r).acked
    decreases |r.buffer|
  {
    DrainOneKeepsValid(r);
    var next := Successor(r.recvSeq);
    if next in r.buffer {
      assert r.buffer.Keys == (r.buffer - {next}).Keys + {next};
      DrainKeepsValid(DrainOne(r));
    }
  }

  /** The buffered chat with number `k` was delivered and acknowledged in its turn. */
  ghost predicate ReleasedAt(r: Receiver, t: Receiver, k: nat)
    requires r.recvSeq < k
  {
    var i := k - r.recvSeq - 1;
    && k in r.buffer && Deliverable(r.buffer[k])
    && |r.delivered| + i < |t.delivered| && t.delivered[|r.delivered| + i] == Text(r.buffer[k])
    && |r.acked| + i < |t.acked| && t.acked[|r.acked| + i] == r.buffer[k].id
  }

  /** What a drain releases: the buffered chats from the next number on, up to the first that is missing. The rest stays
      in the buffer. */
  ghost predicate Released(r: Receiver, t: Receiver) {
    && r.recvSeq <= t.recvSeq
    && |t.delivered| == |r.delivered| + t.recvSeq - r.recvSeq && r.delivered <= t.delivered
    && |t.acked| == |r.acked| + t.recvSeq - r.recvSeq && r.acked <= t.acked
    && (forall k | r.recvSeq < k <= t.recvSeq :: ReleasedAt(r, t, k))
    && t.recvSeq + 1 !in t.buffer
    && (forall k :: k in t.buffer <==> k in r.buffer && k > t.recvSeq)
    && (forall k | k in t.buffer :: t.buffer[k] == r.buffer[k])
  }

  lemma ReleasedNext(r: Receiver, t: Receiver)
    requires Valid(r) && r.draining && Successor(r.recvSeq) in r.buffer && Released(DrainOne(r), t)
    ensures Released(r, t)
  {
    DrainOneKeepsValid(r);
    var s := DrainOne(r);
    forall k | r.recvSeq < k <= t.recvSeq ensures ReleasedAt(r, t, k) {
      if k == s.recvSeq {
        assert t.delivered[|r.delivered|] == s.delivered[|r.delivered|] && t.acked[|r.acked|] == s.acked[|r.acked|];
      } else {
        assert ReleasedAt(s, t, k);
      }
    }
  }

  lemma ReleasedNothing(r: Receiver)
    requires Valid(r) && r.draining && Successor(r.recvSeq) !in r.buffer
    ensures Drain(r) == r.(draining := false) && Released(r, Drain(r))
  {
    assert r.recvSeq + 1 in r.buffer ==> r.buffer[r.recvSeq + 1].sequence == r.recvSeq + 1;
  }

  lemma DrainTurns(r: Receiver)
    requires Successor(r.recvSeq) in r.buffer
    ensures Drain(r) == Drain(DrainOne(r)) && |DrainOne(r).buffer| < |r.buffer|
  {
    assert r.buffer.Keys == (r.buffer - {Successor(r.recvSeq)}).Keys + {Successor(r.recvSeq)};
  }

  lemma {:induction false} DrainReleases(r: Receiver)
    requires Valid(r) && r.draining
    ensures Released(r, Drain(r))
    decreases |r.buffer|
  {
    if Successor(r.recvSeq) in r.buffer {
      var s := DrainOne(r);
      DrainOneKeepsValid(r);
      DrainTurns(r);
      DrainReleases(s);
      ReleasedNext(r, Drain(s));
    } else {
      ReleasedNothing(r);
    }
  }

  /** What one chat does, whatever it is: a duplicate is acknowledged again; a chat after a gap is kept and
      acknowledged, or dropped without a word if the buffer is full; the next one is shown and acknowledged, and after
      it, in order, everything in the buffer that it was holding up. A chat without text is ignored altogether. */
  lemma HandleExactly(r: Receiver, e: Envelope)
    requires Settled(r)
    ensures
      var t := Handle(r, e);
      if e.typ != "chat" || e.body.chatText.None? || TrimSpace(e.body.chatText.value) == "" then t == r
      else if e.sequence <= r.recvSeq then t == r.(acked := r.acked + [e.id])
      else if e.sequence > r.recvSeq + 1 then
        if |r.buffer| >= 64 then t == r else t == r.(buffer := r.buffer[e.sequence := e], acked := r.acked + [e.id])
      else
        var shown := Receiver(e.sequence, r.buffer, true, r.delivered + [e.body.chatText.value], r.acked + [e.id]);
        t == Drain(shown) && Released(shown, t)
  {
    if e.body.chatText.Some? {
      BlankTrimsToNothing(e.body.chatText.value);
    }
    if Receive(r, e).draining {
      ReceiveKeepsValid(r, e);
      DrainReleases(Receive(r, e));
    }
  }

  lemma HandleKeepsSettled(r: Receiver, e: Envelope)
    requires Settled(r)
    ensures Settled(Handle(r, e))
    ensures forall k :: Holds(Handle(r, e), k) <==> Holds(r, k) || (Accepts(r, e) && k == e.sequence)
    ensures r.delivered <= Handle(r, e).delivered && r.acked <= Handle(r, e).acked
  {
    ReceiveKeepsValid(r, e);
    if Receive(r, e).draining {
      DrainKeepsValid(Receive(r, e));
    }
    forall k ensures Holds(Handle(r, e), k) <==> Holds(r, k) || (Accepts(r, e) && k == e.sequence) {
      ReceiveHolds(r, e, k);
    }
  }

  lemma {:induction false} HandleAllFrom(r: Receiver, arrivals: seq<Envelope>, before: set<nat>)
    requires Settled(r) && forall k :: k in before <==> Holds(r, k)
    ensures Settled(HandleAll(r, arrivals))
    ensures forall k :: k in AcceptedBy(r, arrivals, before) <==> Holds(HandleAll(r, arrivals), k)
    ensures r.delivered <= HandleAll(r, arrivals).delivered
  {
    if arrivals != [] {
      var earlier := arrivals[..|arrivals| - 1];
      HandleAllFrom(r, earlier, before);
      HandleKeepsSettled(HandleAll(r, earlier), arrivals[|arrivals| - 1]);
    }
  }

  /** In a settled receiver everything buffered lies beyond the gap at `recvSeq + 1`. */
  lemma SettledGap(r: Receiver)
    requires Settled(r)
    ensures !Holds(r, r.recvSeq + 1)
    ensures forall k | k in r.buffer :: k >= r.recvSeq + 2
  {
    assert r.recvSeq + 1 in r.buffer ==> r.buffer[r.recvSeq + 1].sequence == r.recvSeq + 1;
  }

  /** Receiver refinement. However the chats arrive, the receiver's two fields stand for exactly the set of
      sequence numbers accepted so far: the next expected one is the least number never accepted, every
      buffered one lies beyond the gap, the buffer never exceeds its limit, and one text has been
      delivered for every number up to `recvSeq`. Nothing here breaks at the top of the 64-bit range. */
  lemma ReceiverRefinesAcceptedSet(arrivals: seq<Envelope>)
    ensures
      var r := HandleAll(FRESH, arrivals);
      var accepted := AcceptedBy(FRESH, arrivals, {});
      && Settled(r)
      && (forall k :: k in accepted <==> 1 <= k <= r.recvSeq || k in r.buffer)
      && r.recvSeq + 1 !in accepted
      && (forall k | k in r.buffer :: k >= r.recvSeq + 2)
      && |r.buffer| <= MAX_RECEIVE_BUFFER
      && |r.delivered| == r.recvSeq
  {
    HandleAllFrom(FRESH, arrivals, {});
    SettledGap(HandleAll(FRESH, arrivals));
  }
}
