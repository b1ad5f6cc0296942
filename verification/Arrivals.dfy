/** Whole runs of arrivals at one receiver: when nothing is lost, whatever the order; and what
    happens when one sequence number never arrives. */
module Arrivals {
  import opened Prelude
  import opened Envelopes
  import opened Receiving

  /** Message number `k` is a chat with this text. */
  predicate Says(messages: map<nat, Envelope>, k: nat, text: string) {
    k in messages && Deliverable(messages[k]) && Text(messages[k]) == text
  }

  /** Everything the receiver has taken comes, unchanged, from `messages`. */
  ghost predicate Faithful(r: Receiver, messages: map<nat, Envelope>) {
    && (forall i | 0 <= i < |r.delivered| :: Says(messages, i + 1, r.delivered[i]))
    && (forall k | k in r.buffer :: k in messages && r.buffer[k] == messages[k])
  }

  lemma ReceiveKeepsFaithful(r: Receiver, e: Envelope, messages: map<nat, Envelope>)
    requires Settled(r) && Faithful(r, messages)
    requires e.sequence in messages && messages[e.sequence] == e
    ensures Faithful(Receive(r, e), messages)
  {
  }

  lemma DrainOneKeepsFaithful(r: Receiver, messages: map<nat, Envelope>)
    requires Valid(r) && r.draining && Faithful(r, messages)
    ensures Faithful(DrainOne(r), messages)
  {
    DrainOneKeepsValid(r);
  }

  lemma {:induction false} DrainKeepsFaithful(r: Receiver, messages: map<nat, Envelope>)
    requires Valid(r) && r.draining && Faithful(r, messages)
    ensures Faithful(Drain(r), messages)
    decreases |r.buffer|
  {
    DrainOneKeepsValid(r);
    DrainOneKeepsFaithful(r, messages);
    var next := Successor(r.recvSeq);
    if next in r.buffer {
      assert r.buffer.Keys == (r.buffer - {next}).Keys + {next};
      DrainKeepsFaithful(DrainOne(r), messages);
    }
  }

  lemma {:induction false} HandleAllKeepsFaithful(arrivals: seq<Envelope>, messages: map<nat, Envelope>)
    requires forall i | 0 <= i < |arrivals| ::
               arrivals[i].sequence in messages && messages[arrivals[i].sequence] == arrivals[i]
    ensures Faithful(HandleAll(FRESH, arrivals), messages)
  {
    if arrivals != [] {
      var earlier, last := arrivals[..|arrivals| - 1], arrivals[|arrivals| - 1];
      HandleAllKeepsFaithful(earlier, messages);
      HandleAllFrom(FRESH, earlier, {});
      var r := HandleAll(FRESH, earlier);
      ReceiveKeepsValid(r, last);
      ReceiveKeepsFaithful(r, last, messages);
      if Receive(r, last).draining {
        DrainKeepsFaithful(Receive(r, last), messages);
      }
    }
  }

  /** Every chat that arrives is at most 65 ahead of what has been delivered by then. */
  predicate WithinWindow(arrivals: seq<Envelope>) {
    arrivals == [] ||
    var earlier, last := arrivals[..|arrivals| - 1], arrivals[|arrivals| - 1];
    && WithinWindow(earlier)
    && (Deliverable(last) ==> last.sequence <= HandleAll(FRESH, earlier).recvSeq + MAX_RECEIVE_BUFFER + 1)
  }

  /** The buffer reaches no further than 65 ahead. */
  ghost predicate Near(r: Receiver) {
    forall k | k in r.buffer :: k <= r.recvSeq + MAX_RECEIVE_BUFFER + 1
  }

  lemma {:induction false} Pigeonhole(s: set<nat>, low: nat, size: nat)
    requires forall k | k in s :: low <= k < low + size
    ensures |s| <= size
  {
    if size == 0 {
      assert s == {};
    } else {
      Pigeonhole(s - {low + size - 1}, low, size - 1);
    }
  }

  /** A chat inside the window that is not yet buffered always finds a free slot. */
  lemma FreshFits(r: Receiver, e: Envelope)
    requires Settled(r) && Near(r) && Deliverable(e)
    requires r.recvSeq < e.sequence <= r.recvSeq + MAX_RECEIVE_BUFFER + 1
    ensures Accepts(r, e) || e.sequence in r.buffer
  {
    if e.sequence !in r.buffer && e.sequence > Successor(r.recvSeq) {
      SettledGap(r);
      Pigeonhole(r.buffer.Keys + {e.sequence}, r.recvSeq + 2, MAX_RECEIVE_BUFFER);
    }
  }

  lemma {:induction false} DrainStaysNear(r: Receiver)
    requires Valid(r) && r.draining && Near(r)
    ensures Near(Drain(r)) && Drain(r).recvSeq >= r.recvSeq
    decreases |r.buffer|
  {
    DrainOneKeepsValid(r);
    var next := Successor(r.recvSeq);
    if next in r.buffer {
      assert r.buffer.Keys == (r.buffer - {next}).Keys + {next};
      DrainStaysNear(DrainOne(r));
    }
  }

  lemma HandleStaysNear(r: Receiver, e: Envelope)
    requires Settled(r) && Near(r)
    requires Deliverable(e) ==> e.sequence <= r.recvSeq + MAX_RECEIVE_BUFFER + 1
    ensures Near(Handle(r, e))
  {
    ReceiveKeepsValid(r, e);
    if Receive(r, e).draining {
      DrainStaysNear(Receive(r, e));
    }
  }

  /** No fresh chat is ever dropped: what has arrived inside the window is what the receiver holds. */
  lemma {:induction false} NothingDroppedWithinWindow(arrivals: seq<Envelope>)
    requires WithinWindow(arrivals)
    ensures
      var r := HandleAll(FRESH, arrivals);
      && Settled(r) && Near(r)
      && forall i | 0 <= i < |arrivals| && Deliverable(arrivals[i]) && arrivals[i].sequence >= 1 ::
           Holds(r, arrivals[i].sequence)
  {
    if arrivals != [] {
      var earlier, last := arrivals[..|arrivals| - 1], arrivals[|arrivals| - 1];
      NothingDroppedWithinWindow(earlier);
      var r := HandleAll(FRESH, earlier);
      HandleKeepsSettled(r, last);
      HandleStaysNear(r, last);
      forall i | 0 <= i < |arrivals| && Deliverable(arrivals[i]) && arrivals[i].sequence >= 1
        ensures Holds(Handle(r, last), arrivals[i].sequence)
      {
        if i < |earlier| {
          assert arrivals[i] == earlier[i];
        } else if last.sequence > r.recvSeq {
          FreshFits(r, last);
        }
      }
    }
  }

  /** The texts of messages 1..n, in order. */
  function Texts(messages: map<nat, Envelope>, n: nat): (texts: seq<string>)
    requires forall k | 1 <= k <= n :: k in messages && Deliverable(messages[k])
    ensures |texts| == n && forall i | 0 <= i < n :: texts[i] == Text(messages[i + 1])
  {
    if n == 0 then [] else Texts(messages, n - 1) + [Text(messages[n])]
  }

  /** Arrival-order independence: duplicated and shuffled in any way that stays inside the window, messages
      1..n are all delivered, once each, in the order of their sequence numbers, and nothing is left over. */
  lemma ArrivalOrderDoesNotMatter(messages: map<nat, Envelope>, n: nat, arrivals: seq<Envelope>)
    requires forall k | 1 <= k <= n :: k in messages && Deliverable(messages[k]) && messages[k] in arrivals
    requires forall k | k in messages :: 1 <= k <= n && messages[k].sequence == k
    requires forall i | 0 <= i < |arrivals| ::
               arrivals[i].sequence in messages && messages[arrivals[i].sequence] == arrivals[i]
    requires WithinWindow(arrivals)
    ensures HandleAll(FRESH, arrivals).delivered == Texts(messages, n)
    ensures HandleAll(FRESH, arrivals).recvSeq == n && HandleAll(FRESH, arrivals).buffer == map[]
  {
    var r := HandleAll(FRESH, arrivals);
    NothingDroppedWithinWindow(arrivals);
    HandleAllKeepsFaithful(arrivals, messages);
    SettledGap(r);
    forall k | 1 <= k <= n ensures Holds(r, k) {
      var i :| 0 <= i < |arrivals| && arrivals[i] == messages[k];
    }
    assert r.recvSeq > 0 ==> Says(messages, r.recvSeq, r.delivered[r.recvSeq - 1]);
    assert r.delivered == Texts(messages, n) by {
      assert forall j | 0 <= j < n :: Says(messages, j + 1, r.delivered[j]);
    }
    assert forall k | k in r.buffer :: k in messages;
    assert r.buffer.Keys == {};
  }

  /** Stall: as long as sequence `gap` does not arrive as a chat with text, delivery stays below it, and no
      more than 64 numbers beyond it are ever accepted, however long the run. */
  lemma MissingSequenceStalls(r: Receiver, before: set<nat>, gap: nat, arrivals: seq<Envelope>)
    requires Settled(r) && forall k :: k in before <==> Holds(r, k)
    requires gap >= 1 && gap !in before
    requires forall i | 0 <= i < |arrivals| :: !(Deliverable(arrivals[i]) && arrivals[i].sequence == gap)
    ensures HandleAll(r, arrivals).recvSeq < gap
    ensures |set k | k in AcceptedBy(r, arrivals, before) && k > gap| <= MAX_RECEIVE_BUFFER
  {
    var final := HandleAll(r, arrivals);
    HandleAllFrom(r, arrivals, before);
    NeverAccepted(r, before, gap, arrivals);
    assert !Holds(final, gap);
    var beyond := set k | k in AcceptedBy(r, arrivals, before) && k > gap;
    assert beyond <= final.buffer.Keys;
    CardinalityOfSubset(beyond, final.buffer.Keys);
  }

  lemma {:induction false} NeverAccepted(r: Receiver, before: set<nat>, gap: nat, arrivals: seq<Envelope>)
    requires gap !in before
    requires forall i | 0 <= i < |arrivals| :: !(Deliverable(arrivals[i]) && arrivals[i].sequence == gap)
    ensures gap !in AcceptedBy(r, arrivals, before)
  {
    if arrivals != [] {
      NeverAccepted(r, before, gap, arrivals[..|arrivals| - 1]);
    }
  }

  lemma {:induction false} CardinalityOfSubset<T>(small: set<T>, large: set<T>)
    requires small <= large
    ensures |small| <= |large|
  {
    if small != {} {
      var x :| x in small;
      CardinalityOfSubset(small - {x}, large - {x});
    }
  }
}
