/** The receiving session against anything that may arrive: forged, damaged, replayed or genuine packets, in any
    order. */
module Forgeries {
  import opened Prelude
  import opened Integers
  import opened Splitting
  import opened Sessions
  import opened Channel
  import Base64
  import Words
  import W = ReplayWindow

  /** The text around the only dot of a packet. */
  predicate InTwo(packet: string, a: string, b: string) {
    packet == a + "." + b && '.' !in a && '.' !in b
  }

  /** The packet is authentic for this session, with this counter and this plaintext. */
  ghost predicate Carries(aead: Aead, t: State, packet: string, ctr: uint64, plain: bytes) {
    exists a, b | InTwo(packet, a, b) ::
      var nonce, ct := Base64.Decode(a), Base64.Decode(b);
      && nonce.Some? && |nonce.value| == 12 && nonce.value[0] == t.recvDir
      && nonce.value[4..] == LittleEndian(ctr, 8)
      && ct.Some? && aead.open(t.recvKey, nonce.value, ct.value) == Some(plain)
  }

  lemma TwoParts(packet: string, a: string, b: string)
    ensures InTwo(packet, a, b) <==> SplitOn(packet, '.') == [a, b]
  {
    if InTwo(packet, a, b) {
      SplitInTwo(a, '.', b);
    }
    if SplitOn(packet, '.') == [a, b] {
      JoinUndoesSplit(packet, '.');
      assert Join([a, b], '.') == a + ['.'] + b;
      assert [a, b][0] == a && [a, b][1] == b;
    }
  }

  lemma CounterIsUnique(ctr: uint64, ctr': uint64)
    ensures LittleEndian(ctr, 8) == LittleEndian(ctr', 8) <==> ctr == ctr'
  {
    Pow256Of4And8();
    LittleEndianRoundTrip(ctr, 8);
    LittleEndianRoundTrip(ctr', 8);
  }

  /** What the other end encrypts is authentic, with its next counter. */
  lemma EncryptedIsAuthentic(aead: Aead, s: State, t: State, plain: bytes)
    requires Correct(aead) && t.recvKey == s.sendKey && t.recvDir == s.sendDir
    ensures Encrypt(aead, s, plain).0 == s.(sendCtr := Successor(s.sendCtr))
    ensures Carries(aead, t, Encrypt(aead, s, plain).1, Successor(s.sendCtr), plain)
  {
    var nonce := NextNonce(s);
    var ct := aead.seal(s.sendKey, nonce, plain);
    EncodedIsSafe(nonce);
    EncodedIsSafe(ct);
    Base64.RoundTrip(nonce);
    Base64.RoundTrip(ct);
    assert InTwo(Encrypt(aead, s, plain).1, Base64.Encode(nonce), Base64.Encode(ct));
  }

  /** A packet is accepted exactly when it is authentic and the window accepts its counter. */
  lemma DecryptOfAuthentic(aead: Aead, t: State, packet: string, ctr: uint64, plain: bytes)
    requires Carries(aead, t, packet, ctr, plain)
    ensures
      Decrypt(aead, t, packet) ==
        if W.Accepts(t.window, ctr) then (t.(window := W.Update(t.window, ctr)), Ok(plain)) else (t, Err(Replay))
  {
    var a, b :| InTwo(packet, a, b) && Base64.Decode(a).Some? && |Base64.Decode(a).value| == 12
                && Base64.Decode(a).value[4..] == LittleEndian(ctr, 8) && Base64.Decode(a).value[0] == t.recvDir
                && Base64.Decode(b).Some?
                && aead.open(t.recvKey, Base64.Decode(a).value, Base64.Decode(b).value) == Some(plain);
    TwoParts(packet, a, b);
    DecryptExactly(aead, t, packet);
    CounterIsUnique(ctr, Counter(Base64.Decode(a).value));
  }

  lemma AcceptedIsAuthentic(aead: Aead, t: State, packet: string) returns (ctr: uint64)
    requires Decrypt(aead, t, packet).1.Ok?
    ensures Carries(aead, t, packet, ctr, Decrypt(aead, t, packet).1.value)
  {
    DecryptExactly(aead, t, packet);
    var parts := SplitOn(packet, '.');
    ctr := Counter(Base64.Decode(parts[0]).value);
    assert parts == [parts[0], parts[1]];
    TwoParts(packet, parts[0], parts[1]);
  }

  lemma CarriesOne(aead: Aead, t: State, packet: string, ctr: uint64, plain: bytes, ctr': uint64, plain': bytes)
    requires Carries(aead, t, packet, ctr, plain) && Carries(aead, t, packet, ctr', plain')
    ensures ctr == ctr' && plain == plain'
  {
    forall a, b | InTwo(packet, a, b) ensures SplitOn(packet, '.') == [a, b] {
      TwoParts(packet, a, b);
    }
    CounterIsUnique(ctr, ctr');
  }

  /** The packet at place `i` was accepted, with this counter. */
  ghost predicate AcceptedWith(aead: Aead, t: State, arrivals: seq<string>, i: nat, ctr: nat)
    requires i < |arrivals|
  {
    var r := Outcome(aead, t, arrivals, i);
    ctr < UINT64_LIMIT && r.Ok? && Carries(aead, t, arrivals[i], ctr, r.value)
  }

  /** One of the first `n` packets was accepted with this counter. */
  ghost predicate TakenBefore(aead: Aead, t: State, arrivals: seq<string>, n: nat, ctr: nat)
    requires n <= |arrivals|
  {
    exists i | 0 <= i < n :: AcceptedWith(aead, t, arrivals, i, ctr)
  }

  lemma PrefixOutcome(aead: Aead, t: State, arrivals: seq<string>, n: nat, i: nat, ctr: nat)
    requires i < n <= |arrivals|
    ensures AcceptedWith(aead, t, arrivals[..n], i, ctr) <==> AcceptedWith(aead, t, arrivals, i, ctr)
  {
    assert arrivals[..n][..i] == arrivals[..i];
  }

  lemma TakenInPrefix(aead: Aead, t: State, arrivals: seq<string>, n: nat, ctr: nat)
    requires n <= |arrivals|
    ensures TakenBefore(aead, t, arrivals[..n], n, ctr) <==> TakenBefore(aead, t, arrivals, n, ctr)
  {
    forall i | 0 <= i < n
      ensures AcceptedWith(aead, t, arrivals[..n], i, ctr) <==> AcceptedWith(aead, t, arrivals, i, ctr)
    {
      PrefixOutcome(aead, t, arrivals, n, i, ctr);
    }
  }

  /** The window stands for the counters of the packets accepted so far. */
  ghost predicate Follows(aead: Aead, t: State, arrivals: seq<string>, taken: set<nat>) {
    var after := After(aead, t, arrivals);
    && after == t.(window := after.window) && W.Represents(after.window, taken)
    && forall c :: c in taken <==> TakenBefore(aead, t, arrivals, |arrivals|, c)
  }

  /** The window after one more arrival, whatever it is. */
  lemma LastArrival(aead: Aead, t: State, arrivals: seq<string>, earlier: set<nat>) returns (taken: set<nat>)
    requires arrivals != [] && Follows(aead, t, arrivals[..|arrivals| - 1], earlier)
    ensures
      var after := After(aead, t, arrivals);
      after == t.(window := after.window) && W.Represents(after.window, taken)
    ensures forall c :: c in taken <==> c in earlier || AcceptedWith(aead, t, arrivals, |arrivals| - 1, c)
  {
    var n := |arrivals| - 1;
    var before, packet := After(aead, t, arrivals[..n]), arrivals[n];
    var r := Decrypt(aead, before, packet).1;
    AfterLast(aead, t, arrivals);
    if r.Ok? {
      var ctr := AcceptedIsAuthentic(aead, before, packet);
      DecryptOfAuthentic(aead, before, packet, ctr, r.value);
      W.UpdateKeepsRepresents(before.window, earlier, ctr);
      taken := earlier + {ctr};
      assert Carries(aead, t, packet, ctr, r.value);
      forall c | AcceptedWith(aead, t, arrivals, n, c) ensures c == ctr {
        CarriesOne(aead, t, packet, ctr, r.value, c, r.value);
      }
    } else {
      DecryptExactly(aead, before, packet);
      taken := earlier;
    }
  }

  lemma NothingTaken(aead: Aead, t: State)
    requires t.window == W.FRESH
    ensures Follows(aead, t, [], {})
  {
    forall i: nat ensures !Words.Bit(0, i) {
      Words.ZeroHasNoBits(i);
    }
  }

  lemma TakenWithLast(aead: Aead, t: State, arrivals: seq<string>, ctr: nat)
    requires arrivals != []
    ensures
      var n := |arrivals| - 1;
      TakenBefore(aead, t, arrivals, |arrivals|, ctr) <==>
        TakenBefore(aead, t, arrivals[..n], n, ctr) || AcceptedWith(aead, t, arrivals, n, ctr)
  {
    TakenInPrefix(aead, t, arrivals, |arrivals| - 1, ctr);
  }

  lemma {:induction false} WindowFollows(aead: Aead, t: State, arrivals: seq<string>) returns (taken: set<nat>)
    requires t.window == W.FRESH
    ensures Follows(aead, t, arrivals, taken)
    decreases |arrivals|
  {
    if arrivals == [] {
      NothingTaken(aead, t);
      taken := {};
    } else {
      var n := |arrivals| - 1;
      var earlier := WindowFollows(aead, t, arrivals[..n]);
      taken := LastArrival(aead, t, arrivals, earlier);
      forall c: nat ensures c in taken <==> TakenBefore(aead, t, arrivals, |arrivals|, c) {
        TakenWithLast(aead, t, arrivals, c);
      }
    }
  }

  /** Whether the session, as it stands, accepts the packet. */
  lemma AcceptsNow(aead: Aead, t: State, s: State, taken: set<nat>, packet: string, plain: bytes)
    requires s == t.(window := s.window) && W.Represents(s.window, taken)
    ensures
      Decrypt(aead, s, packet).1 == Ok(plain) <==>
        exists ctr: uint64 ::
          Carries(aead, t, packet, ctr, plain) && ctr !in taken && ctr + W.REPLAY_WINDOW_BITS > s.window.recvMax
  {
    if Decrypt(aead, s, packet).1 == Ok(plain) {
      var ctr := AcceptedIsAuthentic(aead, s, packet);
      DecryptOfAuthentic(aead, s, packet, ctr, plain);
      W.AcceptsExactlyTheNew(s.window, taken, ctr);
      assert Carries(aead, t, packet, ctr, plain);
    }
    if ctr: uint64 :| Carries(aead, t, packet, ctr, plain) && ctr !in taken
                      && ctr + W.REPLAY_WINDOW_BITS > s.window.recvMax {
      assert Carries(aead, s, packet, ctr, plain);
      DecryptOfAuthentic(aead, s, packet, ctr, plain);
      W.AcceptsExactlyTheNew(s.window, taken, ctr);
    }
  }

  /** No packet accepted before place `j` had this counter, or one 64 or more above it. */
  ghost predicate IsNew(aead: Aead, t: State, arrivals: seq<string>, j: nat, ctr: nat)
    requires j <= |arrivals|
  {
    forall c: nat | TakenBefore(aead, t, arrivals, j, c) :: c != ctr && c < ctr + W.REPLAY_WINDOW_BITS
  }

  lemma NewExactly(aead: Aead, t: State, arrivals: seq<string>, j: nat, w: W.Window, taken: set<nat>, ctr: nat)
    requires j <= |arrivals| && W.Represents(w, taken)
    requires forall c: nat :: c in taken <==> TakenBefore(aead, t, arrivals, j, c)
    ensures IsNew(aead, t, arrivals, j, ctr) <==> ctr !in taken && ctr + W.REPLAY_WINDOW_BITS > w.recvMax
  {
  }

  /** The receiving session over whole runs, against arbitrary arrivals. A new session gives out a plaintext for the
      packet at place `j` if and only if the packet is authentic with that plaintext, no packet accepted before it had
      its counter, and none had a counter 64 or more above it. So no forged or damaged packet is ever accepted, and
      none keeps a later authentic one from being accepted. */
  lemma AcceptsExactlyAuthentic(aead: Aead, t: State, arrivals: seq<string>, j: nat, plain: bytes)
    requires t.window == W.FRESH && j < |arrivals|
    ensures
      Outcome(aead, t, arrivals, j) == Ok(plain) <==>
        exists ctr: uint64 :: Carries(aead, t, arrivals[j], ctr, plain) && IsNew(aead, t, arrivals, j, ctr)
  {
    var taken := WindowFollows(aead, t, arrivals[..j]);
    var s := After(aead, t, arrivals[..j]);
    AcceptsNow(aead, t, s, taken, arrivals[j], plain);
    forall c: nat ensures c in taken <==> TakenBefore(aead, t, arrivals, j, c) {
      TakenInPrefix(aead, t, arrivals, j, c);
    }
    forall ctr: uint64
      ensures IsNew(aead, t, arrivals, j, ctr) <==> ctr !in taken && ctr + W.REPLAY_WINDOW_BITS > s.window.recvMax
    {
      NewExactly(aead, t, arrivals, j, s.window, taken, ctr);
    }
  }
}
