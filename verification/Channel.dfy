/** Two sessions joined by a byte stream: what goes in comes out, and what the network does to packets shows
    up only through the replay window. */
module Channel {
  import opened Prelude
  import opened Integers
  import opened Sessions
  import opened Splitting
  import Base64
  import W = ReplayWindow

  lemma EncodedIsSafe(b: bytes)
    ensures forall i | 0 <= i < |Base64.Encode(b)| ::
              var c := Base64.Encode(b)[i]; c != '.' && c != '\n' && !IsSpace(c)
  {
    forall i | 0 <= i < |Base64.Encode(b)|
      ensures var c := Base64.Encode(b)[i]; c != '.' && c != '\n' && !IsSpace(c)
    {
      Base64.EncodeUsesAlphabet(b, i);
      Base64.AlphabetIsSafe(Base64.Encode(b)[i]);
    }
  }

  /** A packet is one line without white space at all. */
  lemma PacketIsSafe(aead: Aead, key: bytes, nonce: bytes, plain: bytes)
    ensures
      var packet := Packet(aead, key, nonce, plain);
      forall i | 0 <= i < |packet| :: packet[i] != '\n' && !IsSpace(packet[i])
  {
    EncodedIsSafe(nonce);
    EncodedIsSafe(aead.seal(key, nonce, plain));
  }

  lemma CounterOfNonce(direction: byte, ctr: uint64)
    ensures Counter(Nonce(direction, ctr)) == ctr
  {
    Pow256Of4And8();
    LittleEndianRoundTrip(ctr, 8);
    assert Nonce(direction, ctr)[4..] == LittleEndian(ctr, 8);
  }

  /** A packet that the peer made for this direction passes every check before the replay window. */
  lemma OpenGenuine(aead: Aead, t: State, ctr: uint64, plain: bytes)
    requires Correct(aead)
    ensures
      var nonce := Nonce(t.recvDir, ctr);
      Open(aead, t, Packet(aead, t.recvKey, nonce, plain)) == Ok((nonce, plain))
  {
    var nonce := Nonce(t.recvDir, ctr);
    var ct := aead.seal(t.recvKey, nonce, plain);
    EncodedIsSafe(nonce);
    EncodedIsSafe(ct);
    SplitInTwo(Base64.Encode(nonce), '.', Base64.Encode(ct));
    assert Packet(aead, t.recvKey, nonce, plain) == Base64.Encode(nonce) + ['.'] + Base64.Encode(ct);
    Base64.RoundTrip(nonce);
    Base64.RoundTrip(ct);
  }

  lemma DecryptGenuine(aead: Aead, t: State, ctr: uint64, plain: bytes)
    requires Correct(aead)
    ensures
      var packet := Packet(aead, t.recvKey, Nonce(t.recvDir, ctr), plain);
      Decrypt(aead, t, packet) ==
        if W.Accepts(t.window, ctr) then (t.(window := W.Update(t.window, ctr)), Ok(plain)) else (t, Err(Replay))
  {
    OpenGenuine(aead, t, ctr, plain);
    CounterOfNonce(t.recvDir, ctr);
  }

  // The stream.

  function EncryptAll(aead: Aead, s: State, plains: seq<bytes>): (packets: seq<string>)
    ensures |packets| == |plains|
    decreases |plains|
  {
    if plains == [] then []
    else
      var (next, packet) := Encrypt(aead, s, plains[0]);
      [packet] + EncryptAll(aead, next, plains[1..])
  }

  function Frames(packets: seq<string>): string {
    if packets == [] then "" else packets[0] + "\n" + Frames(packets[1..])
  }

  /** The position just after the first newline, if there is one. */
  function LineEnd(s: string): (n: nat)
    ensures n <= |s|
    ensures n > 0 ==> s[n - 1] == '\n'
  {
    if s == "" then 0
    else if s[0] == '\n' then 1
    else if LineEnd(s[1..]) == 0 then 0
    else 1 + LineEnd(s[1..])
  }

  /** The read loop's view of the stream: complete lines, each with its newline. */
  function Lines(s: string): seq<string>
    decreases |s|
  {
    var n := LineEnd(s);
    if n == 0 then [] else [s[..n]] + Lines(s[n..])
  }

  /** One newline, at the end. */
  predicate IsLine(line: string) {
    line != "" && line[|line| - 1] == '\n' && '\n' !in line[..|line| - 1]
  }

  function Whole(lines: seq<string>): string {
    if lines == [] then "" else lines[0] + Whole(lines[1..])
  }

  lemma {:induction false} FirstNewline(s: string)
    ensures LineEnd(s) == 0 ==> '\n' !in s
    ensures LineEnd(s) > 0 ==> '\n' !in s[..LineEnd(s) - 1]
  {
    if s != "" {
      FirstNewline(s[1..]);
      var n := LineEnd(s[1..]);
      assert s == [s[0]] + s[1..];
      if s[0] != '\n' && n > 0 {
        assert s[..n] == [s[0]] + s[1..][..n - 1];
      }
    }
  }

  lemma FirstLineIsOne(s: string)
    requires LineEnd(s) > 0
    ensures IsLine(s[..LineEnd(s)])
  {
    var n := LineEnd(s);
    FirstNewline(s);
    assert s[..n][..n - 1] == s[..n - 1];
  }

  lemma LinesHead(s: string)
    requires LineEnd(s) > 0
    ensures Lines(s) == [s[..LineEnd(s)]] + Lines(s[LineEnd(s)..])
  {
  }

  /** The lines are the stream up to its last newline, each with one newline, at its end. What comes after is not a
      line: a stream that ends in the middle of one gives nothing for it. */
  lemma {:induction false} LinesExactly(s: string) returns (rest: string)
    ensures s == Whole(Lines(s)) + rest && '\n' !in rest
    ensures forall k | 0 <= k < |Lines(s)| :: IsLine(Lines(s)[k])
    decreases |s|
  {
    var n := LineEnd(s);
    if n == 0 {
      FirstNewline(s);
      rest := s;
    } else {
      rest := LinesExactly(s[n..]);
      FirstLineIsOne(s);
      var first, others := s[..n], Lines(s[n..]);
      LinesHead(s);
      assert ([first] + others)[1..] == others && s == first + s[n..];
    }
  }

  /** The read loop: each line is trimmed and decrypted; a line that fails is skipped. */
  function DecryptLines(aead: Aead, t: State, lines: seq<string>): seq<bytes>
    decreases |lines|
  {
    if lines == [] then []
    else
      var (next, r) := Decrypt(aead, t, TrimSpace(lines[0]));
      (if r.Ok? then [r.value] else []) + DecryptLines(aead, next, lines[1..])
  }

  /** The session after the read loop has been through some lines. */
  function AfterLines(aead: Aead, t: State, lines: seq<string>): State
    decreases |lines|
  {
    if lines == [] then t else AfterLines(aead, Decrypt(aead, t, TrimSpace(lines[0])).0, lines[1..])
  }

  /** The first line: what it yields, and the session that reads the others. */
  lemma FirstOfLines(aead: Aead, t: State, first: seq<string>, second: seq<string>)
    returns (next: State, out: seq<bytes>)
    requires first != []
    ensures AfterLines(aead, t, first) == AfterLines(aead, next, first[1..])
    ensures DecryptLines(aead, t, first) == out + DecryptLines(aead, next, first[1..])
    ensures DecryptLines(aead, t, first + second) == out + DecryptLines(aead, next, first[1..] + second)
  {
    var turn := Decrypt(aead, t, TrimSpace(first[0]));
    next, out := turn.0, if turn.1.Ok? then [turn.1.value] else [];
    assert (first + second)[1..] == first[1..] + second;
  }

  lemma {:induction false} DecryptConcat(aead: Aead, t: State, first: seq<string>, second: seq<string>)
    ensures DecryptLines(aead, t, first + second) ==
            DecryptLines(aead, t, first) + DecryptLines(aead, AfterLines(aead, t, first), second)
    decreases |first|
  {
    if first == [] {
      assert first + second == second;
    } else {
      var next, out := FirstOfLines(aead, t, first, second);
      DecryptConcat(aead, next, first[1..], second);
    }
  }

  /** A line that fails, whatever it is and wherever it comes, changes nothing: the rest of the stream is read as if it
      had not been there. */
  lemma FailingLineIsSkipped(aead: Aead, t: State, before: seq<string>, line: string, after: seq<string>)
    requires Decrypt(aead, AfterLines(aead, t, before), TrimSpace(line)).1.Err?
    ensures DecryptLines(aead, t, before + ([line] + after)) == DecryptLines(aead, t, before + after)
  {
    var u := AfterLines(aead, t, before);
    DecryptConcat(aead, t, before, [line] + after);
    DecryptConcat(aead, t, before, after);
    DecryptExactly(aead, u, TrimSpace(line));
    assert ([line] + after)[1..] == after;
  }

  lemma {:induction false} FirstLine(line: string, more: string)
    requires forall i | 0 <= i < |line| :: line[i] != '\n'
    ensures LineEnd(line + "\n" + more) == |line| + 1
  {
    var s := line + "\n" + more;
    if line != "" {
      FirstLine(line[1..], more);
      assert s[1..] == line[1..] + "\n" + more;
    }
  }

  lemma LinesOfFrame(line: string, more: string)
    requires forall i | 0 <= i < |line| :: line[i] != '\n'
    ensures Lines(line + "\n" + more) == [line + "\n"] + Lines(more)
  {
    var s := line + "\n" + more;
    FirstLine(line, more);
    assert s[..|line| + 1] == line + "\n" && s[|line| + 1..] == more;
  }

  /** Channel round trip. For every list of plaintexts: encrypt each, write the packets as lines, split the stream
      into lines, trim and decrypt, and exactly that list comes out. The two sessions need only agree on
      the key and the direction and be in step; freshly made ones are, for fewer than 2^64 packets. */
  lemma {:induction false} ChannelRoundTrip(aead: Aead, s: State, t: State, plains: seq<bytes>)
    requires Correct(aead)
    requires t.recvKey == s.sendKey && t.recvDir == s.sendDir && t.window.recvMax == s.sendCtr
    requires s.sendCtr + |plains| < UINT64_LIMIT
    ensures DecryptLines(aead, t, Lines(Frames(EncryptAll(aead, s, plains)))) == plains
    decreases |plains|
  {
    if plains != [] {
      var ctr := Successor(s.sendCtr);
      var (next, packet) := Encrypt(aead, s, plains[0]);
      var later := EncryptAll(aead, next, plains[1..]);
      PacketIsSafe(aead, s.sendKey, Nonce(s.sendDir, ctr), plains[0]);
      assert EncryptAll(aead, s, plains) == [packet] + later;
      assert ([packet] + later)[1..] == later;
      LinesOfFrame(packet, Frames(later));
      TrimNewline(packet);
      DecryptGenuine(aead, t, ctr, plains[0]);
      var lines := Lines(Frames(later));
      assert ([packet + "\n"] + lines)[1..] == lines;
      ChannelRoundTrip(aead, next, t.(window := W.Update(t.window, ctr)), plains[1..]);
    }
  }

  // Packets that arrive in any order, more than once, or not at all.

  /** The session after `k` more encryptions. */
  function Later(s: State, k: nat): State
    requires s.sendCtr + k < UINT64_LIMIT
  {
    s.(sendCtr := s.sendCtr + k)
  }

  lemma {:induction false} EncryptAllHead(aead: Aead, s: State, plains: seq<bytes>)
    requires plains != []
    ensures EncryptAll(aead, s, plains) == [Encrypt(aead, s, plains[0]).1] + EncryptAll(aead, Advance(s), plains[1..])
  {
  }

  lemma {:induction false} EncryptedAt(aead: Aead, s: State, plains: seq<bytes>, k: nat)
    requires k < |plains| && s.sendCtr + |plains| < UINT64_LIMIT
    ensures EncryptAll(aead, s, plains)[k] == Encrypt(aead, Later(s, k), plains[k]).1
    decreases |plains|
  {
    EncryptAllHead(aead, s, plains);
    if k == 0 {
      assert Later(s, 0) == s;
    } else {
      EncryptedAt(aead, Advance(s), plains[1..], k - 1);
      assert Later(Advance(s), k - 1) == Later(s, k) && plains[1..][k - 1] == plains[k];
    }
  }

  lemma {:induction false} PacketAt(aead: Aead, s: State, plains: seq<bytes>, k: nat)
    requires k < |plains| && s.sendCtr + |plains| < UINT64_LIMIT
    ensures EncryptAll(aead, s, plains)[k] == Packet(aead, s.sendKey, Nonce(s.sendDir, s.sendCtr + k + 1), plains[k])
  {
    EncryptedAt(aead, s, plains, k);
  }

  /** The receiving session after a list of arriving packets. */
  function After(aead: Aead, t: State, arrivals: seq<string>): State {
    if arrivals == [] then t
    else Decrypt(aead, After(aead, t, arrivals[..|arrivals| - 1]), arrivals[|arrivals| - 1]).0
  }

  /** What comes out for the packet at place `j`. */
  function Outcome(aead: Aead, t: State, arrivals: seq<string>, j: nat): Result<bytes, Failure>
    requires j < |arrivals|
  {
    Decrypt(aead, After(aead, t, arrivals[..j]), arrivals[j]).1
  }

  /** Packet number `order[j]` (counted from 0) arrives at place `j`. */
  function Arriving(packets: seq<string>, order: seq<nat>): seq<string>
    requires forall j | 0 <= j < |order| :: order[j] < |packets|
  {
    seq(|order|, j requires 0 <= j < |order| => packets[order[j]])
  }

  function Counters(order: seq<nat>): seq<uint64>
    requires forall j | 0 <= j < |order| :: order[j] + 1 < UINT64_LIMIT
  {
    seq(|order|, j requires 0 <= j < |order| => order[j] + 1)
  }

  /** A receiving session that has seen nothing yet from this sender. */
  predicate Matches(s: State, t: State) {
    t.recvKey == s.sendKey && t.recvDir == s.sendDir && s.sendCtr == 0 && t.window == W.FRESH
  }

  lemma PrefixesAgree(packets: seq<string>, order: seq<nat>, n: nat)
    requires n <= |order| && forall j | 0 <= j < |order| :: order[j] < |packets| && order[j] + 1 < UINT64_LIMIT
    ensures Arriving(packets, order)[..n] == Arriving(packets, order[..n])
    ensures Counters(order)[..n] == Counters(order[..n])
  {
  }

  /** One genuine packet, decrypted by a session whose window has followed the counters so far. */
  lemma {:induction false} DecryptNumbered(aead: Aead, s: State, t: State, plains: seq<bytes>, k: nat, window: W.Window)
    requires Correct(aead) && Matches(s, t) && k < |plains| < UINT64_LIMIT
    ensures
      Decrypt(aead, t.(window := window), EncryptAll(aead, s, plains)[k]) ==
        if W.Accepts(window, k + 1) then (t.(window := W.Update(window, k + 1)), Ok(plains[k]))
        else (t.(window := window), Err(Replay))
  {
    var u := t.(window := window);
    DecryptGenuine(aead, u, k + 1, plains[k]);
    assert EncryptAll(aead, s, plains)[k] == Packet(aead, u.recvKey, Nonce(u.recvDir, k + 1), plains[k]) by {
      PacketAt(aead, s, plains, k);
    }
  }

  lemma {:induction false} AfterLast(aead: Aead, t: State, arrivals: seq<string>)
    requires arrivals != []
    ensures
      var n := |arrivals| - 1;
      After(aead, t, arrivals) == Decrypt(aead, After(aead, t, arrivals[..n]), arrivals[n]).0
  {
  }

  lemma {:induction false} WindowFollowsArrivals(aead: Aead, s: State, t: State, plains: seq<bytes>, order: seq<nat>)
    requires Correct(aead) && Matches(s, t) && |plains| < UINT64_LIMIT
    requires forall j | 0 <= j < |order| :: order[j] < |plains|
    ensures After(aead, t, Arriving(EncryptAll(aead, s, plains), order)) == t.(window := W.After(Counters(order)))
    decreases |order|
  {
    if order != [] {
      var n := |order| - 1;
      var packets := EncryptAll(aead, s, plains);
      PrefixesAgree(packets, order, n);
      var before := W.After(Counters(order[..n]));
      WindowFollowsArrivals(aead, s, t, plains, order[..n]);
      AfterLast(aead, t, Arriving(packets, order));
      assert W.After(Counters(order)) == W.Update(before, order[n] + 1);
      DecryptNumbered(aead, s, t, plains, order[n], before);
    }
  }

  /** The session as it stands when the packet at place `j` arrives. */
  lemma {:induction false} BeforeArrival(aead: Aead, s: State, t: State, plains: seq<bytes>, order: seq<nat>, j: nat)
    requires Correct(aead) && Matches(s, t) && |plains| < UINT64_LIMIT
    requires forall i | 0 <= i < |order| :: order[i] < |plains|
    requires j < |order|
    ensures After(aead, t, Arriving(EncryptAll(aead, s, plains), order)[..j]) ==
            t.(window := W.After(Counters(order)[..j]))
  {
    PrefixesAgree(EncryptAll(aead, s, plains), order, j);
    WindowFollowsArrivals(aead, s, t, plains, order[..j]);
  }

  /** Whatever the network does, a packet yields its own plaintext exactly when the replay window accepts its
      counter there, and is refused as a replay otherwise. */
  lemma {:induction false} ArrivalsDecrypt(aead: Aead, s: State, t: State, plains: seq<bytes>, order: seq<nat>, j: nat)
    requires Correct(aead) && Matches(s, t) && |plains| < UINT64_LIMIT
    requires forall i | 0 <= i < |order| :: order[i] < |plains|
    requires j < |order|
    ensures Outcome(aead, t, Arriving(EncryptAll(aead, s, plains), order), j) ==
            if W.AcceptedAt(Counters(order), j) then Ok(plains[order[j]]) else Err(Replay)
  {
    BeforeArrival(aead, s, t, plains, order, j);
    DecryptNumbered(aead, s, t, plains, order[j], W.After(Counters(order)[..j]));
  }

  /** End to end through the session layer: no packet yields its plaintext twice, and every arrival yields its
      plaintext if and only if no packet repeats and none comes after one sent 64 or more after it. */
  lemma ArrivalsTolerance(aead: Aead, s: State, t: State, plains: seq<bytes>, order: seq<nat>)
    requires Correct(aead) && Matches(s, t) && |plains| < UINT64_LIMIT
    requires forall i | 0 <= i < |order| :: order[i] < |plains|
    ensures
      var arrivals := Arriving(EncryptAll(aead, s, plains), order);
      && (forall i, j | 0 <= i < j < |order| && order[i] == order[j] ::
            Outcome(aead, t, arrivals, i).Err? || Outcome(aead, t, arrivals, j).Err?)
      && ((forall j | 0 <= j < |order| :: Outcome(aead, t, arrivals, j) == Ok(plains[order[j]])) <==>
          (forall i, j | 0 <= i < j < |order| :: order[i] != order[j] && order[i] < order[j] + W.REPLAY_WINDOW_BITS))
  {
    var arrivals := Arriving(EncryptAll(aead, s, plains), order);
    var ctrs := Counters(order);
    forall j | 0 <= j < |order|
      ensures Outcome(aead, t, arrivals, j) == if W.AcceptedAt(ctrs, j) then Ok(plains[order[j]]) else Err(Replay)
    {
      ArrivalsDecrypt(aead, s, t, plains, order, j);
    }
    forall i, j | 0 <= i < j < |order| && order[i] == order[j]
      ensures Outcome(aead, t, arrivals, i).Err? || Outcome(aead, t, arrivals, j).Err?
    {
      W.NoCounterTwice(ctrs, i, j);
    }
    W.ToleratesExactly(ctrs);
    TolerableOrder(order);
  }

  lemma TolerableOrder(order: seq<nat>)
    requires forall j | 0 <= j < |order| :: order[j] + 1 < UINT64_LIMIT
    ensures W.Tolerable(Counters(order)) <==>
            forall i, j | 0 <= i < j < |order| :: order[i] != order[j] && order[i] < order[j] + W.REPLAY_WINDOW_BITS
  {
    var ctrs := Counters(order);
    assert forall i | 0 <= i < |order| :: ctrs[i] == order[i] + 1;
  }
}
