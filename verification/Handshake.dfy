/** The authenticated key exchange. Its primitives are parameters; all that is used of them is that both ends get
    the same shared secret and that a genuine signature verifies. */
module Handshakes {
  import opened Prelude
  import opened ByteOrder
  import opened Sessions
  import Base64
  import Channel
  import W = ReplayWindow

  const DIRECTION_LOW_TO_HIGH: byte := 1
  const DIRECTION_HIGH_TO_LOW: byte := 2
  const KEY_LENGTH := 32

  /** "p2pchat-handshake-v2" */
  const DOMAIN: bytes := [112, 50, 112, 99, 104, 97, 116, 45, 104, 97, 110, 100, 115, 104, 97, 107, 101, 45, 118, 50]

  /** X25519 (the public key of a secret, and the shared secret, which can fail), HKDF (section 2 of RFC 5869) with
      secret, salt and info, and the identity signature scheme. */
  datatype Primitives = Primitives(
    public: bytes -> bytes,
    shared: (bytes, bytes) -> Option<bytes>,
    derive: (bytes, bytes, string) -> bytes,
    identity: bytes -> bytes,
    sign: (bytes, bytes) -> bytes,
    verify: (bytes, bytes, bytes) -> bool)

  ghost predicate Sound(c: Primitives) {
    && (forall x :: |c.public(x)| == KEY_LENGTH)
    && (forall x, y :: c.shared(x, c.public(y)) == c.shared(y, c.public(x)))
    && (forall k, m :: c.verify(c.identity(k), m, c.sign(k, m)) && c.sign(k, m) != [])
  }

  function Joined(es: (bytes, bytes), ids: (bytes, bytes)): bytes {
    DOMAIN + [BAR] + es.0 + [BAR] + es.1 + [BAR] + ids.0 + [BAR] + ids.1
  }

  /** Both ephemeral keys and both identities, each pair in order, joined by separators. */
  function Transcript(localEphemeral: bytes, remoteEphemeral: bytes, localId: bytes, remoteId: bytes): bytes {
    Joined(Sorted(localEphemeral, remoteEphemeral), Sorted(localId, remoteId))
  }

  lemma PartsOfTranscript(d: bytes, e0: bytes, e1: bytes, i0: bytes, i1: bytes)
    requires |e0| == KEY_LENGTH && |e1| == KEY_LENGTH && |i0| == KEY_LENGTH && |i1| == KEY_LENGTH
    ensures
      var t := d + [BAR] + e0 + [BAR] + e1 + [BAR] + i0 + [BAR] + i1;
      var n := |d| + 1;
      && |t| == n + 131
      && t[n..n + 32] == e0 && t[n + 33..n + 65] == e1 && t[n + 66..n + 98] == i0 && t[n + 99..n + 131] == i1
  {
  }

  /** Transcript determinacy: for 32-byte keys, two transcripts are equal if and only if the two pairs of ephemeral
      keys and the two pairs of identities are, in either order. */
  lemma TranscriptDeterminesParties(e: bytes, f: bytes, i: bytes, j: bytes, e': bytes, f': bytes, i': bytes, j': bytes)
    requires |e| == KEY_LENGTH && |f| == KEY_LENGTH && |i| == KEY_LENGTH && |j| == KEY_LENGTH
    requires |e'| == KEY_LENGTH && |f'| == KEY_LENGTH && |i'| == KEY_LENGTH && |j'| == KEY_LENGTH
    ensures Transcript(e, f, i, j) == Transcript(e', f', i', j') <==> SamePair(e, f, e', f') && SamePair(i, j, i', j')
  {
    var es, ids, es', ids' := Sorted(e, f), Sorted(i, j), Sorted(e', f'), Sorted(i', j');
    SortedExactly(e, f, e', f');
    SortedExactly(i, j, i', j');
    PartsOfTranscript(DOMAIN, es.0, es.1, ids.0, ids.1);
    PartsOfTranscript(DOMAIN, es'.0, es'.1, ids'.0, ids'.1);
  }

  datatype HandshakeError = InvalidPeerKey | NoSharedSecret | InvalidSignature | IdentityMismatch | IdenticalKeys

  /** One end: its ephemeral secret, its identity key, and the identity it expects of the other end. */
  datatype Party = Party(secret: bytes, identityKey: bytes, remoteIdentity: bytes)

  /** The first line that a party writes. */
  function Hello(c: Primitives, p: Party): string {
    Base64.Encode(c.public(p.secret)) + "\n"
  }

  function ReadKey(line: string): Option<bytes> {
    var key := Base64.Decode(TrimSpace(line));
    if key.Some? && |key.value| == KEY_LENGTH then key else None
  }

  function PartyTranscript(c: Primitives, p: Party, peerKey: bytes): bytes {
    Transcript(c.public(p.secret), peerKey, c.identity(p.identityKey), p.remoteIdentity)
  }

  /** The second line: the signed transcript. */
  function Proof(c: Primitives, p: Party, peerHello: string): Result<string, HandshakeError> {
    match ReadKey(peerHello)
    case None => Err(InvalidPeerKey)
    case Some(peerKey) =>
      if c.shared(p.secret, peerKey).None? then Err(NoSharedSecret)
      else Ok(Base64.Encode(c.sign(p.identityKey, PartyTranscript(c, p, peerKey))) + "\n")
  }

  /** The role of each end: the lower ephemeral key sends low-to-high. */
  function Assign(mine: bytes, theirs: bytes, lowToHigh: bytes, highToLow: bytes): Result<State, HandshakeError> {
    var order := Compare(mine, theirs);
    if order == -1 then
      Ok(State(lowToHigh, highToLow, DIRECTION_LOW_TO_HIGH, DIRECTION_HIGH_TO_LOW, 0, W.FRESH))
    else if order == 1 then
      Ok(State(highToLow, lowToHigh, DIRECTION_HIGH_TO_LOW, DIRECTION_LOW_TO_HIGH, 0, W.FRESH))
    else
      Err(IdenticalKeys)
  }

  /** What one end makes of the two lines that it reads. */
  function Handshake(c: Primitives, p: Party, peerHello: string, peerProof: string): Result<State, HandshakeError> {
    match ReadKey(peerHello)
    case None => Err(InvalidPeerKey)
    case Some(peerKey) =>
      match c.shared(p.secret, peerKey)
      case None => Err(NoSharedSecret)
      case Some(shared) =>
        var transcript := PartyTranscript(c, p, peerKey);
        var signature := Base64.Decode(TrimSpace(peerProof));
        if signature.None? || signature.value == [] then Err(InvalidSignature)
        else if !c.verify(p.remoteIdentity, transcript, signature.value) then Err(IdentityMismatch)
        else
          Assign(c.public(p.secret), peerKey,
                 c.derive(shared, transcript, "p2pchat-v2-low-to-high"),
                 c.derive(shared, transcript, "p2pchat-v2-high-to-low"))
  }

  /** The first line carries a key of 32 bytes, and the second a signature of the transcript that the expected identity
      verifies. */
  predicate Vouched(c: Primitives, p: Party, peerHello: string, peerProof: string) {
    var key, signature := Base64.Decode(TrimSpace(peerHello)), Base64.Decode(TrimSpace(peerProof));
    && key.Some? && |key.value| == 32 && signature.Some? && signature.value != []
    && c.verify(p.remoteIdentity,
                Transcript(c.public(p.secret), key.value, c.identity(p.identityKey), p.remoteIdentity), signature.value)
  }

  /** When one end accepts the two lines, whoever wrote them, and what is wrong with them otherwise. */
  lemma HandshakeExactly(c: Primitives, p: Party, peerHello: string, peerProof: string)
    ensures
      var r := Handshake(c, p, peerHello, peerProof);
      var key, signature := Base64.Decode(TrimSpace(peerHello)), Base64.Decode(TrimSpace(peerProof));
      var keyed := key.Some? && |key.value| == 32;
      var shared := if keyed then c.shared(p.secret, key.value) else None;
      var signed := signature.Some? && signature.value != [];
      var vouched := Vouched(c, p, peerHello, peerProof);
      && (r == Err(InvalidPeerKey) <==> !keyed)
      && (r == Err(NoSharedSecret) <==> keyed && shared.None?)
      && (r == Err(InvalidSignature) <==> shared.Some? && !signed)
      && (r == Err(IdentityMismatch) <==> shared.Some? && signed && !vouched)
      && (r == Err(IdenticalKeys) <==> shared.Some? && vouched && key.value == c.public(p.secret))
      && (r.Ok? <==> shared.Some? && vouched && key.value != c.public(p.secret))
  {
    var key := Base64.Decode(TrimSpace(peerHello));
    if key.Some? {
      CompareIsAntisymmetric(c.public(p.secret), key.value);
    }
  }

  /** The session of a handshake that succeeds: the end with the lower key sends with the low-to-high key and marker and
      receives with the other two, and the end with the higher key does the opposite. */
  lemma SessionOfHandshake(c: Primitives, p: Party, peerHello: string, peerProof: string)
    requires Handshake(c, p, peerHello, peerProof).Ok?
    ensures
      var mine, theirs := c.public(p.secret), Base64.Decode(TrimSpace(peerHello)).value;
      var transcript := Transcript(mine, theirs, c.identity(p.identityKey), p.remoteIdentity);
      var shared := c.shared(p.secret, theirs).value;
      var up := c.derive(shared, transcript, "p2pchat-v2-low-to-high");
      var down := c.derive(shared, transcript, "p2pchat-v2-high-to-low");
      Handshake(c, p, peerHello, peerProof).value ==
        if exists k: nat :: BelowAt(mine, theirs, k) then State(up, down, 1, 2, 0, W.FRESH)
        else State(down, up, 2, 1, 0, W.FRESH)
  {
    CompareExactly(c.public(p.secret), Base64.Decode(TrimSpace(peerHello)).value);
  }

  lemma LineRoundTrip(b: bytes)
    ensures Base64.Decode(TrimSpace(Base64.Encode(b) + "\n")) == Some(b)
  {
    Channel.EncodedIsSafe(b);
    TrimNewline(Base64.Encode(b));
    Base64.RoundTrip(b);
  }

  /** Two parties that expect each other. */
  predicate Peers(c: Primitives, a: Party, b: Party) {
    a.remoteIdentity == c.identity(b.identityKey) && b.remoteIdentity == c.identity(a.identityKey)
  }

  lemma TranscriptIgnoresSides(e: bytes, f: bytes, i: bytes, j: bytes)
    ensures Transcript(e, f, i, j) == Transcript(f, e, j, i)
  {
    SortedExactly(e, f, f, e);
    SortedExactly(i, j, j, i);
  }

  lemma SameTranscript(c: Primitives, a: Party, b: Party)
    requires Peers(c, a, b)
    ensures PartyTranscript(c, a, c.public(b.secret)) == PartyTranscript(c, b, c.public(a.secret))
  {
    TranscriptIgnoresSides(c.public(a.secret), c.public(b.secret), c.identity(a.identityKey), a.remoteIdentity);
  }

  lemma HelloIsRead(c: Primitives, p: Party)
    requires Sound(c)
    ensures ReadKey(Hello(c, p)) == Some(c.public(p.secret))
  {
    LineRoundTrip(c.public(p.secret));
  }

  lemma ProofIsWritten(c: Primitives, a: Party, b: Party)
    requires Sound(c) && Peers(c, a, b) && c.shared(a.secret, c.public(b.secret)).Some?
    ensures Proof(c, b, Hello(c, a)) ==
            Ok(Base64.Encode(c.sign(b.identityKey, PartyTranscript(c, a, c.public(b.secret)))) + "\n")
  {
    HelloIsRead(c, a);
    SameTranscript(c, a, b);
    assert c.shared(b.secret, c.public(a.secret)).Some?;
  }

  /** What party `a` derives when it hears `b`. */
  lemma HandshakeOutcome(c: Primitives, a: Party, b: Party)
    requires Sound(c) && Peers(c, a, b) && c.shared(a.secret, c.public(b.secret)).Some?
    ensures
      var mine, theirs := c.public(a.secret), c.public(b.secret);
      var transcript := PartyTranscript(c, a, theirs);
      var shared := c.shared(a.secret, theirs).value;
      && Proof(c, b, Hello(c, a)).Ok?
      && Handshake(c, a, Hello(c, b), Proof(c, b, Hello(c, a)).value) ==
           Assign(mine, theirs, c.derive(shared, transcript, "p2pchat-v2-low-to-high"),
                  c.derive(shared, transcript, "p2pchat-v2-high-to-low"))
  {
    HelloIsRead(c, b);
    ProofIsWritten(c, a, b);
    var transcript := PartyTranscript(c, a, c.public(b.secret));
    LineRoundTrip(c.sign(b.identityKey, transcript));
    assert c.verify(c.identity(b.identityKey), transcript, c.sign(b.identityKey, transcript));
  }

  /** Complementary sessions: what one sends, the other receives. */
  predicate Complementary(s: State, t: State) {
    && s.sendKey == t.recvKey && s.recvKey == t.sendKey
    && s.sendDir == t.recvDir && s.recvDir == t.sendDir && s.sendDir != s.recvDir
    && s.sendCtr == 0 && t.sendCtr == 0 && s.window == W.FRESH && t.window == W.FRESH
  }

  /** Handshake agreement. Two parties that expect each other and exchange their lines both compute the same
      transcript. If their ephemeral keys differ, both succeed and their sessions are complementary;
      if not, both fail. */
  lemma HandshakeAgreement(c: Primitives, a: Party, b: Party)
    requires Sound(c) && Peers(c, a, b) && c.shared(a.secret, c.public(b.secret)).Some?
    ensures Proof(c, a, Hello(c, b)).Ok? && Proof(c, b, Hello(c, a)).Ok?
    ensures
      var ra := Handshake(c, a, Hello(c, b), Proof(c, b, Hello(c, a)).value);
      var rb := Handshake(c, b, Hello(c, a), Proof(c, a, Hello(c, b)).value);
      && PartyTranscript(c, a, c.public(b.secret)) == PartyTranscript(c, b, c.public(a.secret))
      && (ra.Ok? <==> c.public(a.secret) != c.public(b.secret))
      && (rb.Ok? <==> c.public(a.secret) != c.public(b.secret))
      && (ra.Ok? ==> Complementary(ra.value, rb.value))
  {
    HandshakeOutcome(c, a, b);
    HandshakeOutcome(c, b, a);
    SameTranscript(c, a, b);
    CompareIsAntisymmetric(c.public(a.secret), c.public(b.secret));
  }

  /** So whatever either end encrypts, in any number of packets below 2^64, the other end reads back. */
  lemma HandshakeThenTalk(c: Primitives, aead: Aead, a: Party, b: Party, plains: seq<bytes>)
    requires Sound(c) && Correct(aead) && Peers(c, a, b) && c.shared(a.secret, c.public(b.secret)).Some?
    requires c.public(a.secret) != c.public(b.secret) && |plains| < UINT64_LIMIT
    ensures Proof(c, a, Hello(c, b)).Ok? && Proof(c, b, Hello(c, a)).Ok?
    ensures
      var ra := Handshake(c, a, Hello(c, b), Proof(c, b, Hello(c, a)).value);
      var rb := Handshake(c, b, Hello(c, a), Proof(c, a, Hello(c, b)).value);
      && ra.Ok? && rb.Ok?
      && var stream := Channel.Frames(Channel.EncryptAll(aead, ra.value, plains));
         Channel.DecryptLines(aead, rb.value, Channel.Lines(stream)) == plains
  {
    HandshakeAgreement(c, a, b);
    var ra := Handshake(c, a, Hello(c, b), Proof(c, b, Hello(c, a)).value);
    var rb := Handshake(c, b, Hello(c, a), Proof(c, a, Hello(c, b)).value);
    Channel.ChannelRoundTrip(aead, ra.value, rb.value, plains);
  }
}
