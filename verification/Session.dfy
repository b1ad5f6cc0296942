/** The encrypted session: packets, their nonces and the replay check. The cipher is a parameter; all that is
    used of it is that opening undoes sealing. */
module Sessions {
  import opened Prelude
  import opened Integers
  import opened Splitting
  import Base64
  import Words
  import W = ReplayWindow

  const NONCE_SIZE := 12

  /** An authenticated cipher, section 2.8 of RFC 8439, with empty associated data: arguments are key, nonce, text. */
  datatype Aead = Aead(seal: (bytes, bytes, bytes) -> bytes, open: (bytes, bytes, bytes) -> Option<bytes>)

  ghost predicate Correct(aead: Aead) {
    forall key, nonce, plain :: aead.open(key, nonce, aead.seal(key, nonce, plain)) == Some(plain)
  }

  datatype State = State(
    sendKey: bytes,
    recvKey: bytes,
    sendDir: byte,
    recvDir: byte,
    sendCtr: uint64,
    window: W.Window)

  datatype Failure = InvalidFormat | InvalidNonce | WrongDirection | InvalidCiphertext | AuthFailed | Replay

  /** Direction marker, three zero bytes, then the counter in little-endian order. */
  function Nonce(direction: byte, ctr: uint64): (nonce: bytes)
    ensures |nonce| == NONCE_SIZE
  {
    [direction, 0, 0, 0] + LittleEndian(ctr, 8)
  }

  function Packet(aead: Aead, key: bytes, nonce: bytes, plain: bytes): string {
    Base64.Encode(nonce) + "." + Base64.Encode(aead.seal(key, nonce, plain))
  }

  /** Everything that is checked before the replay window: the nonce and the plaintext, or what is wrong. */
  function Open(aead: Aead, s: State, packet: string): (r: Result<(bytes, bytes), Failure>)
    ensures r.Ok? ==> |r.value.0| == NONCE_SIZE
  {
    var parts := SplitOn(packet, '.');
    if |parts| != 2 then Err(InvalidFormat)
    else
      var nonce := Base64.Decode(parts[0]);
      if nonce.None? || |nonce.value| != NONCE_SIZE then Err(InvalidNonce)
      else if nonce.value[0] != s.recvDir then Err(WrongDirection)
      else
        var ct := Base64.Decode(parts[1]);
        if ct.None? then Err(InvalidCiphertext)
        else
          match aead.open(s.recvKey, nonce.value, ct.value)
          case None => Err(AuthFailed)
          case Some(plain) => Ok((nonce.value, plain))
  }

  lemma {:induction false} FromEightBytes(b: bytes)
    ensures FromLittleEndian(b) < Pow256(|b|)
  {
    if b != [] {
      FromEightBytes(b[1..]);
    }
  }

  function Counter(nonce: bytes): uint64
    requires |nonce| == NONCE_SIZE
  {
    FromEightBytes(nonce[4..]);
    Pow256Of4And8();
    FromLittleEndian(nonce[4..])
  }

  /** Decrypts one packet. Only a packet that passed authentication can move the replay window. */
  function Decrypt(aead: Aead, s: State, packet: string): (State, Result<bytes, Failure>) {
    match Open(aead, s, packet)
    case Err(failure) => (s, Err(failure))
    case Ok((nonce, plain)) =>
      var ctr := Counter(nonce);
      if W.Accepts(s.window, ctr) then (s.(window := W.Update(s.window, ctr)), Ok(plain))
      else (s, Err(Replay))
  }

  /** What a packet must be to be accepted, and what is wrong with it otherwise, check by check: exactly one dot; a
      nonce of twelve bytes before it; the direction that this session receives; base64 after it; a text that opens
      under the receiving key; a counter that the window accepts. Whatever fails, the session stays as it was. */
  lemma DecryptExactly(aead: Aead, s: State, packet: string)
    ensures
      var parts := SplitOn(packet, '.');
      var (t, r) := Decrypt(aead, s, packet);
      var nonce := if |parts| == 2 then Base64.Decode(parts[0]) else None;
      var ct := if |parts| == 2 then Base64.Decode(parts[1]) else None;
      var noted := nonce.Some? && |nonce.value| == 12;
      var aimed := noted && nonce.value[0] == s.recvDir;
      var plain := if aimed && ct.Some? then aead.open(s.recvKey, nonce.value, ct.value) else None;
      && (r == Err(InvalidFormat) <==> |parts| != 2)
      && (r == Err(InvalidNonce) <==> |parts| == 2 && !noted)
      && (r == Err(WrongDirection) <==> noted && !aimed)
      && (r == Err(InvalidCiphertext) <==> aimed && ct.None?)
      && (r == Err(AuthFailed) <==> aimed && ct.Some? && plain.None?)
      && (plain.Some? ==>
            var ctr := Counter(nonce.value);
            && (nonce.value[4..] == LittleEndian(ctr, 8))
            && (r == Err(Replay) <==> !W.Accepts(s.window, ctr))
            && (r == Ok(plain.value) <==> W.Accepts(s.window, ctr))
            && (r.Ok? ==> t == s.(window := W.Update(s.window, ctr))))
      && (r.Ok? ==> plain.Some?)
      && (r.Err? ==> t == s)
  {
    var parts := SplitOn(packet, '.');
    if |parts| == 2 && Base64.Decode(parts[0]).Some? && |Base64.Decode(parts[0]).value| == 12 {
      ReadsBackAsItself(Base64.Decode(parts[0]).value[4..]);
    }
  }

  /** The counter moves before it is used. */
  function Advance(s: State): State {
    s.(sendCtr := Successor(s.sendCtr))
  }

  function NextNonce(s: State): bytes {
    Nonce(s.sendDir, Advance(s).sendCtr)
  }

  function Encrypt(aead: Aead, s: State, plain: bytes): (State, string) {
    (Advance(s), Packet(aead, s.sendKey, NextNonce(s), plain))
  }

  /** The session object: `Encrypt` advances its counter and `Decrypt` its replay window. */
  class Session {
    const sendKey: bytes
    const recvKey: bytes
    const sendDir: byte
    const recvDir: byte
    var sendCtr: uint64
    var recvMax: uint64
    var recvWindow: uint64

    ghost function Value(): State
      reads this
    {
      State(sendKey, recvKey, sendDir, recvDir, sendCtr, W.Window(recvMax, recvWindow))
    }

    constructor (sendKey: bytes, recvKey: bytes, sendDir: byte, recvDir: byte)
      ensures Value() == State(sendKey, recvKey, sendDir, recvDir, 0, W.FRESH)
    {
      this.sendKey, this.recvKey, this.sendDir, this.recvDir := sendKey, recvKey, sendDir, recvDir;
      sendCtr, recvMax, recvWindow := 0, 0, 0;
    }

    method AcceptCounter(ctr: uint64) returns (ok: bool)
      modifies `recvMax, `recvWindow
      ensures ok == W.Accepts(old(Value()).window, ctr)
      ensures Value() == old(Value()).(window := W.Update(old(Value()).window, ctr))
    {
      if ctr > recvMax {
        var shift := ctr - recvMax;
        var shifted := 0;
        if shift < W.REPLAY_WINDOW_BITS {
          shifted := Words.ShiftLeft(recvWindow, shift);
        }
        W.OrOfWords(shifted, 1);
        recvWindow := Words.Or(shifted, 1);
        recvMax := ctr;
        return true;
      }
      var diff := recvMax - ctr;
      if diff >= W.REPLAY_WINDOW_BITS {
        return false;
      }
      var mask := Words.ShiftLeft(1, diff);
      if Words.And(recvWindow, mask) != 0 {
        return false;
      }
      W.OrOfWords(recvWindow, mask);
      recvWindow := Words.Or(recvWindow, mask);
      return true;
    }

    method EncryptPacket(aead: Aead, plain: bytes) returns (packet: string)
      modifies `sendCtr
      ensures (Value(), packet) == Encrypt(aead, old(Value()), plain)
    {
      sendCtr := Successor(sendCtr);
      var nonce := Nonce(sendDir, sendCtr);
      packet := Base64.Encode(nonce) + "." + Base64.Encode(aead.seal(sendKey, nonce, plain));
    }

    method DecryptPacket(aead: Aead, packet: string) returns (r: Result<bytes, Failure>)
      modifies `recvMax, `recvWindow
      ensures (Value(), r) == Decrypt(aead, old(Value()), packet)
    {
      var parts := SplitOn(packet, '.');
      if |parts| != 2 {
        return Err(InvalidFormat);
      }
      var nonce := Base64.Decode(parts[0]);
      if nonce.None? || |nonce.value| != NONCE_SIZE {
        return Err(InvalidNonce);
      }
      if nonce.value[0] != recvDir {
        return Err(WrongDirection);
      }
      var ct := Base64.Decode(parts[1]);
      if ct.None? {
        return Err(InvalidCiphertext);
      }
      var plain := aead.open(recvKey, nonce.value, ct.value);
      if plain.None? {
        return Err(AuthFailed);
      }
      var ok := AcceptCounter(Counter(nonce.value));
      if !ok {
        return Err(Replay);
      }
      return Ok(plain.value);
    }
  }
}
