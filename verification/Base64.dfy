/** Standard base64 with padding, section 4 of RFC 4648, with the decoder's leniency: line breaks are
    skipped and the unused bits of the last digit are not examined. */
module Base64 {
  import opened Prelude

  function Digit(v: nat): char
    requires v < 64
  {
    if v < 26 then (v + 65) as char
    else if v < 52 then (v - 26 + 97) as char
    else if v < 62 then (v - 52 + 48) as char
    else if v == 62 then '+'
    else '/'
  }

  function Value(c: char): (v: Option<nat>)
    ensures v.Some? ==> v.value < 64
  {
    if 'A' <= c <= 'Z' then Some(c as int - 65)
    else if 'a' <= c <= 'z' then Some(c as int - 97 + 26)
    else if '0' <= c <= '9' then Some(c as int - 48 + 52)
    else if c == '+' then Some(62)
    else if c == '/' then Some(63)
    else None
  }

  /** Three bytes as four six-bit values. */
  datatype Sextets = Sextets(v0: nat, v1: nat, v2: nat, v3: nat)

  predicate Small(x: Sextets) {
    x.v0 < 64 && x.v1 < 64 && x.v2 < 64 && x.v3 < 64
  }

  function Split(b0: byte, b1: byte, b2: byte): (x: Sextets)
    ensures Small(x)
  {
    Sextets(b0 / 4, b0 % 4 * 16 + b1 / 16, b1 % 16 * 4 + b2 / 64, b2 % 64)
  }

  function Join(x: Sextets): (b: (byte, byte, byte))
    requires Small(x)
  {
    (x.v0 * 4 + x.v1 / 16, x.v1 % 16 * 16 + x.v2 / 4, x.v2 % 4 * 64 + x.v3)
  }

  /** A last group of one or two bytes is filled up with zero bits, and the digits that hold none of its
      own bits are replaced by padding. */
  function Encode(b: bytes): string {
    if b == [] then
      ""
    else if |b| == 1 then
      var x := Split(b[0], 0, 0);
      [Digit(x.v0), Digit(x.v1), '=', '=']
    else if |b| == 2 then
      var x := Split(b[0], b[1], 0);
      [Digit(x.v0), Digit(x.v1), Digit(x.v2), '=']
    else
      var x := Split(b[0], b[1], b[2]);
      [Digit(x.v0), Digit(x.v1), Digit(x.v2), Digit(x.v3)] + Encode(b[3..])
  }

  function StripLineBreaks(s: string): string {
    if s == "" then ""
    else if s[0] == '\n' || s[0] == '\r' then StripLineBreaks(s[1..])
    else [s[0]] + StripLineBreaks(s[1..])
  }

  /** Padding may only fill up the last group of four. */
  function DecodeGroups(s: string): Option<bytes> {
    if s == "" then Some([])
    else if |s| < 4 then None
    else
      var v0, v1, v2, v3 := Value(s[0]), Value(s[1]), Value(s[2]), Value(s[3]);
      if v0.None? || v1.None? then None
      else if s[2] == '=' && s[3] == '=' then
        if |s| == 4 then Some([Join(Sextets(v0.value, v1.value, 0, 0)).0]) else None
      else if v2.None? then None
      else if s[3] == '=' then
        var b := Join(Sextets(v0.value, v1.value, v2.value, 0));
        if |s| == 4 then Some([b.0, b.1]) else None
      else if v3.None? then None
      else
        var b := Join(Sextets(v0.value, v1.value, v2.value, v3.value));
        match DecodeGroups(s[4..])
        case None => None
        case Some(rest) => Some([b.0, b.1, b.2] + rest)
  }

  function Decode(s: string): Option<bytes> {
    DecodeGroups(StripLineBreaks(s))
  }

  predicate InAlphabet(c: char) {
    Value(c).Some? || c == '='
  }

  lemma DigitValue(v: nat)
    requires v < 64
    ensures Value(Digit(v)) == Some(v) && Digit(v) != '='
  {
  }

  /** Neither the dot that separates the parts of a packet, nor a line break, nor any other white space
      can occur in encoded text. */
  lemma AlphabetIsSafe(c: char)
    requires InAlphabet(c)
    ensures c != '.' && c != '\n' && c != '\r' && !IsSpace(c)
  {
  }

  lemma {:induction false} EncodeUsesAlphabet(b: bytes, i: nat)
    requires i < |Encode(b)|
    ensures InAlphabet(Encode(b)[i])
  {
    if |b| >= 3 && i >= 4 {
      EncodeUsesAlphabet(b[3..], i - 4);
    } else {
      var x := Split(b[0], if |b| >= 2 then b[1] else 0, if |b| >= 3 then b[2] else 0);
      DigitValue(x.v0);
      DigitValue(x.v1);
      DigitValue(x.v2);
      DigitValue(x.v3);
    }
  }

  lemma {:induction false} StripNothing(s: string)
    requires forall i | 0 <= i < |s| :: InAlphabet(s[i])
    ensures StripLineBreaks(s) == s
  {
    if s != "" {
      AlphabetIsSafe(s[0]);
      StripNothing(s[1..]);
    }
  }

  /** A value put together from high and low bits comes apart again. */
  lemma HighAndLow(high: nat, low: nat, base: nat)
    requires (base == 4 || base == 16) && low < base
    ensures (high * base + low) / base == high && (high * base + low) % base == low
  {
  }

  lemma JoinUndoesSplit(b0: byte, b1: byte, b2: byte)
    ensures Join(Split(b0, b1, b2)) == (b0, b1, b2)
  {
    HighAndLow(b0 % 4, b1 / 16, 16);
    HighAndLow(b1 % 16, b2 / 64, 4);
  }

  /** The first bytes do not depend on digits that hold none of their bits. */
  lemma JoinIgnoresPadding(x: Sextets)
    requires Small(x)
    ensures Join(Sextets(x.v0, x.v1, 0, 0)).0 == Join(x).0
    ensures Join(Sextets(x.v0, x.v1, x.v2, 0)).0 == Join(x).0 && Join(Sextets(x.v0, x.v1, x.v2, 0)).1 == Join(x).1
  {
  }

  lemma DecodeFour(x: Sextets, more: string)
    requires Small(x)
    ensures
      var rest := DecodeGroups(more);
      DecodeGroups([Digit(x.v0), Digit(x.v1), Digit(x.v2), Digit(x.v3)] + more) ==
        if rest.None? then None else Some([Join(x).0, Join(x).1, Join(x).2] + rest.value)
  {
    var s := [Digit(x.v0), Digit(x.v1), Digit(x.v2), Digit(x.v3)] + more;
    DigitValue(x.v0);
    DigitValue(x.v1);
    DigitValue(x.v2);
    DigitValue(x.v3);
    assert s[4..] == more;
  }

  lemma DecodePadded(x: Sextets)
    requires Small(x)
    ensures DecodeGroups([Digit(x.v0), Digit(x.v1), '=', '=']) == Some([Join(x).0])
    ensures DecodeGroups([Digit(x.v0), Digit(x.v1), Digit(x.v2), '=']) == Some([Join(x).0, Join(x).1])
  {
    DigitValue(x.v0);
    DigitValue(x.v1);
    DigitValue(x.v2);
    JoinIgnoresPadding(x);
  }

  lemma OneByteRoundTrip(b0: byte)
    ensures DecodeGroups(Encode([b0])) == Some([b0])
  {
    DecodePadded(Split(b0, 0, 0));
    JoinUndoesSplit(b0, 0, 0);
  }

  lemma TwoBytesRoundTrip(b0: byte, b1: byte)
    ensures DecodeGroups(Encode([b0, b1])) == Some([b0, b1])
  {
    DecodePadded(Split(b0, b1, 0));
    JoinUndoesSplit(b0, b1, 0);
  }

  lemma ThreeBytesRoundTrip(b0: byte, b1: byte, b2: byte, rest: bytes)
    requires DecodeGroups(Encode(rest)) == Some(rest)
    ensures DecodeGroups(Encode([b0, b1, b2] + rest)) == Some([b0, b1, b2] + rest)
  {
    var x := Split(b0, b1, b2);
    var b := [b0, b1, b2] + rest;
    DecodeFour(x, Encode(rest));
    JoinUndoesSplit(b0, b1, b2);
    assert b[3..] == rest;
    assert Encode(b) == [Digit(x.v0), Digit(x.v1), Digit(x.v2), Digit(x.v3)] + Encode(rest);
  }

  lemma {:induction false} GroupsRoundTrip(b: bytes)
    ensures DecodeGroups(Encode(b)) == Some(b)
  {
    if b == [] {
    } else if |b| == 1 {
      assert b == [b[0]];
      OneByteRoundTrip(b[0]);
    } else if |b| == 2 {
      assert b == [b[0], b[1]];
      TwoBytesRoundTrip(b[0], b[1]);
    } else {
      GroupsRoundTrip(b[3..]);
      ThreeBytesRoundTrip(b[0], b[1], b[2], b[3..]);
      assert b == [b[0], b[1], b[2]] + b[3..];
    }
  }

  /** Decoding undoes encoding. */
  lemma RoundTrip(b: bytes)
    ensures Decode(Encode(b)) == Some(b)
  {
    forall i | 0 <= i < |Encode(b)| ensures InAlphabet(Encode(b)[i]) {
      EncodeUsesAlphabet(b, i);
    }
    StripNothing(Encode(b));
    GroupsRoundTrip(b);
  }

  /** Two digits that agree except in their low bits. */
  predicate SameHighBits(c: char, d: char, unused: nat)
    requires unused > 0
  {
    Value(c).Some? && Value(d).Some? && Value(c).value / unused == Value(d).value / unused
  }

  /** `t` is the encoding of `b`, group by group, but for the unused bits of the last digit. */
  predicate Spells(t: string, b: bytes) {
    var e := Encode(b);
    if b == [] then t == ""
    else if |b| == 1 then |t| == 4 && t[0] == e[0] && SameHighBits(t[1], e[1], 16) && t[2..] == "=="
    else if |b| == 2 then |t| == 4 && t[..2] == e[..2] && SameHighBits(t[2], e[2], 4) && t[3] == '='
    else |t| >= 4 && t[..4] == e[..4] && Spells(t[4..], b[3..])
  }

  lemma ValueDigit(c: char)
    requires Value(c).Some?
    ensures Digit(Value(c).value) == c
  {
  }

  lemma SplitUndoesJoin(x: Sextets)
    requires Small(x)
    ensures Split(Join(x).0, Join(x).1, Join(x).2) == x
  {
    HighAndLow(x.v0, x.v1 / 16, 4);
    HighAndLow(x.v1 % 16, x.v2 / 4, 16);
  }

  /** Which digits give these bytes: for three bytes one choice, for fewer the unused bits are free. */
  lemma JoinExactly(x: Sextets, b0: byte, b1: byte, b2: byte)
    requires Small(x)
    ensures Join(x) == (b0, b1, b2) <==> x == Split(b0, b1, b2)
  {
    SplitUndoesJoin(x);
    JoinUndoesSplit(b0, b1, b2);
  }

  lemma JoinTwoExactly(x: Sextets, b0: byte, b1: byte)
    requires Small(x)
    ensures
      var y := Split(b0, b1, 0);
      Join(x).0 == b0 && Join(x).1 == b1 <==> x.v0 == y.v0 && x.v1 == y.v1 && x.v2 / 4 == y.v2 / 4
  {
    HighAndLow(x.v0, x.v1 / 16, 4);
    HighAndLow(x.v1 % 16, x.v2 / 4, 16);
    HighAndLow(b0 % 4, b1 / 16, 16);
    HighAndLow(b1 % 16, 0, 4);
  }

  lemma JoinOneExactly(x: Sextets, b0: byte)
    requires Small(x)
    ensures
      var y := Split(b0, 0, 0);
      Join(x).0 == b0 <==> x.v0 == y.v0 && x.v1 / 16 == y.v1 / 16
  {
    HighAndLow(x.v0, x.v1 / 16, 4);
    HighAndLow(b0 % 4, 0, 16);
  }

  /** Two digits are the same exactly when their values are. */
  lemma DigitExactly(c: char, v: nat)
    requires v < 64
    ensures c == Digit(v) <==> Value(c) == Some(v)
  {
  }

  lemma OneByteExactly(t: string, b0: byte)
    requires |t| == 4 && t[2] == '=' && t[3] == '='
    ensures DecodeGroups(t) == Some([b0]) <==> Spells(t, [b0])
  {
    var v0, v1 := Value(t[0]), Value(t[1]);
    var y := Split(b0, 0, 0);
    DigitExactly(t[0], y.v0);
    DigitValue(y.v1);
    if v0.Some? && v1.Some? {
      JoinOneExactly(Sextets(v0.value, v1.value, 0, 0), b0);
    }
  }

  lemma TwoBytesExactly(t: string, b0: byte, b1: byte)
    requires |t| == 4 && t[2] != '=' && t[3] == '='
    ensures DecodeGroups(t) == Some([b0, b1]) <==> Spells(t, [b0, b1])
  {
    var v0, v1, v2 := Value(t[0]), Value(t[1]), Value(t[2]);
    var y := Split(b0, b1, 0);
    DigitExactly(t[0], y.v0);
    DigitExactly(t[1], y.v1);
    DigitValue(y.v2);
    assert t[..2] == [t[0], t[1]] && Encode([b0, b1])[..2] == [Digit(y.v0), Digit(y.v1)];
    if v0.Some? && v1.Some? && v2.Some? {
      JoinTwoExactly(Sextets(v0.value, v1.value, v2.value, 0), b0, b1);
    }
  }

  /** A full group decodes to three bytes exactly when it is their encoding. */
  lemma FullGroupExactly(t: string, b0: byte, b1: byte, b2: byte)
    requires |t| >= 4 && t[2] != '=' && t[3] != '='
    ensures
      var v0, v1, v2, v3 := Value(t[0]), Value(t[1]), Value(t[2]), Value(t[3]);
      var y := Split(b0, b1, b2);
      v0.Some? && v1.Some? && v2.Some? && v3.Some? &&
      Join(Sextets(v0.value, v1.value, v2.value, v3.value)) == (b0, b1, b2) <==>
      t[..4] == [Digit(y.v0), Digit(y.v1), Digit(y.v2), Digit(y.v3)]
  {
    var v0, v1, v2, v3 := Value(t[0]), Value(t[1]), Value(t[2]), Value(t[3]);
    var y := Split(b0, b1, b2);
    DigitExactly(t[0], y.v0);
    DigitExactly(t[1], y.v1);
    DigitExactly(t[2], y.v2);
    DigitExactly(t[3], y.v3);
    if v0.Some? && v1.Some? && v2.Some? && v3.Some? {
      JoinExactly(Sextets(v0.value, v1.value, v2.value, v3.value), b0, b1, b2);
    }
  }

  /** How an encoding of at least three bytes begins. */
  lemma EncodeFullGroup(b: bytes)
    requires |b| >= 3
    ensures
      var y := Split(b[0], b[1], b[2]);
      Encode(b)[..4] == [Digit(y.v0), Digit(y.v1), Digit(y.v2), Digit(y.v3)] &&
      Digit(y.v2) != '=' && Digit(y.v3) != '='
  {
    var y := Split(b[0], b[1], b[2]);
    DigitValue(y.v2);
    DigitValue(y.v3);
  }

  /** The padding of a group tells how many bytes it is spelled from. */
  lemma SpellingLength(t: string, b: bytes)
    requires Spells(t, b) && b != []
    ensures |t| >= 4
    ensures |b| == 1 <==> t[2] == '=' && t[3] == '='
    ensures |b| == 2 <==> t[2] != '=' && t[3] == '='
    ensures |b| <= 2 ==> |t| == 4
  {
    if |b| >= 3 {
      EncodeFullGroup(b);
      assert t[..4][2] == t[2] && t[..4][3] == t[3];
    }
  }

  lemma DecodedLength(t: string)
    requires DecodeGroups(t).Some? && DecodeGroups(t).value != []
    ensures |t| >= 4
    ensures |DecodeGroups(t).value| == 1 <==> t[2] == '=' && t[3] == '='
    ensures |DecodeGroups(t).value| == 2 <==> t[2] != '=' && t[3] == '='
    ensures |DecodeGroups(t).value| <= 2 ==> |t| == 4
  {
  }

  lemma PrependedExactly(x: (byte, byte, byte), rest: bytes, b: bytes)
    requires |b| >= 3
    ensures [x.0, x.1, x.2] + rest == b <==> x == (b[0], b[1], b[2]) && rest == b[3..]
  {
    var c := [x.0, x.1, x.2] + rest;
    assert c[3..] == rest && b == [b[0], b[1], b[2]] + b[3..];
  }

  lemma LongerDecodes(t: string, b: bytes)
    requires |t| >= 4 && t[2] != '=' && t[3] != '=' && |b| >= 3
    ensures
      var v0, v1, v2, v3 := Value(t[0]), Value(t[1]), Value(t[2]), Value(t[3]);
      DecodeGroups(t) == Some(b) <==>
        && v0.Some? && v1.Some? && v2.Some? && v3.Some?
        && Join(Sextets(v0.value, v1.value, v2.value, v3.value)) == (b[0], b[1], b[2])
        && DecodeGroups(t[4..]) == Some(b[3..])
  {
    var v0, v1, v2, v3 := Value(t[0]), Value(t[1]), Value(t[2]), Value(t[3]);
    var rest := DecodeGroups(t[4..]);
    if v0.Some? && v1.Some? && v2.Some? && v3.Some? && rest.Some? {
      var x := Join(Sextets(v0.value, v1.value, v2.value, v3.value));
      assert DecodeGroups(t) == Some([x.0, x.1, x.2] + rest.value);
      PrependedExactly(x, rest.value, b);
    }
  }

  lemma LongerExactly(t: string, b: bytes)
    requires |t| >= 4 && t[2] != '=' && t[3] != '=' && |b| >= 3
    requires DecodeGroups(t[4..]) == Some(b[3..]) <==> Spells(t[4..], b[3..])
    ensures DecodeGroups(t) == Some(b) <==> Spells(t, b)
  {
    LongerDecodes(t, b);
    FullGroupExactly(t, b[0], b[1], b[2]);
    assert Spells(t, b) <==> t[..4] == Encode(b)[..4] && Spells(t[4..], b[3..]);
    assert Encode(b)[..4] == [Digit(Split(b[0], b[1], b[2]).v0), Digit(Split(b[0], b[1], b[2]).v1),
                              Digit(Split(b[0], b[1], b[2]).v2), Digit(Split(b[0], b[1], b[2]).v3)] by {
      EncodeFullGroup(b);
    }
  }

  lemma {:induction false} GroupsExactly(t: string, b: bytes)
    ensures DecodeGroups(t) == Some(b) <==> Spells(t, b)
    decreases |t|
  {
    if Spells(t, b) && b != [] {
      SpellingLength(t, b);
    }
    if DecodeGroups(t) == Some(b) && b != [] {
      DecodedLength(t);
    }
    if |b| == 1 && |t| == 4 && t[2] == '=' && t[3] == '=' {
      OneByteExactly(t, b[0]);
      assert b == [b[0]];
    } else if |b| == 2 && |t| == 4 && t[2] != '=' && t[3] == '=' {
      TwoBytesExactly(t, b[0], b[1]);
      assert b == [b[0], b[1]];
    } else if |b| >= 3 && |t| >= 4 && t[2] != '=' && t[3] != '=' {
      GroupsExactly(t[4..], b[3..]);
      LongerExactly(t, b);
    }
  }

  /** Exactly the encodings decode, each to what it encodes: but for line breaks, and for the unused bits of the last
      digit, nothing is read that was not written by `Encode`. */
  lemma DecodeExactly(s: string, b: bytes)
    ensures Decode(s) == Some(b) <==> Spells(StripLineBreaks(s), b)
  {
    GroupsExactly(StripLineBreaks(s), b);
  }

  /** Stripping removes the line breaks and nothing else: character by character, wherever they are. */
  lemma {:induction false} StripConcat(a: string, b: string)
    ensures StripLineBreaks(a + b) == StripLineBreaks(a) + StripLineBreaks(b)
  {
    if a == "" {
      assert a + b == b;
    } else {
      StripConcat(a[1..], b);
      assert (a + b)[0] == a[0] && (a + b)[1..] == a[1..] + b;
      Regroup([a[0]], StripLineBreaks(a[1..]), StripLineBreaks(b));
    }
  }

  lemma Regroup(x: string, y: string, z: string)
    ensures x + (y + z) == x + y + z
  {
  }

  lemma StripOne(c: char)
    ensures StripLineBreaks([c]) == if c == '\n' || c == '\r' then "" else [c]
  {
    assert [c][1..] == "";
  }

  /** The four digits of a group hold the bits of its three bytes, in order. */
  lemma SplitKeepsBits(b0: byte, b1: byte, b2: byte)
    ensures
      var x := Split(b0, b1, b2);
      var high: nat, middle: nat, low: nat := b0, b1, b2;
      x.v0 * 0x4_0000 + x.v1 * 0x1000 + x.v2 * 0x40 + x.v3 == high * 0x1_0000 + middle * 0x100 + low
  {
  }
}
