/** The identifier that both ends of a conversation compute, and by which the receiver knows that an envelope
    was meant for it. */
module Conversations {
  import opened Prelude
  import opened ByteOrder

  /** What is hashed for two peer ids. */
  function DigestInput(first: bytes, second: bytes): bytes {
    var (low, high) := Sorted(first, second);
    low + [BAR] + high
  }

  /** `digest` stands for the truncated hash and its text encoding. */
  function ConversationId(digest: bytes -> string, first: bytes, second: bytes): string {
    digest(DigestInput(first, second))
  }

  /** A byte string splits at the only separator in it in one way. */
  lemma SplitsOnce(a: bytes, b: bytes, c: bytes, d: bytes)
    requires BAR !in a && BAR !in c
    requires a + [BAR] + b == c + [BAR] + d
    ensures a == c && b == d
  {
    var s, t := a + [BAR] + b, c + [BAR] + d;
    assert s[|a|] == BAR && t[|c|] == BAR;
    assert forall i | 0 <= i < |a| :: s[i] == a[i];
    assert forall i | 0 <= i < |c| :: t[i] == c[i];
    assert |a| == |c|;
    assert s[..|a|] == a && t[..|a|] == c;
    assert s[|a| + 1..] == b && t[|a| + 1..] == d;
  }

  /** The hashed input stands for the unordered pair: both ends compute the same, and, since peer ids are written in
      base 58, without the separator, no other pair shares it. */
  lemma InputDeterminesPair(a: bytes, b: bytes, c: bytes, d: bytes)
    requires BAR !in a && BAR !in b && BAR !in c && BAR !in d
    ensures DigestInput(a, b) == DigestInput(c, d) <==> SamePair(a, b, c, d)
  {
    SortedExactly(a, b, c, d);
    var (low, high) := Sorted(a, b);
    var (low', high') := Sorted(c, d);
    if DigestInput(a, b) == DigestInput(c, d) {
      SplitsOnce(low, high, low', high');
    }
  }

  /** Both peers compute the same identifier, whatever their ids are made of. */
  lemma BothEndsAgree(digest: bytes -> string, a: bytes, b: bytes)
    ensures ConversationId(digest, a, b) == ConversationId(digest, b, a)
  {
    SortedExactly(a, b, b, a);
  }
}
