/** The safety number: a short fingerprint of two identity keys that both sides can compare by eye. */
module SafetyNumbers {
  import opened Prelude
  import opened ByteOrder
  import opened Integers
  import opened Splitting

  const SAFETY_NUMBER_GROUPS := 12

  /** "agdas-safety-number-v1" */
  const DOMAIN: bytes :=
    [97, 103, 100, 97, 115, 45, 115, 97, 102, 101, 116, 121, 45, 110, 117, 109, 98, 101, 114, 45, 118, 49]

  datatype Key = Key(keyType: nat, raw: bytes)

  datatype Entry = Entry(id: bytes, key: Key)

  /** A key as the peerstore has it; its raw bytes may be out of reach. */
  datatype StoredKey = StoredKey(keyType: nat, raw: Option<bytes>)

  datatype Problem =
    | NoPeerstore
    | SamePeer
    | LocalKeyMissing
    | RemoteKeyMissing
    | LocalKeyUnreadable
    | RemoteKeyUnreadable

  /** What stands in the way of a safety number, the first problem first. */
  function Obstacle(store: Option<map<bytes, StoredKey>>, local: bytes, remote: bytes): (problem: Option<Problem>)
    ensures problem.None? <==>
            && store.Some? && local != remote && local in store.value && remote in store.value
            && store.value[local].raw.Some? && store.value[remote].raw.Some?
  {
    if store.None? then Some(NoPeerstore)
    else if local == remote then Some(SamePeer)
    else if local !in store.value then Some(LocalKeyMissing)
    else if remote !in store.value then Some(RemoteKeyMissing)
    else if store.value[local].raw.None? then Some(LocalKeyUnreadable)
    else if store.value[remote].raw.None? then Some(RemoteKeyUnreadable)
    else None
  }

  function EntryOf(id: bytes, key: StoredKey): Entry
    requires key.raw.Some?
  {
    Entry(id, Key(key.keyType, key.raw.value))
  }

  /** A key with its type and length in front. */
  function Framed(k: Key): bytes {
    BigEndian(k.keyType, 4) + BigEndian(|k.raw|, 4) + k.raw
  }

  function DigestInput(first: Key, second: Key): bytes {
    DOMAIN + Framed(first) + Framed(second)
  }

  /** The two keys in the order of their owners' ids. */
  function Ordered(a: Entry, b: Entry): (Entry, Entry) {
    if Compare(b.id, a.id) < 0 then (b, a) else (a, b)
  }

  function DigitChar(d: nat): char
    requires d < 10
  {
    (d + 48) as char
  }

  predicate IsDigit(c: char) {
    '0' <= c <= '9'
  }

  /** The last `n` decimal digits of `v`, with leading zeros. */
  function Digits(v: nat, n: nat): (s: string)
    ensures |s| == n && forall k | 0 <= k < n :: IsDigit(s[k])
  {
    if n == 0 then "" else Digits(v / 10, n - 1) + [DigitChar(v % 10)]
  }

  /** Five digits from the first four bytes of a hash. SHA-256 always gives at least four. */
  function GroupOf(sum: bytes): (s: string)
    ensures |s| == 5 && forall k | 0 <= k < 5 :: IsDigit(s[k])
  {
    Digits(FromBigEndian(if |sum| >= 4 then sum[..4] else sum) % 100000, 5)
  }

  function Group(sha: bytes -> bytes, seed: bytes, i: nat): (s: string)
    ensures |s| == 5 && forall k | 0 <= k < 5 :: IsDigit(s[k])
  {
    GroupOf(sha(seed + [i % 256]))
  }

  function Groups(sha: bytes -> bytes, seed: bytes, n: nat): (groups: seq<string>)
    ensures |groups| == n
    ensures forall i | 0 <= i < n :: groups[i] == Group(sha, seed, i)
  {
    if n == 0 then [] else Groups(sha, seed, n - 1) + [Group(sha, seed, n - 1)]
  }

  function Fingerprint(sha: bytes -> bytes, local: Entry, remote: Entry): string {
    var (first, second) := Ordered(local, remote);
    Join(Groups(sha, sha(DigestInput(first.key, second.key)), SAFETY_NUMBER_GROUPS), ' ')
  }

  /** Two entries with different ids have one order. */
  lemma OrderIsUnique(a: Entry, b: Entry, first: Entry, second: Entry)
    requires a.id != b.id && multiset{first, second} == multiset{a, b} && Compare(first.id, second.id) <= 0
    ensures Ordered(a, b) == (first, second)
  {
    CompareIsAntisymmetric(a.id, b.id);
    assert first in multiset{a, b} && second in multiset{a, b};
    assert multiset{first, second} - multiset{first} == multiset{a, b} - multiset{first};
  }

  method SortEntries(entries: array<Entry>)
    requires entries.Length == 2
    modifies entries
    ensures Compare(entries[0].id, entries[1].id) <= 0
    ensures multiset{entries[0], entries[1]} == multiset{old(entries[0]), old(entries[1])}
  {
    CompareIsAntisymmetric(entries[0].id, entries[1].id);
    if Compare(entries[1].id, entries[0].id) < 0 {
      entries[0], entries[1] := entries[1], entries[0];
    }
  }

  method FeedDigest(entries: array<Entry>) returns (input: bytes)
    requires entries.Length == 2
    ensures input == DigestInput(entries[0].key, entries[1].key)
  {
    input := DOMAIN;
    for i := 0 to entries.Length
      invariant i == 0 ==> input == DOMAIN
      invariant i == 1 ==> input == DOMAIN + Framed(entries[0].key)
      invariant i == 2 ==> input == DOMAIN + Framed(entries[0].key) + Framed(entries[1].key)
    {
      input := input + Framed(entries[i].key);
    }
  }

  method MakeGroups(sha: bytes -> bytes, seed: bytes) returns (groups: seq<string>)
    ensures groups == Groups(sha, seed, SAFETY_NUMBER_GROUPS)
  {
    groups := [];
    for i := 0 to SAFETY_NUMBER_GROUPS
      invariant groups == Groups(sha, seed, i)
    {
      groups := groups + [Group(sha, seed, i)];
    }
  }

  /** The computation as the program has it: sort two entries in place, feed the digest in a loop, and append the
      groups in a loop. */
  method SafetyNumber(sha: bytes -> bytes, store: Option<map<bytes, StoredKey>>, local: bytes, remote: bytes)
    returns (r: Result<string, Problem>)
    ensures
      match Obstacle(store, local, remote)
      case Some(problem) => r == Err(problem)
      case None => r == Ok(Fingerprint(sha, EntryOf(local, store.value[local]), EntryOf(remote, store.value[remote])))
  {
    if store.None? {
      return Err(NoPeerstore);
    }
    if local == remote {
      return Err(SamePeer);
    }
    var keys := store.value;
    if local !in keys {
      return Err(LocalKeyMissing);
    }
    if remote !in keys {
      return Err(RemoteKeyMissing);
    }
    if keys[local].raw.None? {
      return Err(LocalKeyUnreadable);
    }
    if keys[remote].raw.None? {
      return Err(RemoteKeyUnreadable);
    }
    var entries := new Entry[2][EntryOf(local, keys[local]), EntryOf(remote, keys[remote])];
    SortEntries(entries);
    OrderIsUnique(EntryOf(local, keys[local]), EntryOf(remote, keys[remote]), entries[0], entries[1]);
    var input := FeedDigest(entries);
    var groups := MakeGroups(sha, sha(input));
    return Ok(Join(groups, ' '));
  }

  /** Swapping local and remote gives the same number: both sides see the same one. */
  lemma Symmetric(sha: bytes -> bytes, a: Entry, b: Entry)
    requires a.id != b.id
    ensures Fingerprint(sha, a, b) == Fingerprint(sha, b, a)
  {
    CompareIsAntisymmetric(a.id, b.id);
  }

  ghost predicate Encodable(k: Key) {
    k.keyType < UINT32_LIMIT && |k.raw| < UINT32_LIMIT
  }

  /** A framed key is readable from the front: nothing that follows can be taken for part of it. */
  lemma FramedIsPrefixFree(k: Key, more: bytes, k': Key, more': bytes)
    requires Encodable(k) && Encodable(k')
    requires Framed(k) + more == Framed(k') + more'
    ensures k == k' && more == more'
  {
    var t, t' := Framed(k) + more, Framed(k') + more';
    Pow256Of4And8();
    assert t[..4] == BigEndian(k.keyType, 4) && t'[..4] == BigEndian(k'.keyType, 4);
    BigEndianInjective(k.keyType, k'.keyType, 4);
    assert t[4..8] == BigEndian(|k.raw|, 4) && t'[4..8] == BigEndian(|k'.raw|, 4);
    BigEndianInjective(|k.raw|, |k'.raw|, 4);
    assert t[8..8 + |k.raw|] == k.raw && t'[8..8 + |k.raw|] == k'.raw;
    assert t[8 + |k.raw|..] == more && t'[8 + |k.raw|..] == more';
  }

  /** The hashed input determines both keys, types included: no two pairs share an input. */
  lemma DigestInputInjective(a: Key, b: Key, a': Key, b': Key)
    requires Encodable(a) && Encodable(b) && Encodable(a') && Encodable(b')
    ensures DigestInput(a, b) == DigestInput(a', b') <==> a == a' && b == b'
  {
    if DigestInput(a, b) == DigestInput(a', b') {
      var n := |DOMAIN|;
      assert DigestInput(a, b)[n..] == Framed(a) + Framed(b);
      assert DigestInput(a', b')[n..] == Framed(a') + Framed(b');
      FramedIsPrefixFree(a, Framed(b), a', Framed(b'));
      assert Framed(b) + [] == Framed(b) && Framed(b') + [] == Framed(b');
      FramedIsPrefixFree(b, [], b', []);
    }
  }

  lemma {:induction false} GroupsSplit(sha: bytes -> bytes, seed: bytes, n: nat)
    requires n >= 1
    ensures SplitOn(Join(Groups(sha, seed, n), ' '), ' ') == Groups(sha, seed, n)
  {
    SplitUndoesJoin(Groups(sha, seed, n), ' ');
  }

  /** The number that decimal digits stand for. */
  function ReadDecimal(s: string): nat
    requires forall k | 0 <= k < |s| :: IsDigit(s[k])
  {
    if s == "" then 0
    else
      assert IsDigit(s[|s| - 1]);
      var last: nat := s[|s| - 1] as int - '0' as int;
      10 * ReadDecimal(s[..|s| - 1]) + last
  }

  function Pow10(n: nat): nat {
    if n == 0 then 1 else 10 * Pow10(n - 1)
  }

  lemma {:induction false} DigitsRead(v: nat, n: nat)
    requires v < Pow10(n)
    ensures ReadDecimal(Digits(v, n)) == v
  {
    if n > 0 {
      DigitsRead(v / 10, n - 1);
      var s := Digits(v, n);
      assert s[..n - 1] == Digits(v / 10, n - 1) && s[n - 1] == DigitChar(v % 10);
    }
  }

  /** The first four bytes, the first one highest. */
  function FirstFour(h: bytes): nat
    requires |h| >= 4
  {
    var b0: nat, b1: nat, b2: nat, b3: nat := h[0], h[1], h[2], h[3];
    b0 * 0x1_00_00_00 + b1 * 0x1_00_00 + b2 * 0x1_00 + b3
  }

  lemma FirstFourIsBigEndian(h: bytes)
    requires |h| >= 4
    ensures FromBigEndian(h[..4]) == FirstFour(h)
  {
    var b0: nat, b1: nat, b2: nat := h[0], h[1], h[2];
    assert h[..4][..3] == h[..3] && h[..3][..2] == h[..2] && h[..2][..1] == h[..1] && h[..1][..0] == [];
    assert FromBigEndian(h[..1]) == b0;
    assert FromBigEndian(h[..2]) == 256 * b0 + b1;
    assert FromBigEndian(h[..3]) == 256 * (256 * b0 + b1) + b2;
  }

  /** Five digits that read as the first four bytes of the hash modulo 100000. */
  predicate IsGroupOf(group: string, h: bytes) {
    && |group| == 5 && (forall k | 0 <= k < 5 :: IsDigit(group[k]))
    && |h| >= 4 && ReadDecimal(group) == FirstFour(h) % 100000
  }

  lemma GroupReads(h: bytes)
    requires |h| >= 4
    ensures IsGroupOf(GroupOf(h), h)
  {
    FirstFourIsBigEndian(h);
    assert Pow10(5) == 100000;
    DigitsRead(FirstFour(h) % 100000, 5);
  }

  ghost predicate AreGroupsOf(groups: seq<string>, sha: bytes -> bytes, seed: bytes, n: nat)
    requires n <= 256
  {
    |groups| == n && forall i | 0 <= i < n :: IsGroupOf(groups[i], sha(seed + [i]))
  }

  lemma GroupRead(sha: bytes -> bytes, seed: bytes, i: byte)
    requires |sha(seed + [i])| == 32
    ensures IsGroupOf(Group(sha, seed, i), sha(seed + [i]))
  {
    GroupReads(sha(seed + [i]));
    assert i % 256 == i;
  }

  lemma GroupsRead(sha: bytes -> bytes, seed: bytes, n: nat)
    requires n <= 256 && forall input :: |sha(input)| == 32
    ensures AreGroupsOf(Groups(sha, seed, n), sha, seed, n)
  {
    forall i | 0 <= i < n ensures IsGroupOf(Groups(sha, seed, n)[i], sha(seed + [i])) {
      GroupRead(sha, seed, i);
    }
  }

  /** The number always splits on spaces into exactly twelve groups of five digits. */
  lemma SplitsIntoGroups(sha: bytes -> bytes, a: Entry, b: Entry)
    ensures
      var groups := SplitOn(Fingerprint(sha, a, b), ' ');
      && |groups| == SAFETY_NUMBER_GROUPS
      && forall i | 0 <= i < SAFETY_NUMBER_GROUPS :: |groups[i]| == 5 && forall k | 0 <= k < 5 :: IsDigit(groups[i][k])
  {
    var (first, second) := Ordered(a, b);
    var seed := sha(DigestInput(first.key, second.key));
    GroupsSplit(sha, seed, SAFETY_NUMBER_GROUPS);
  }

  /** With a hash of 32 bytes, each of the twelve groups reads as the first four bytes of its own hash modulo 100000. */
  lemma GroupsReadAsHashes(sha: bytes -> bytes, a: Entry, b: Entry)
    requires forall input :: |sha(input)| == 32
    ensures
      var (first, second) := Ordered(a, b);
      AreGroupsOf(SplitOn(Fingerprint(sha, a, b), ' '), sha, sha(DigestInput(first.key, second.key)), 12)
  {
    var (first, second) := Ordered(a, b);
    var seed := sha(DigestInput(first.key, second.key));
    GroupsSplit(sha, seed, 12);
    GroupsRead(sha, seed, 12);
  }
}
