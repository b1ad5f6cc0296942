/** Byte-lexicographic comparison, a total order on byte strings. */
module ByteOrder {
  import opened Prelude

  function Compare(a: bytes, b: bytes): (r: int)
    ensures r == -1 || r == 0 || r == 1
  {
    if a == [] then (if b == [] then 0 else -1)
    else if b == [] then 1
    else if a[0] < b[0] then -1
    else if a[0] > b[0] then 1
    else Compare(a[1..], b[1..])
  }

  lemma {:induction false} CompareIsAntisymmetric(a: bytes, b: bytes)
    ensures Compare(b, a) == -Compare(a, b)
    ensures Compare(a, b) == 0 <==> a == b
  {
    if a != [] && b != [] && a[0] == b[0] {
      CompareIsAntisymmetric(a[1..], b[1..]);
      assert a == [a[0]] + a[1..] && b == [b[0]] + b[1..];
    }
  }

  lemma {:induction false} CompareIsTransitive(a: bytes, b: bytes, c: bytes)
    requires Compare(a, b) <= 0 && Compare(b, c) <= 0
    ensures Compare(a, c) <= 0
  {
    if a != [] && b != [] && c != [] && a[0] == b[0] && b[0] == c[0] {
      CompareIsTransitive(a[1..], b[1..], c[1..]);
    }
  }

  /** `a` and `b` agree on the first `k` bytes, and there `a` has ended or has the lower byte. */
  predicate BelowAt(a: bytes, b: bytes, k: nat) {
    k <= |a| && k < |b| && a[..k] == b[..k] && (k == |a| || a[k] < b[k])
  }

  /** The order is that of the first difference, and a proper prefix comes first. */
  lemma {:induction false} CompareExactly(a: bytes, b: bytes)
    ensures Compare(a, b) == -1 <==> exists k: nat :: BelowAt(a, b, k)
  {
    if a == [] {
      assert b != [] ==> BelowAt(a, b, 0);
    } else if b != [] {
      assert a[0] < b[0] ==> BelowAt(a, b, 0);
      CompareExactly(a[1..], b[1..]);
      forall k: nat | k >= 1 ensures BelowAt(a, b, k) <==> a[0] == b[0] && BelowAt(a[1..], b[1..], k - 1) {
        if k <= |a| && k < |b| {
          assert a[..k] == [a[0]] + a[1..][..k - 1] && b[..k] == [b[0]] + b[1..][..k - 1];
        }
      }
      if a[0] == b[0] && Compare(a[1..], b[1..]) == -1 {
        var k: nat :| BelowAt(a[1..], b[1..], k);
        assert BelowAt(a, b, k + 1);
      }
      assert forall k: nat | k >= 1 && BelowAt(a, b, k) :: BelowAt(a[1..], b[1..], k - 1);
    }
  }

  /** Two byte strings in order. */
  function Sorted(a: bytes, b: bytes): (bytes, bytes) {
    if Compare(b, a) < 0 then (b, a) else (a, b)
  }

  predicate SamePair(a: bytes, b: bytes, c: bytes, d: bytes) {
    (a == c && b == d) || (a == d && b == c)
  }

  /** Sorting gives the same two strings, the lower one first. */
  lemma SortedInOrder(a: bytes, b: bytes)
    ensures var (low, high) := Sorted(a, b); Compare(low, high) <= 0 && SamePair(low, high, a, b)
  {
    CompareIsAntisymmetric(a, b);
  }

  /** Sorting forgets the order of a pair and nothing else. */
  lemma SortedExactly(a: bytes, b: bytes, c: bytes, d: bytes)
    ensures Sorted(a, b) == Sorted(c, d) <==> SamePair(a, b, c, d)
  {
    CompareIsAntisymmetric(a, b);
    CompareIsAntisymmetric(c, d);
  }
}
