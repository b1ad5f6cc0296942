/** Nonce use over whole runs of a pair of complementary sessions. */
module Nonces {
  import opened Prelude
  import opened Sessions
  import opened Handshakes
  import Channel

  /** Which end encrypts next. */
  datatype Side = First | Second

  datatype Pair = Pair(first: State, second: State)

  /** The two ends after the first `n` encryptions of the run. */
  function StatesAfter(p: Pair, run: seq<Side>, n: nat): Pair
    requires n <= |run|
  {
    if n == 0 then p
    else
      var q := StatesAfter(p, run, n - 1);
      if run[n - 1] == First then q.(first := Advance(q.first)) else q.(second := Advance(q.second))
  }

  /** The nonce of encryption number `i`, counted from 0. */
  function NonceAt(p: Pair, run: seq<Side>, i: nat): bytes
    requires i < |run|
  {
    var q := StatesAfter(p, run, i);
    NextNonce(if run[i] == First then q.first else q.second)
  }

  /** A count on 64 bits: the counter after `n` encryptions. */
  function Wrap(n: nat): uint64 {
    if n == 0 then 0 else Successor(Wrap(n - 1))
  }

  lemma {:induction false} WrapIsModulo(n: nat)
    ensures Wrap(n) == n % UINT64_LIMIT
  {
    if n > 0 {
      WrapIsModulo(n - 1);
    }
  }

  lemma WrapDistinct(m: nat, n: nat)
    requires 1 <= m < n <= UINT64_LIMIT
    ensures Wrap(m) != Wrap(n)
  {
    WrapIsModulo(m);
    WrapIsModulo(n);
  }

  lemma WrapRepeats()
    ensures Wrap(1) == Wrap(UINT64_LIMIT + 1)
  {
    WrapIsModulo(1);
    WrapIsModulo(UINT64_LIMIT + 1);
  }

  /** How many of the first `n` encryptions are by `side`. */
  function Count(run: seq<Side>, n: nat, side: Side): nat
    requires n <= |run|
  {
    if n == 0 then 0 else Count(run, n - 1, side) + (if run[n - 1] == side then 1 else 0)
  }

  lemma {:induction false} CountersCount(p: Pair, run: seq<Side>, n: nat)
    requires p.first.sendCtr == 0 && p.second.sendCtr == 0 && n <= |run|
    ensures
      var q := StatesAfter(p, run, n);
      && q.first == p.first.(sendCtr := Wrap(Count(run, n, First)))
      && q.second == p.second.(sendCtr := Wrap(Count(run, n, Second)))
  {
    if n > 0 {
      CountersCount(p, run, n - 1);
    }
  }

  /** Each encryption carries the number of encryptions that its side has made by then, on 64 bits. */
  lemma {:induction false} NonceCounts(p: Pair, run: seq<Side>, i: nat)
    requires Complementary(p.first, p.second) && i < |run|
    ensures
      var dir := if run[i] == First then p.first.sendDir else p.second.sendDir;
      NonceAt(p, run, i) == Nonce(dir, Wrap(Count(run, i + 1, run[i])))
  {
    CountersCount(p, run, i);
  }

  lemma NonceInjective(d: byte, c: uint64, d': byte, c': uint64)
    ensures Nonce(d, c) == Nonce(d', c') <==> d == d' && c == c'
  {
    if Nonce(d, c) == Nonce(d', c') {
      assert Nonce(d, c)[0] == d && Nonce(d', c')[0] == d';
      Channel.CounterOfNonce(d, c);
      Channel.CounterOfNonce(d', c');
    }
  }

  lemma {:induction false} CountGrows(run: seq<Side>, i: nat, j: nat, side: Side)
    requires i <= j <= |run|
    ensures Count(run, i, side) <= Count(run, j, side)
    ensures i < j && run[j - 1] == side ==> Count(run, i, side) < Count(run, j, side)
    decreases j
  {
    if i < j {
      CountGrows(run, i, j - 1, side);
    }
  }

  /** The encryption with which a side's count reaches `c`. */
  lemma {:induction false} CountReached(run: seq<Side>, n: nat, side: Side, c: nat) returns (i: nat)
    requires n <= |run| && 1 <= c <= Count(run, n, side)
    ensures i < n && run[i] == side && Count(run, i + 1, side) == c
    decreases n
  {
    if Count(run, n - 1, side) >= c {
      i := CountReached(run, n - 1, side, c);
    } else {
      i := n - 1;
    }
  }

  ghost predicate AllDistinct(p: Pair, run: seq<Side>) {
    forall i, j | 0 <= i < j < |run| :: NonceAt(p, run, i) != NonceAt(p, run, j)
  }

  lemma {:induction false} CountsDiffer(run: seq<Side>, i: nat, j: nat)
    requires i < j < |run| && run[i] == run[j]
    ensures 1 <= Count(run, i + 1, run[i]) < Count(run, j + 1, run[i]) <= Count(run, |run|, run[i])
  {
    CountGrows(run, 0, i + 1, run[i]);
    CountGrows(run, i + 1, j + 1, run[i]);
    CountGrows(run, j + 1, |run|, run[i]);
  }

  lemma ShortRunsAreDistinct(p: Pair, run: seq<Side>, i: nat, j: nat)
    requires Complementary(p.first, p.second) && i < j < |run|
    requires Count(run, |run|, First) <= UINT64_LIMIT && Count(run, |run|, Second) <= UINT64_LIMIT
    ensures NonceAt(p, run, i) != NonceAt(p, run, j)
  {
    var di := if run[i] == First then p.first.sendDir else p.second.sendDir;
    var dj := if run[j] == First then p.first.sendDir else p.second.sendDir;
    NonceCounts(p, run, i);
    NonceCounts(p, run, j);
    NonceInjective(di, Wrap(Count(run, i + 1, run[i])), dj, Wrap(Count(run, j + 1, run[j])));
    if run[i] == run[j] {
      CountsDiffer(run, i, j);
      WrapDistinct(Count(run, i + 1, run[i]), Count(run, j + 1, run[j]));
    }
  }

  lemma LongRunsRepeat(p: Pair, run: seq<Side>, side: Side)
    requires Complementary(p.first, p.second) && Count(run, |run|, side) > UINT64_LIMIT
    ensures !AllDistinct(p, run)
  {
    var i := CountReached(run, |run|, side, 1);
    var j := CountReached(run, |run|, side, UINT64_LIMIT + 1);
    NonceCounts(p, run, i);
    NonceCounts(p, run, j);
    WrapRepeats();
    assert NonceAt(p, run, i) == NonceAt(p, run, j);
    assert i != j;
  }

  /** Nonce uniqueness, exactly: over a run of encryptions by the two ends in any order, no nonce is used twice, on
      either side or across the two, if and only if neither side encrypts more than 2^64 times. */
  lemma NoncesDistinctExactly(p: Pair, run: seq<Side>)
    requires Complementary(p.first, p.second)
    ensures AllDistinct(p, run) <==>
            Count(run, |run|, First) <= UINT64_LIMIT && Count(run, |run|, Second) <= UINT64_LIMIT
  {
    if Count(run, |run|, First) > UINT64_LIMIT {
      LongRunsRepeat(p, run, First);
    } else if Count(run, |run|, Second) > UINT64_LIMIT {
      LongRunsRepeat(p, run, Second);
    } else {
      forall i, j | 0 <= i < j < |run| ensures NonceAt(p, run, i) != NonceAt(p, run, j) {
        ShortRunsAreDistinct(p, run, i, j);
      }
    }
  }
}
