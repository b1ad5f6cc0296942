/** The 64-packet replay window: one 64-bit word whose bit `i` stands for the counter `recvMax - i`. */
module ReplayWindow {
  import opened Prelude
  import opened Words

  const REPLAY_WINDOW_BITS := 64

  datatype Window = Window(recvMax: uint64, bits: uint64)

  const FRESH := Window(0, 0)

  lemma OrOfWords(a: uint64, b: uint64)
    ensures Or(a, b) < UINT64_LIMIT
  {
    Pow2Of64();
    OrIsAWord(a, b, 64);
  }

  predicate Accepts(w: Window, ctr: uint64) {
    || ctr > w.recvMax
    || (w.recvMax - ctr < REPLAY_WINDOW_BITS && And(w.bits, ShiftLeft(1, w.recvMax - ctr)) == 0)
  }

  /** The window after an arriving counter, accepted or not. */
  function Update(w: Window, ctr: uint64): Window {
    if ctr > w.recvMax then
      var shift := ctr - w.recvMax;
      var shifted := if shift >= REPLAY_WINDOW_BITS then 0 else ShiftLeft(w.bits, shift);
      OrOfWords(shifted, 1);
      Window(ctr, Or(shifted, 1))
    else if Accepts(w, ctr) then
      var mask := ShiftLeft(1, w.recvMax - ctr);
      OrOfWords(w.bits, mask);
      w.(bits := Or(w.bits, mask))
    else
      w
  }

  /** The window stands for a set of counters: none above `recvMax`, and of the 64 from `recvMax` down, bit `i`
      is set exactly when `recvMax - i` is in the set. */
  ghost predicate Represents(w: Window, accepted: set<nat>) {
    && (forall c | c in accepted :: c <= w.recvMax)
    && (w.recvMax == 0 || w.recvMax in accepted)
    && (forall i | 0 <= i < REPLAY_WINDOW_BITS :: Bit(w.bits, i) <==> w.recvMax - i in accepted)
  }

  /** A counter is accepted exactly when it is new and is above `recvMax` or less than 64 below it. */
  lemma AcceptsExactlyTheNew(w: Window, accepted: set<nat>, ctr: uint64)
    requires Represents(w, accepted)
    ensures Accepts(w, ctr) <==> ctr !in accepted && ctr + REPLAY_WINDOW_BITS > w.recvMax
  {
    if ctr <= w.recvMax && w.recvMax - ctr < REPLAY_WINDOW_BITS {
      var diff := w.recvMax - ctr;
      MaskIsPow2(diff);
      AndWithMask(w.bits, diff);
      assert Bit(w.bits, diff) <==> w.recvMax - diff in accepted;
    }
  }

  lemma BitOfOne(i: nat)
    ensures Bit(1, i) <==> i == 0
  {
    BitOfMask(0, i);
  }

  lemma RaiseKeepsRepresents(w: Window, accepted: set<nat>, ctr: uint64)
    requires Represents(w, accepted) && ctr > w.recvMax
    ensures Represents(Update(w, ctr), accepted + {ctr})
  {
    var shift := ctr - w.recvMax;
    var shifted := if shift >= REPLAY_WINDOW_BITS then 0 else ShiftLeft(w.bits, shift);
    var t := Update(w, ctr);
    forall i | 0 <= i < REPLAY_WINDOW_BITS ensures Bit(t.bits, i) <==> t.recvMax - i in accepted + {ctr} {
      BitOfOr(shifted, 1, i);
      BitOfOne(i);
      ZeroHasNoBits(i);
      if shift < REPLAY_WINDOW_BITS {
        BitAfterShift(w.bits, shift, i);
        if i >= shift {
          assert Bit(w.bits, i - shift) <==> w.recvMax - (i - shift) in accepted;
        }
      }
    }
  }

  lemma MarkKeepsRepresents(w: Window, accepted: set<nat>, ctr: uint64)
    requires Represents(w, accepted) && ctr <= w.recvMax && Accepts(w, ctr)
    ensures Represents(Update(w, ctr), accepted + {ctr})
  {
    var diff := w.recvMax - ctr;
    var t := Update(w, ctr);
    MaskIsPow2(diff);
    forall i | 0 <= i < REPLAY_WINDOW_BITS ensures Bit(t.bits, i) <==> t.recvMax - i in accepted + {ctr} {
      BitOfOr(w.bits, Pow2(diff), i);
      BitOfMask(diff, i);
    }
  }

  lemma UpdateKeepsRepresents(w: Window, accepted: set<nat>, ctr: uint64)
    requires Represents(w, accepted)
    ensures Represents(Update(w, ctr), accepted + (if Accepts(w, ctr) then {ctr} else {}))
  {
    if ctr > w.recvMax {
      RaiseKeepsRepresents(w, accepted, ctr);
    } else if Accepts(w, ctr) {
      MarkKeepsRepresents(w, accepted, ctr);
    } else {
      assert accepted + {} == accepted;
    }
  }

  // Whole runs of counters.

  function After(ctrs: seq<uint64>): Window {
    if ctrs == [] then FRESH else Update(After(ctrs[..|ctrs| - 1]), ctrs[|ctrs| - 1])
  }

  /** Whether the counter at place `i` of the run was accepted when it came. */
  predicate AcceptedAt(ctrs: seq<uint64>, i: nat)
    requires i < |ctrs|
  {
    Accepts(After(ctrs[..i]), ctrs[i])
  }

  /** The plain specification: the counters accepted so far. */
  ghost function AcceptedSet(ctrs: seq<uint64>): set<nat> {
    set i | 0 <= i < |ctrs| && AcceptedAt(ctrs, i) :: ctrs[i]
  }

  lemma {:induction false} PrefixAccepts(ctrs: seq<uint64>, n: nat, i: nat)
    requires i < n <= |ctrs|
    ensures AcceptedAt(ctrs[..n], i) <==> AcceptedAt(ctrs, i)
  {
    assert ctrs[..n][..i] == ctrs[..i];
  }

  lemma {:induction false} AcceptedSetKeeps(ctrs: seq<uint64>, n: nat)
    requires n <= |ctrs|
    ensures AcceptedSet(ctrs[..n]) <= AcceptedSet(ctrs)
  {
    forall c | c in AcceptedSet(ctrs[..n]) ensures c in AcceptedSet(ctrs) {
      var i :| 0 <= i < n && AcceptedAt(ctrs[..n], i) && ctrs[..n][i] == c;
      PrefixAccepts(ctrs, n, i);
      assert ctrs[i] == c;
    }
  }

  lemma {:induction false} AcceptedSetAdds(ctrs: seq<uint64>, c: nat)
    requires ctrs != [] && c in AcceptedSet(ctrs)
    ensures
      var n := |ctrs| - 1;
      c in AcceptedSet(ctrs[..n]) || (c == ctrs[n] && Accepts(After(ctrs[..n]), ctrs[n]))
  {
    var n := |ctrs| - 1;
    var i :| 0 <= i < |ctrs| && AcceptedAt(ctrs, i) && ctrs[i] == c;
    if i < n {
      PrefixAccepts(ctrs, n, i);
      assert ctrs[..n][i] == c;
    }
  }

  lemma {:induction false} AcceptedSetGrows(ctrs: seq<uint64>)
    requires ctrs != []
    ensures
      var earlier, last := ctrs[..|ctrs| - 1], ctrs[|ctrs| - 1];
      AcceptedSet(ctrs) == AcceptedSet(earlier) + (if Accepts(After(earlier), last) then {last} else {})
  {
    var n := |ctrs| - 1;
    AcceptedSetKeeps(ctrs, n);
    assert AcceptedAt(ctrs, n) ==> ctrs[n] in AcceptedSet(ctrs);
    forall c | c in AcceptedSet(ctrs)
      ensures c in AcceptedSet(ctrs[..n]) || (c == ctrs[n] && Accepts(After(ctrs[..n]), ctrs[n]))
    {
      AcceptedSetAdds(ctrs, c);
    }
  }

  /** The window refines the plain set: after any run, it represents exactly the counters accepted so far. */
  lemma {:induction false} WindowRefinesSet(ctrs: seq<uint64>)
    ensures Represents(After(ctrs), AcceptedSet(ctrs))
  {
    if ctrs == [] {
      forall i | 0 <= i < REPLAY_WINDOW_BITS ensures !Bit(0, i) {
        ZeroHasNoBits(i);
      }
    } else {
      var earlier := ctrs[..|ctrs| - 1];
      WindowRefinesSet(earlier);
      UpdateKeepsRepresents(After(earlier), AcceptedSet(earlier), ctrs[|ctrs| - 1]);
      AcceptedSetGrows(ctrs);
    }
  }

  /** No run of any length accepts the same counter twice. */
  lemma {:induction false} NoCounterTwice(ctrs: seq<uint64>, i: nat, j: nat)
    requires i < j < |ctrs| && ctrs[i] == ctrs[j]
    ensures !(AcceptedAt(ctrs, i) && AcceptedAt(ctrs, j))
  {
    var earlier := ctrs[..j];
    WindowRefinesSet(earlier);
    AcceptsExactlyTheNew(After(earlier), AcceptedSet(earlier), ctrs[j]);
    assert earlier[..i] == ctrs[..i];
    if AcceptedAt(earlier, i) {
      assert earlier[i] in AcceptedSet(earlier);
    }
  }

  /** No counter comes twice, and none comes after one that is 64 or more above it. */
  ghost predicate Tolerable(ctrs: seq<uint64>) {
    forall i, j | 0 <= i < j < |ctrs| :: ctrs[i] != ctrs[j] && ctrs[i] < ctrs[j] + REPLAY_WINDOW_BITS
  }

  ghost predicate AllAccepted(ctrs: seq<uint64>) {
    forall i | 0 <= i < |ctrs| :: AcceptedAt(ctrs, i)
  }

  /** The counter fits the ones before it. */
  ghost predicate Fits(earlier: seq<uint64>, ctr: uint64) {
    forall i | 0 <= i < |earlier| :: earlier[i] != ctr && earlier[i] < ctr + REPLAY_WINDOW_BITS
  }

  lemma {:induction false} AllAcceptedGrows(earlier: seq<uint64>, ctr: uint64)
    ensures AllAccepted(earlier + [ctr]) <==> AllAccepted(earlier) && Accepts(After(earlier), ctr)
  {
    var ctrs, n := earlier + [ctr], |earlier|;
    forall i | 0 <= i < n ensures AcceptedAt(earlier, i) <==> AcceptedAt(ctrs, i) {
      assert earlier[..i] == ctrs[..i];
    }
    assert ctrs[..n] == earlier;
    assert AcceptedAt(ctrs, n) <==> Accepts(After(earlier), ctr);
  }

  lemma {:induction false} TolerableGrows(earlier: seq<uint64>, ctr: uint64)
    ensures Tolerable(earlier + [ctr]) <==> Tolerable(earlier) && Fits(earlier, ctr)
  {
    var ctrs, n := earlier + [ctr], |earlier|;
    assert forall i | 0 <= i < n :: ctrs[i] == earlier[i];
    assert ctrs[n] == ctr;
  }

  /** Reordering tolerance, exactly: a run is accepted in full if and only if its counters are distinct and none
      comes after one that is 64 or more above it. */
  lemma {:induction false} ToleratesExactly(ctrs: seq<uint64>)
    ensures AllAccepted(ctrs) <==> Tolerable(ctrs)
  {
    if ctrs != [] {
      var earlier, last := ctrs[..|ctrs| - 1], ctrs[|ctrs| - 1];
      assert ctrs == earlier + [last];
      ToleratesExactly(earlier);
      AllAcceptedGrows(earlier, last);
      TolerableGrows(earlier, last);
      if AllAccepted(earlier) {
        LastIsAccepted(earlier, last);
      }
    }
  }

  /** After a run that was accepted in full, the next counter is accepted exactly when it fits all the others. */
  lemma {:induction false} LastIsAccepted(earlier: seq<uint64>, ctr: uint64)
    requires AllAccepted(earlier)
    ensures Accepts(After(earlier), ctr) <==> Fits(earlier, ctr)
  {
    var w, accepted := After(earlier), AcceptedSet(earlier);
    WindowRefinesSet(earlier);
    AcceptsExactlyTheNew(w, accepted, ctr);
    assert forall i | 0 <= i < |earlier| :: earlier[i] in accepted;
    if w.recvMax != 0 {
      var i :| 0 <= i < |earlier| && earlier[i] == w.recvMax;
    }
  }
}
