/** Values shared by every other module: optional values, bytes, unsigned 64-bit
    integers and the white-space trimming that the chat and framing code relies on. */
module Prelude {

  datatype Option<+T> = None | Some(value: T)

  datatype Result<+T, +E> = Ok(value: T) | Err(error: E)

  const UINT64_LIMIT: nat := 0x1_0000_0000_0000_0000

  const UINT32_LIMIT: nat := 0x1_0000_0000

  /** The values of a Go `uint64`; arithmetic on them is written out, wrap-around included. */
  type uint64 = n: nat | n < UINT64_LIMIT

  type byte = n: nat | n < 256

  type bytes = seq<byte>

  /** '|', which joins the parts of a hashed text. */
  const BAR: byte := 124

  /** `n + 1` on 64 bits. */
  function Successor(n: uint64): uint64 {
    if n + 1 < UINT64_LIMIT then n + 1 else 0
  }

  /** The characters that `strings.TrimSpace` removes. */
  predicate IsSpace(c: char) {
    || '\t' <= c <= '\r' || c == ' ' || c == '\U{85}' || c == '\U{A0}' || c == '\U{1680}'
    || '\U{2000}' <= c <= '\U{200A}' || c == '\U{2028}' || c == '\U{2029}' || c == '\U{202F}'
    || c == '\U{205F}' || c == '\U{3000}'
  }

  function TrimLeft(s: string): string {
    if s != "" && IsSpace(s[0]) then TrimLeft(s[1..]) else s
  }

  function TrimRight(s: string): string {
    if s != "" && IsSpace(s[|s| - 1]) then TrimRight(s[..|s| - 1]) else s
  }

  function TrimSpace(s: string): string {
    TrimRight(TrimLeft(s))
  }

  /** Blank text is white space throughout; `BlankTrimsToNothing` ties this to the source's test. */
  predicate IsBlank(s: string) {
    forall i | 0 <= i < |s| :: IsSpace(s[i])
  }

  lemma {:induction false} TrimLeftFront(s: string)
    ensures TrimLeft(s) == "" <==> IsBlank(s)
    ensures TrimLeft(s) != "" ==> !IsSpace(TrimLeft(s)[0])
  {
    if s != "" && IsSpace(s[0]) {
      TrimLeftFront(s[1..]);
      assert forall i | 1 <= i < |s| :: s[i] == s[1..][i - 1];
    }
  }

  lemma {:induction false} TrimRightKeepsFront(s: string)
    requires s != "" && !IsSpace(s[0])
    ensures TrimRight(s) != "" && TrimRight(s)[0] == s[0]
  {
    if IsSpace(s[|s| - 1]) {
      TrimRightKeepsFront(s[..|s| - 1]);
    }
  }

  /** A text is blank exactly when nothing is left of it after trimming. */
  lemma BlankTrimsToNothing(s: string)
    ensures IsBlank(s) <==> TrimSpace(s) == ""
  {
    TrimLeftFront(s);
    if TrimLeft(s) != "" {
      TrimRightKeepsFront(TrimLeft(s));
    }
  }

  /** `t` is what lies between places `i` and `j` of `s`, with white space only before and after, none at its ends. */
  predicate IsTrimmed(s: string, t: string, i: nat, j: nat) {
    && i <= j <= |s| && t == s[i..j] && IsBlank(s[..i]) && IsBlank(s[j..])
    && (t != "" ==> !IsSpace(t[0]) && !IsSpace(t[|t| - 1]))
  }

  lemma {:induction false} TrimLeftDrops(s: string) returns (i: nat)
    ensures i <= |s| && TrimLeft(s) == s[i..] && IsBlank(s[..i])
  {
    i := 0;
    if s != "" && IsSpace(s[0]) {
      i := TrimLeftDrops(s[1..]);
      assert s[1..][i..] == s[i + 1..] && s[..i + 1] == [s[0]] + s[1..][..i];
      i := i + 1;
    }
  }

  lemma {:induction false} TrimRightDrops(s: string) returns (j: nat)
    ensures j <= |s| && TrimRight(s) == s[..j] && IsBlank(s[j..])
    ensures j > 0 ==> !IsSpace(s[j - 1])
  {
    j := |s|;
    if s != "" && IsSpace(s[|s| - 1]) {
      j := TrimRightDrops(s[..|s| - 1]);
      assert s[..|s| - 1][..j] == s[..j] && s[j..] == s[..|s| - 1][j..] + [s[|s| - 1]];
    }
  }

  /** Trimming takes the white space off both ends and nothing else. */
  lemma TrimExactly(s: string)
    ensures exists i, j :: IsTrimmed(s, TrimSpace(s), i, j)
  {
    var i := TrimLeftDrops(s);
    var j := TrimRightDrops(s[i..]);
    TrimLeftFront(s);
    assert s[i..][..j] == s[i..i + j] && s[i..][j..] == s[i + j..];
    assert IsTrimmed(s, TrimSpace(s), i, i + j);
  }

  /** Trimming undoes the newline that ends a frame. */
  lemma TrimNewline(s: string)
    requires s != "" ==> !IsSpace(s[0]) && !IsSpace(s[|s| - 1])
    ensures TrimSpace(s + "\n") == s
  {
    var t := s + "\n";
    if s == "" {
      assert t == "\n" && IsSpace(t[0]) && t[1..] == "";
      assert TrimLeft(t) == TrimLeft("") == "";
    } else {
      assert TrimLeft(t) == t && t[..|t| - 1] == s;
      assert TrimRight(t) == TrimRight(s) == s;
    }
  }
}
