/** Splitting a text at a separator, and joining the parts again. */
module Splitting {

  function SplitOn(s: string, separator: char): (parts: seq<string>)
    ensures |parts| >= 1
  {
    if s == "" then [""]
    else if s[0] == separator then [""] + SplitOn(s[1..], separator)
    else var rest := SplitOn(s[1..], separator); [[s[0]] + rest[0]] + rest[1..]
  }

  function Join(parts: seq<string>, separator: char): string {
    if parts == [] then ""
    else if |parts| == 1 then parts[0]
    else parts[0] + [separator] + Join(parts[1..], separator)
  }

  /** No part contains the separator. */
  predicate Clean(parts: seq<string>, separator: char) {
    forall k | 0 <= k < |parts| :: separator !in parts[k]
  }

  lemma {:induction false} SplitWhole(s: string, separator: char)
    requires separator !in s
    ensures SplitOn(s, separator) == [s]
  {
    if s != "" {
      SplitWhole(s[1..], separator);
      assert [s[0]] + s[1..] == s;
    }
  }

  lemma {:induction false} SplitAfterWord(word: string, rest: string, separator: char)
    requires separator !in word
    ensures SplitOn(word + [separator] + rest, separator) == [word] + SplitOn(rest, separator)
  {
    var s := word + [separator] + rest;
    if word == "" {
      assert s[1..] == rest;
    } else {
      SplitAfterWord(word[1..], rest, separator);
      assert s[1..] == word[1..] + [separator] + rest;
      assert [word[0]] + word[1..] == word;
    }
  }

  lemma {:induction false} SplitUndoesJoin(parts: seq<string>, separator: char)
    requires parts != [] && Clean(parts, separator)
    ensures SplitOn(Join(parts, separator), separator) == parts
  {
    if |parts| == 1 {
      SplitWhole(parts[0], separator);
      assert parts == [parts[0]];
    } else {
      SplitUndoesJoin(parts[1..], separator);
      SplitAfterWord(parts[0], Join(parts[1..], separator), separator);
      assert parts == [parts[0]] + parts[1..];
    }
  }

  lemma {:induction false} JoinUndoesSplit(s: string, separator: char)
    ensures Join(SplitOn(s, separator), separator) == s && Clean(SplitOn(s, separator), separator)
  {
    if s != "" {
      var rest := SplitOn(s[1..], separator);
      JoinUndoesSplit(s[1..], separator);
      if s[0] == separator {
        assert ([""] + rest)[1..] == rest;
        assert s == "" + [separator] + s[1..];
      } else {
        var parts := [[s[0]] + rest[0]] + rest[1..];
        assert parts[1..] == rest[1..] && s == [s[0]] + s[1..];
        assert Join(parts, separator) == [s[0]] + Join(rest, separator);
      }
    }
  }

  /** The parts are exactly what the text is joined from: one list, of parts without the separator. */
  lemma SplitExactly(s: string, separator: char, parts: seq<string>)
    ensures SplitOn(s, separator) == parts <==> parts != [] && Clean(parts, separator) && Join(parts, separator) == s
  {
    JoinUndoesSplit(s, separator);
    if parts != [] && Clean(parts, separator) {
      SplitUndoesJoin(parts, separator);
    }
  }

  lemma SplitInTwo(a: string, separator: char, b: string)
    requires separator !in a && separator !in b
    ensures SplitOn(a + [separator] + b, separator) == [a, b]
  {
    SplitAfterWord(a, b, separator);
    SplitWhole(b, separator);
  }
}
