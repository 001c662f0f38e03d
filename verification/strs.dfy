/** The few pieces of Go's `strings` package the receiver relies on, on `seq<char>`. */
module Strs {

  predicate HasSuffix(s: string, suffix: string) {
    |suffix| <= |s| && s[|s| - |suffix|..] == suffix
  }

  /** `strings.TrimSuffix`: drops ONE occurrence of `suffix` at the end, if present. */
  function TrimSuffix(s: string, suffix: string): (r: string)
    ensures HasSuffix(s, suffix) ==> r + suffix == s
    ensures !HasSuffix(s, suffix) ==> r == s
  {
    if HasSuffix(s, suffix) then s[..|s| - |suffix|] else s
  }

  /** `strings.Join` with a one-character separator. */
  function Join(parts: seq<string>, sep: char): string
  {
    if |parts| == 0 then ""
    else if |parts| == 1 then parts[0]
    else parts[0] + [sep] + Join(parts[1..], sep)
  }

  /** `strings.Split` with a one-character separator: the maximal separator-free pieces. */
  function Split(s: string, sep: char): (parts: seq<string>)
    ensures |parts| >= 1
    ensures forall i :: 0 <= i < |parts| ==> sep !in parts[i]
    ensures |parts| == 1 + Occurrences(s, sep)
    decreases |s|
  {
    if |s| == 0 then [""]
    else
      var rest := Split(s[1..], sep);
      if s[0] == sep then [""] + rest
      else [[s[0]] + rest[0]] + rest[1..]
  }

  /** Number of occurrences of `c` in `s`. */
  function Occurrences(s: string, c: char): nat
    decreases |s|
  {
    if |s| == 0 then 0
    else (if s[0] == c then 1 else 0) + Occurrences(s[1..], c)
  }

  /** Prepending a character to the first piece prepends it to the joined string. */
  lemma {:induction false} JoinConsFirst(x: char, parts: seq<string>, sep: char)
    requires |parts| >= 1
    ensures Join([[x] + parts[0]] + parts[1..], sep) == [x] + Join(parts, sep)
  {
    var parts' := [[x] + parts[0]] + parts[1..];
    assert parts'[1..] == parts[1..];
    if |parts| == 1 {
    } else {
      assert Join(parts', sep) == ([x] + parts[0]) + [sep] + Join(parts[1..], sep);
      assert Join(parts, sep) == parts[0] + [sep] + Join(parts[1..], sep);
    }
  }

  /** Joining the pieces of a split gives back the original string. */
  lemma {:induction false} JoinSplit(s: string, sep: char)
    ensures Join(Split(s, sep), sep) == s
    decreases |s|
  {
    if |s| == 0 {
    } else {
      var rest := Split(s[1..], sep);
      JoinSplit(s[1..], sep);
      if s[0] == sep {
        assert ([""] + rest)[1..] == rest;
        assert Join([""] + rest, sep) == "" + [sep] + Join(rest, sep);
        assert s == [s[0]] + s[1..];
      } else {
        JoinConsFirst(s[0], rest, sep);
        assert s == [s[0]] + s[1..];
      }
    }
  }

  /** Splitting a string that starts with an ordinary character. */
  lemma SplitCons(x: char, rest: string, sep: char)
    requires x != sep
    ensures Split([x] + rest, sep) == [[x] + Split(rest, sep)[0]] + Split(rest, sep)[1..]
  {
    assert ([x] + rest)[1..] == rest;
  }

  /** Splitting a string that starts with the separator. */
  lemma SplitSep(rest: string, sep: char)
    ensures Split([sep] + rest, sep) == [""] + Split(rest, sep)
  {
    assert ([sep] + rest)[1..] == rest;
  }

  /** Splitting a separator-free piece, the separator and a tail: the piece comes out first. */
  lemma {:induction false} SplitPieceThenTail(piece: string, tail: string, sep: char)
    requires sep !in piece
    ensures Split(piece + [sep] + tail, sep) == [piece] + Split(tail, sep)
    decreases |piece|
  {
    if |piece| == 0 {
      assert piece + [sep] + tail == [sep] + tail;
      SplitSep(tail, sep);
    } else {
      var x := piece[0];
      var p0 := piece[1..];
      assert x != sep by { assert x in piece; }
      assert sep !in p0 by { assert forall c :: c in p0 ==> c in piece; }
      SplitPieceThenTail(p0, tail, sep);
      assert piece + [sep] + tail == [x] + (p0 + [sep] + tail) by {
        assert piece == [x] + p0;
      }
      SplitCons(x, p0 + [sep] + tail, sep);
      assert piece == [x] + p0;
    }
  }

  /** Splitting a join of separator-free pieces gives back the pieces. */
  lemma {:induction false} SplitJoin(parts: seq<string>, sep: char)
    requires |parts| >= 1
    requires forall i :: 0 <= i < |parts| ==> sep !in parts[i]
    ensures Split(Join(parts, sep), sep) == parts
    decreases |parts|
  {
    if |parts| == 1 {
      SplitNoSeparator(parts[0], sep);
    } else {
      SplitJoin(parts[1..], sep);
      assert Join(parts, sep) == parts[0] + [sep] + Join(parts[1..], sep);
      SplitPieceThenTail(parts[0], Join(parts[1..], sep), sep);
      assert parts == [parts[0]] + parts[1..];
    }
  }

  /** A string without the separator splits into itself. */
  lemma {:induction false} SplitNoSeparator(s: string, sep: char)
    requires sep !in s
    ensures Split(s, sep) == [s]
    decreases |s|
  {
    if |s| > 0 {
      assert sep !in s[1..] by {
        assert forall c :: c in s[1..] ==> c in s;
      }
      SplitNoSeparator(s[1..], sep);
      assert s == [s[0]] + s[1..];
    }
  }
}
