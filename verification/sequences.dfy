/**
 Sequence and string helpers with the meaning of the Python built-ins the
 server relies on: `list.remove` and `str.split`.
 */
module Sequences {

  /** Position of the first occurrence of `x` in `s`. */
  function FirstIndex<T(==)>(s: seq<T>, x: T): (i: nat)
    requires x in s
    ensures i < |s| && s[i] == x
    ensures x !in s[..i]
  {
    if s[0] == x then 0
    else
      var j := FirstIndex(s[1..], x);
      assert s[..1 + j] == [s[0]] + s[1..][..j];
      1 + j
  }

  /** The first occurrence of `x` is at position `|a|` when `a` does not hold `x`. */
  lemma {:induction false} FirstIndexAfter<T>(a: seq<T>, x: T, b: seq<T>)
    requires x !in a
    ensures FirstIndex(a + [x] + b, x) == |a|
  {
    if |a| > 0 {
      assert (a + [x] + b)[1..] == a[1..] + [x] + b;
      FirstIndexAfter(a[1..], x, b);
    }
  }

  /**
   Python's `list.remove(x)` as a value: the sequence without the FIRST
   occurrence of `x`; later occurrences stay. Python raises `ValueError`
   when `x` is absent, so callers must test membership first.
   */
  function RemoveFirst<T(==)>(s: seq<T>, x: T): (r: seq<T>)
    requires x in s
    ensures r == s[..FirstIndex(s, x)] + s[FirstIndex(s, x) + 1..]
    ensures |r| == |s| - 1
  {
    if s[0] == x then
      assert s == [s[0]] + s[1..];
      s[1..]
    else
      var rest := RemoveFirst(s[1..], x);
      var j := FirstIndex(s[1..], x);
      assert FirstIndex(s, x) == 1 + j;
      assert s[..1 + j] == [s[0]] + s[1..][..j];
      assert s[1 + j + 1..] == s[1..][j + 1..];
      assert s == [s[0]] + s[1..];
      [s[0]] + rest
  }

  /** `list.remove` takes exactly one copy of `x` out of the bag of elements. */
  lemma RemoveFirstMultiset<T>(s: seq<T>, x: T)
    requires x in s
    ensures multiset(RemoveFirst(s, x)) == multiset(s) - multiset{x}
  {
    var i := FirstIndex(s, x);
    assert s == s[..i] + [x] + s[i + 1..];
  }

  /**
   Python's `s.split(sep)` for a one-character separator: the pieces between
   consecutive separators, always at least one.
   */
  function Split(s: string, sep: char): (parts: seq<string>)
    ensures |parts| >= 1
    ensures forall i :: 0 <= i < |parts| ==> sep !in parts[i]
    ensures sep !in s <==> |parts| == 1
    ensures parts[0] == if sep in s then s[..FirstIndex(s, sep)] else s
    decreases |s|
  {
    if sep !in s then [s]
    else
      var i := FirstIndex(s, sep);
      [s[..i]] + Split(s[i + 1..], sep)
  }

  /** Python's `sep.join(parts)`. */
  function Join(parts: seq<string>, sep: char): string
    requires |parts| >= 1
  {
    if |parts| == 1 then parts[0]
    else parts[0] + [sep] + Join(parts[1..], sep)
  }

  /** With a separator present, the first piece is cut off and the rest split again. */
  lemma SplitFirst(s: string, sep: char)
    requires sep in s
    ensures var i := FirstIndex(s, sep);
      Split(s, sep) == [s[..i]] + Split(s[i + 1..], sep)
  {
  }

  /** Joining a piece in front of at least one more piece puts the separator between them. */
  lemma JoinCons(head: string, rest: seq<string>, sep: char)
    requires |rest| >= 1
    ensures Join([head] + rest, sep) == head + [sep] + Join(rest, sep)
  {
    assert ([head] + rest)[1..] == rest;
  }

  /** Joining the pieces of a split gives back the original string. */
  lemma {:induction false} JoinSplit(s: string, sep: char)
    ensures Join(Split(s, sep), sep) == s
    decreases |s|
  {
    if sep in s {
      var i := FirstIndex(s, sep);
      var tail := s[i + 1..];
      calc {
        Join(Split(s, sep), sep);
      == { SplitFirst(s, sep); JoinCons(s[..i], Split(tail, sep), sep); }
        s[..i] + [sep] + Join(Split(tail, sep), sep);
      == { JoinSplit(tail, sep); }
        s[..i] + [sep] + tail;
      == { assert s == s[..i] + [sep] + tail; }
        s;
      }
    }
  }

  /** Splitting a join of separator-free pieces gives back the pieces. */
  lemma {:induction false} SplitJoin(parts: seq<string>, sep: char)
    requires |parts| >= 1
    requires forall i :: 0 <= i < |parts| ==> sep !in parts[i]
    ensures Split(Join(parts, sep), sep) == parts
  {
    if |parts| > 1 {
      var rest := Join(parts[1..], sep);
      var s := parts[0] + [sep] + rest;
      assert sep in s by { assert s[|parts[0]|] == sep; }
      calc {
        Split(Join(parts, sep), sep);
      == { assert Join(parts, sep) == s; }
        Split(s, sep);
      == { SplitFirst(s, sep); FirstIndexAfter(parts[0], sep, rest);
           assert s[..|parts[0]|] == parts[0] && s[|parts[0]| + 1..] == rest; }
        [parts[0]] + Split(rest, sep);
      == { SplitJoin(parts[1..], sep); }
        [parts[0]] + parts[1..];
      == { assert parts == [parts[0]] + parts[1..]; }
        parts;
      }
    }
  }
}
