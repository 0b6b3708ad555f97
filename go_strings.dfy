/**
  The part of Go's `strings` package that the cluster configuration relies on:
  splitting a string at every occurrence of a one-character separator, and the
  inverse operation, joining parts with that separator.
 */
module GoStrings {

  /** Number of occurrences of `c` in `s` (Go's `strings.Count` for a one-character separator). */
  function Count(s: string, c: char): nat
  {
    multiset(s)[c]
  }

  /** Index of the first occurrence of `c` in `s`, or -1 when there is none (Go's `strings.IndexByte`). */
  function IndexByte(s: string, c: char): (i: int)
    ensures -1 <= i < |s|
    ensures i == -1 <==> c !in s
    ensures 0 <= i ==> s[i] == c && c !in s[..i]
  {
    if |s| == 0 then -1
    else if s[0] == c then 0
    else
      var j := IndexByte(s[1..], c);
      if j == -1 then -1
      else
        assert s[..j + 1] == [s[0]] + s[1..][..j];
        j + 1
  }

  /**
    Go's `strings.Split(s, sep)` for a one-character `sep`: `s` cut at every
    occurrence of `sep`. There is always one part more than there are
    separators, so the empty string gives `[""]`, and no part holds `sep`.
   */
  function Split(s: string, sep: char): (parts: seq<string>)
    ensures |parts| == Count(s, sep) + 1
    ensures forall k :: 0 <= k < |parts| ==> sep !in parts[k]
    decreases |s|
  {
    var i := IndexByte(s, sep);
    if i < 0 then
      [s]
    else
      CountAfterFirst(s, sep, i);
      var rest := Split(s[i + 1..], sep);
      PrependPart(s[..i], rest, sep);
      [s[..i]] + rest
  }

  /** Putting a part without the separator in front of such parts keeps every part free of it. */
  lemma PrependPart(head: string, rest: seq<string>, sep: char)
    requires sep !in head
    requires forall k :: 0 <= k < |rest| ==> sep !in rest[k]
    ensures forall k :: 0 <= k < |[head] + rest| ==> sep !in ([head] + rest)[k]
  {
  }

  /** Cutting at the first separator leaves the parts around it and removes one occurrence of it. */
  lemma CountAfterFirst(s: string, sep: char, i: int)
    requires 0 <= i < |s| && s[i] == sep && sep !in s[..i]
    ensures s == s[..i] + [sep] + s[i + 1..]
    ensures Count(s, sep) == Count(s[i + 1..], sep) + 1
  {
    assert s == s[..i] + [sep] + s[i + 1..];
    assert multiset(s) == multiset(s[..i]) + multiset{sep} + multiset(s[i + 1..]);
  }

  /** Go's `strings.Join(parts, string(sep))`: the parts with `sep` between neighbours. */
  function Join(parts: seq<string>, sep: char): string
  {
    if |parts| == 0 then ""
    else if |parts| == 1 then parts[0]
    else parts[0] + [sep] + Join(parts[1..], sep)
  }

  /** Joining the parts of a split gives back the original string. */
  lemma {:induction false} JoinSplit(s: string, sep: char)
    ensures Join(Split(s, sep), sep) == s
    decreases |s|
  {
    var i := IndexByte(s, sep);
    if i >= 0 {
      CountAfterFirst(s, sep, i);
      var head, tail := s[..i], s[i + 1..];
      var rest := Split(tail, sep);
      var parts := [head] + rest;
      assert Split(s, sep) == parts;
      assert |parts| >= 2 && parts[0] == head && parts[1..] == rest;
      assert Join(parts, sep) == head + [sep] + Join(rest, sep);
      JoinSplit(tail, sep);
    }
  }

  /** In `head + [sep] + tail` with no `sep` in `head`, the first separator is the one after `head`. */
  lemma FirstSeparator(s: string, head: string, tail: string, sep: char)
    requires s == head + [sep] + tail && sep !in head
    ensures IndexByte(s, sep) == |head|
    ensures s[..|head|] == head && s[|head| + 1..] == tail
  {
    assert s[|head|] == sep;
  }

  /**
    Splitting a join gives back the parts, provided there is at least one part
    and no part holds the separator: `Split` and `Join` are inverse bijections
    between strings and such sequences of parts.
   */
  lemma {:induction false} SplitJoin(parts: seq<string>, sep: char)
    requires |parts| > 0
    requires forall k :: 0 <= k < |parts| ==> sep !in parts[k]
    ensures Split(Join(parts, sep), sep) == parts
    decreases |parts|
  {
    var s := Join(parts, sep);
    if |parts| == 1 {
      assert IndexByte(s, sep) == -1;
    } else {
      var head, tail := parts[0], Join(parts[1..], sep);
      assert s == head + [sep] + tail;
      FirstSeparator(s, head, tail, sep);
      assert Split(s, sep) == [head] + Split(tail, sep);
      SplitJoin(parts[1..], sep);
      assert parts == [head] + parts[1..];
    }
  }
}
