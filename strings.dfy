/**
 * The two string operations of JavaScript that the form relies on:
 * `Array.prototype.join` (the attachment summary) and `String.prototype.split`
 * on a one-character separator (stripping the header of a data URL).
 */
module Strings {

  /** Position of the first `c` in `s`, or `|s|` when `s` has none. */
  function IndexOf(s: string, c: char): (i: nat)
    ensures i <= |s|
    ensures i < |s| ==> s[i] == c
    ensures forall k :: 0 <= k < i ==> s[k] != c
  {
    if |s| == 0 || s[0] == c then 0 else 1 + IndexOf(s[1..], c)
  }

  /** `s.split(c)`: the maximal runs of `s` between occurrences of `c`; never empty. */
  function Split(s: string, c: char): (parts: seq<string>)
    ensures |parts| >= 1
    ensures parts[0] == s[..IndexOf(s, c)]
    ensures forall k :: 0 <= k < |parts| ==> c !in parts[k]
    decreases |s|
  {
    var i := IndexOf(s, c);
    if i == |s| then [s] else [s[..i]] + Split(s[i + 1..], c)
  }

  /** `parts.join(sep)`: the empty list joins to the empty string. */
  function Join(parts: seq<string>, sep: string): (s: string)
    ensures |parts| == 0 ==> s == ""
    ensures |parts| > 0 ==> parts[0] <= s
    ensures |parts| > 0 ==> |s| >= |parts[0]| + (|parts| - 1) * |sep|
  {
    if |parts| == 0 then ""
    else if |parts| == 1 then parts[0]
    else parts[0] + sep + Join(parts[1..], sep)
  }

  /** Where `parts[k]` starts inside `Join(parts, sep)`. */
  function Offset(parts: seq<string>, sep: string, k: nat): nat
    requires k < |parts|
  {
    if k == 0 then 0 else |parts[0]| + |sep| + Offset(parts[1..], sep, k - 1)
  }

  /** When `s` has no `c` before position `i` and `c` at `i`, the first `c` is at `i`. */
  lemma IndexOfAt(s: string, c: char, i: nat)
    requires i < |s| && s[i] == c
    requires forall k :: 0 <= k < i ==> s[k] != c
    ensures IndexOf(s, c) == i
  {
  }

  /** Splitting and then joining with the same separator gives back the input. */
  lemma {:induction false} JoinSplit(s: string, c: char)
    ensures Join(Split(s, c), [c]) == s
    decreases |s|
  {
    var i := IndexOf(s, c);
    if i == |s| {
      assert Split(s, c) == [s];
    } else {
      var head, tail := s[..i], s[i + 1..];
      var rest := Split(tail, c);
      SplitCons(s, c);
      assert Split(s, c) == [head] + rest;
      JoinSplit(tail, c);
      JoinCons([head] + rest, [c]);
      assert ([head] + rest)[1..] == rest;
      assert Join(Split(s, c), [c]) == head + [c] + tail;
      assert s == head + [c] + tail by {
        assert s[i] == c;
      }
    }
  }

  /** A string with a separator splits into the text before it and the split of the rest. */
  lemma SplitCons(s: string, c: char)
    requires IndexOf(s, c) < |s|
    ensures Split(s, c) == [s[..IndexOf(s, c)]] + Split(s[IndexOf(s, c) + 1..], c)
  {
  }

  /** A string without `c` does not split. */
  lemma SplitWithout(s: string, c: char)
    requires c !in s
    ensures Split(s, c) == [s]
  {
  }

  /** Consecutive parts are `|parts[k]| + |sep|` apart. */
  lemma {:induction false} OffsetStep(parts: seq<string>, sep: string, k: nat)
    requires k + 1 < |parts|
    ensures Offset(parts, sep, k + 1) == Offset(parts, sep, k) + |parts[k]| + |sep|
  {
    if k > 0 {
      OffsetStep(parts[1..], sep, k - 1);
    }
  }

  /** A joined list of two or more parts is its first part, `sep`, and the join of the rest. */
  lemma JoinCons(parts: seq<string>, sep: string)
    requires |parts| >= 2
    ensures Join(parts, sep) == parts[0] + sep + Join(parts[1..], sep)
  {
  }

  /** `parts[k]` sits at `Offset(parts, sep, k)` in the joined string. */
  lemma {:induction false} JoinPart(parts: seq<string>, sep: string, k: nat)
    requires k < |parts|
    ensures Offset(parts, sep, k) + |parts[k]| <= |Join(parts, sep)|
    ensures Join(parts, sep)[Offset(parts, sep, k)..Offset(parts, sep, k) + |parts[k]|] == parts[k]
  {
    if |parts| >= 2 {
      JoinCons(parts, sep);
      var pre, rest := parts[0] + sep, Join(parts[1..], sep);
      if k > 0 {
        JoinPart(parts[1..], sep, k - 1);
        var off := Offset(parts[1..], sep, k - 1);
        assert parts[1..][k - 1] == parts[k];
        assert (pre + rest)[|pre| + off..|pre| + off + |parts[k]|] == rest[off..off + |parts[k]|];
      } else {
        assert (parts[0] + (sep + rest))[..|parts[0]|] == parts[0];
      }
    }
  }

  /** The separator follows every part but the last. */
  lemma {:induction false} JoinSeparator(parts: seq<string>, sep: string, k: nat)
    requires k + 1 < |parts|
    ensures Offset(parts, sep, k) + |parts[k]| + |sep| <= |Join(parts, sep)|
    ensures Join(parts, sep)[Offset(parts, sep, k) + |parts[k]|..Offset(parts, sep, k) + |parts[k]| + |sep|] == sep
  {
    JoinCons(parts, sep);
    var pre, rest := parts[0] + sep, Join(parts[1..], sep);
    if k > 0 {
      JoinSeparator(parts[1..], sep, k - 1);
      var at := Offset(parts[1..], sep, k - 1) + |parts[k]|;
      assert parts[1..][k - 1] == parts[k];
      assert (pre + rest)[|pre| + at..|pre| + at + |sep|] == rest[at..at + |sep|];
    } else {
      assert (parts[0] + sep + rest)[|parts[0]|..|parts[0]| + |sep|] == sep;
    }
  }

  /** The last part ends the joined string. */
  lemma {:induction false} JoinEnd(parts: seq<string>, sep: string)
    requires |parts| > 0
    ensures |Join(parts, sep)| == Offset(parts, sep, |parts| - 1) + |parts[|parts| - 1]|
  {
    if |parts| >= 2 {
      JoinCons(parts, sep);
      JoinEnd(parts[1..], sep);
      assert parts[1..][|parts| - 2] == parts[|parts| - 1];
    }
  }

  /**
   * The layout of a joined list: `parts[k]` sits at `Offset(parts, sep, k)`,
   * a separator follows every part but the last, and the last part ends the string.
   */
  lemma JoinLayout(parts: seq<string>, sep: string, k: nat)
    requires k < |parts|
    ensures Offset(parts, sep, k) + |parts[k]| <= |Join(parts, sep)|
    ensures Join(parts, sep)[Offset(parts, sep, k)..Offset(parts, sep, k) + |parts[k]|] == parts[k]
    ensures k + 1 < |parts| ==>
      && Offset(parts, sep, k + 1) == Offset(parts, sep, k) + |parts[k]| + |sep|
      && Offset(parts, sep, k + 1) <= |Join(parts, sep)|
      && Join(parts, sep)[Offset(parts, sep, k) + |parts[k]|..Offset(parts, sep, k + 1)] == sep
    ensures k + 1 == |parts| ==> |Join(parts, sep)| == Offset(parts, sep, k) + |parts[k]|
  {
    JoinPart(parts, sep, k);
    if k + 1 < |parts| {
      OffsetStep(parts, sep, k);
      JoinSeparator(parts, sep, k);
    } else {
      JoinEnd(parts, sep);
    }
  }
}
