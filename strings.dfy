/**
 * The pieces of Go's `strings` package that the annotation relies on, on
 * strings modelled as sequences of characters.
 */
module Strings {
  import opened Wrappers

  /** True when `s` ends with `suffix`. */
  predicate EndsWith(s: string, suffix: string)
  {
    |suffix| <= |s| && s[|s| - |suffix|..] == suffix
  }

  lemma EndsWithTransitive(s: string, t: string, u: string)
    requires EndsWith(s, t) && EndsWith(t, u)
    ensures EndsWith(s, u)
  {
  }

  /** A slice of the middle part of a concatenation. */
  lemma SliceOfConcat(pre: string, mid: string, post: string, i: nat, j: nat)
    requires i <= j <= |mid|
    ensures (pre + mid + post)[|pre| + i..|pre| + j] == mid[i..j]
  {
  }

  /** A character of the middle part of a concatenation. */
  lemma IndexOfConcat(pre: string, mid: string, post: string, i: nat)
    requires i < |mid|
    ensures (pre + mid + post)[|pre| + i] == mid[i]
  {
  }

  /**
   * strings.Join: the elements of `parts`, in order, with `sep` between
   * each adjacent pair and nowhere else.
   */
  function Join(parts: seq<string>, sep: string): string
    decreases |parts|
  {
    if parts == [] then ""
    else if |parts| == 1 then parts[0]
    else parts[0] + sep + Join(parts[1..], sep)
  }

  /** The joined string starts with the first element and ends with the last. */
  lemma {:induction false} JoinEnds(parts: seq<string>, sep: string)
    requires parts != []
    ensures parts[0] <= Join(parts, sep)
    ensures EndsWith(Join(parts, sep), parts[|parts| - 1])
    decreases |parts|
  {
    if |parts| > 1 {
      var tail := parts[1..];
      JoinEnds(tail, sep);
      var rest := Join(tail, sep);
      assert Join(parts, sep) == parts[0] + sep + rest;
      assert tail[|tail| - 1] == parts[|parts| - 1];
      EndsWithTransitive(Join(parts, sep), rest, parts[|parts| - 1]);
    }
  }

  /** Where `parts[i]` starts inside `Join(parts, sep)`. */
  function JoinOffset(parts: seq<string>, sep: string, i: nat): nat
    requires i < |parts|
    decreases i
  {
    if i == 0 then 0 else |parts[0]| + |sep| + JoinOffset(parts[1..], sep, i - 1)
  }

  /** Every element appears, unchanged, at its offset in the joined string. */
  lemma {:induction false} JoinContainsPart(parts: seq<string>, sep: string, i: nat)
    requires i < |parts|
    ensures JoinOffset(parts, sep, i) + |parts[i]| <= |Join(parts, sep)|
    ensures Join(parts, sep)[JoinOffset(parts, sep, i)..JoinOffset(parts, sep, i) + |parts[i]|] == parts[i]
    decreases i
  {
    if i > 0 {
      var tail := parts[1..];
      JoinContainsPart(tail, sep, i - 1);
      var head := parts[0] + sep;
      assert Join(parts, sep) == head + Join(tail, sep);
      var off := JoinOffset(tail, sep, i - 1);
      assert JoinOffset(parts, sep, i) == |head| + off;
      assert (head + Join(tail, sep))[|head| + off..|head| + off + |parts[i]|]
          == Join(tail, sep)[off..off + |tail[i - 1]|];
    }
  }

  /**
   * strings.Index for a single character: the position of the first
   * occurrence of `c` in `s`, or None when `s` does not contain it.
   */
  function IndexOf(s: string, c: char): (r: Option<nat>)
    ensures r.None? <==> c !in s
    ensures r.Some? ==> r.value < |s| && s[r.value] == c
  {
    if s == [] then None
    else if s[0] == c then Some(0)
    else match IndexOf(s[1..], c)
      case None => None
      case Some(k) => Some(k + 1)
  }

  /** No occurrence of `c` comes before the position IndexOf finds. */
  lemma {:induction false} IndexOfIsFirst(s: string, c: char, j: nat)
    requires IndexOf(s, c).Some? && j < IndexOf(s, c).value
    ensures s[j] != c
  {
    if j > 0 {
      IndexOfIsFirst(s[1..], c, j - 1);
    }
  }

  /** A character that `a` does not contain is first found just after `a`. */
  lemma IndexOfAfter(a: string, c: char, t: string)
    requires c !in a
    ensures IndexOf(a + [c] + t, c) == Some(|a|)
  {
    var s := a + [c] + t;
    assert s[|a|] == c;
    assert forall i :: 0 <= i < |a| ==> s[i] == a[i];
    if IndexOf(s, c).value > |a| {
      IndexOfIsFirst(s, c, |a|);
    }
  }
}
