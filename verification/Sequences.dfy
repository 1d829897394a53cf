/** Searching, cutting and joining sequences: the `indexOf`, `split` and `concat` of the host languages. */
module Sequences {

  datatype Option<+T> = None | Some(value: T)

  predicate OccursAt<T(==)>(s: seq<T>, pattern: seq<T>, i: nat) {
    i + |pattern| <= |s| && s[i..i + |pattern|] == pattern
  }

  /** Index of the first occurrence of `pattern` in `s`, or -1. */
  function IndexOf<T(==)>(s: seq<T>, pattern: seq<T>): (r: int)
    ensures -1 <= r
    ensures r >= 0 ==> OccursAt(s, pattern, r)
    ensures forall i: nat :: OccursAt(s, pattern, i) ==> 0 <= r <= i
  {
    IndexFrom(s, pattern, 0)
  }

  function IndexFrom<T(==)>(s: seq<T>, pattern: seq<T>, from: nat): (r: int)
    ensures r == -1 || from <= r
    ensures r >= 0 ==> OccursAt(s, pattern, r)
    ensures forall i: nat :: from <= i && OccursAt(s, pattern, i) ==> 0 <= r <= i
    decreases |s| - from
  {
    if from + |pattern| > |s| then -1
    else if OccursAt(s, pattern, from) then from
    else IndexFrom(s, pattern, from + 1)
  }

  lemma SliceOfPrefix<T>(s: seq<T>, n: nat, i: nat, j: nat)
    requires i <= j <= n <= |s|
    ensures s[..n][i..j] == s[i..j]
  {}

  /** An occurrence found in a prefix is still the first one after more input has arrived. */
  lemma IndexOfExtends<T>(s: seq<T>, more: seq<T>, pattern: seq<T>)
    requires IndexOf(s, pattern) >= 0
    ensures IndexOf(s + more, pattern) == IndexOf(s, pattern)
  {
    var k := IndexOf(s, pattern);
    assert (s + more)[k..k + |pattern|] == s[k..k + |pattern|];
    assert OccursAt(s + more, pattern, k);
    var j := IndexOf(s + more, pattern);
    assert (s + more)[j..j + |pattern|] == s[j..j + |pattern|];
    assert OccursAt(s, pattern, j);
  }

  lemma OccurrenceStartsWithHead<T>(s: seq<T>, pattern: seq<T>)
    requires pattern != []
    ensures var i := IndexOf(s, pattern);
            i >= 0 ==> s[i] == pattern[0]
  {
    var i := IndexOf(s, pattern);
    if i >= 0 {
      assert s[i..i + |pattern|][0] == s[i];
    }
  }

  /** A header free of the separator's first element ends at the separator that follows it. */
  lemma HeaderEndsAtSeparator<T>(header: seq<T>, separator: seq<T>, rest: seq<T>)
    requires separator != [] && separator[0] !in header
    ensures IndexOf(header + separator + rest, separator) == |header|
    ensures (header + separator + rest)[..|header|] == header
    ensures (header + separator + rest)[|header| + |separator|..] == rest
  {
    var s := header + separator + rest;
    assert s[|header|..|header| + |separator|] == separator;
    assert OccursAt(s, separator, |header|);
    OccurrenceStartsWithHead(s, separator);
  }

  predicate StartsWith<T(==)>(s: seq<T>, prefix: seq<T>) {
    |prefix| <= |s| && s[..|prefix|] == prefix
  }

  function Concat<T>(parts: seq<seq<T>>): seq<T> {
    if parts == [] then [] else parts[0] + Concat(parts[1..])
  }

  lemma Associative<T>(a: seq<T>, b: seq<T>, c: seq<T>)
    ensures (a + b) + c == a + (b + c)
  {}

  lemma RightCancel<T>(a: seq<T>, b: seq<T>, tail: seq<T>)
    ensures a + tail == b + tail <==> a == b
  {
    assert |a| == |b| && a + tail == b + tail ==> (a + tail)[..|a|] == (b + tail)[..|b|];
    assert (a + tail)[..|a|] == a && (b + tail)[..|b|] == b;
  }

  lemma {:induction false} ConcatAppends<T>(xs: seq<seq<T>>, ys: seq<seq<T>>)
    ensures Concat(xs + ys) == Concat(xs) + Concat(ys)
  {
    if xs == [] {
      assert xs + ys == ys;
    } else {
      calc {
        Concat(xs + ys);
        { assert (xs + ys)[0] == xs[0] && (xs + ys)[1..] == xs[1..] + ys; }
        xs[0] + Concat(xs[1..] + ys);
        { ConcatAppends(xs[1..], ys); }
        xs[0] + (Concat(xs[1..]) + Concat(ys));
        { Associative(xs[0], Concat(xs[1..]), Concat(ys)); }
        (xs[0] + Concat(xs[1..])) + Concat(ys);
        Concat(xs) + Concat(ys);
      }
    }
  }

  lemma {:induction false} ConcatSplitsLast<T>(parts: seq<seq<T>>)
    requires parts != []
    ensures Concat(parts) == Concat(parts[..|parts| - 1]) + parts[|parts| - 1]
  {
    var init, last := parts[..|parts| - 1], parts[|parts| - 1];
    calc {
      Concat(parts);
      { assert parts == init + [last]; }
      Concat(init + [last]);
      { ConcatAppends(init, [last]); }
      Concat(init) + Concat([last]);
      { assert Concat([last]) == last; }
      Concat(init) + last;
    }
  }

  /** `split` on a non-empty separator. */
  function Split<T(==)>(s: seq<T>, separator: seq<T>): (lines: seq<seq<T>>)
    requires separator != []
    ensures lines != []
    decreases |s|
  {
    var i := IndexOf(s, separator);
    if i == -1 then [s] else [s[..i]] + Split(s[i + |separator|..], separator)
  }
}
