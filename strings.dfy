/** The Python `str` operations the core relies on, over `seq<char>`:
    substring search (`t in s`, `str.find`), `str.split(sep)` with a
    non-empty separator, and ASCII case folding for case-insensitive search. */
module Strings {
  import opened Wrappers

  /** `t` occurs in `s` starting at position `i`. */
  predicate OccursAt(s: string, t: string, i: nat)
  {
    i + |t| <= |s| && s[i..i + |t|] == t
  }

  /** The first position at or after `from` where `t` occurs in `s`, or
      `None` when there is none. */
  function IndexFrom(s: string, t: string, from: nat): (r: Option<nat>)
    decreases |s| - from
    ensures r.Some? ==> from <= r.value && r.value + |t| <= |s|
  {
    if from + |t| > |s| then None
    else if OccursAt(s, t, from) then Some(from)
    else IndexFrom(s, t, from + 1)
  }

  /** `IndexFrom` finds an occurrence with none before it, and `None` means
      there is no occurrence at or after `from`. */
  lemma {:induction false} IndexFromFirst(s: string, t: string, from: nat)
    decreases |s| - from
    ensures var r := IndexFrom(s, t, from);
      && (r.Some? ==> from <= r.value && OccursAt(s, t, r.value))
      && (r.Some? ==> forall j :: from <= j < r.value ==> !OccursAt(s, t, j))
      && (r.None? ==> forall j :: from <= j ==> !OccursAt(s, t, j))
  {
    if from + |t| <= |s| && !OccursAt(s, t, from) {
      IndexFromFirst(s, t, from + 1);
    }
  }

  /** `s.find(t)`, with `None` for -1. */
  function IndexOf(s: string, t: string): (r: Option<nat>)
    ensures r.Some? ==> r.value + |t| <= |s|
  {
    IndexFrom(s, t, 0)
  }

  /** `IndexOf` finds the first occurrence of `t` in `s`, and `None` means
      `t` does not occur at all. */
  lemma IndexOfFirst(s: string, t: string)
    ensures var r := IndexOf(s, t);
      && (r.Some? ==> OccursAt(s, t, r.value))
      && (r.Some? ==> forall j :: 0 <= j < r.value ==> !OccursAt(s, t, j))
      && (r.None? ==> forall j :: 0 <= j ==> !OccursAt(s, t, j))
  {
    IndexFromFirst(s, t, 0);
  }

  /** Python's `t in s` for strings. */
  predicate Contains(s: string, t: string)
  {
    IndexOf(s, t).Some?
  }

  /** `s.split(sep)`: the pieces between the non-overlapping occurrences of
      `sep`, found left to right. */
  function Split(s: string, sep: string): (r: seq<string>)
    requires sep != []
    decreases |s|
    ensures |r| >= 1
  {
    match IndexOf(s, sep)
    case None => [s]
    case Some(i) => [s[..i]] + Split(s[i + |sep|..], sep)
  }

  /** `sep.join(parts)` */
  function Join(parts: seq<string>, sep: string): string
  {
    if parts == [] then ""
    else if |parts| == 1 then parts[0]
    else parts[0] + sep + Join(parts[1..], sep)
  }

  /** Joining the pieces of a split with the same separator gives back the
      original string. */
  lemma {:induction false} SplitJoin(s: string, sep: string)
    requires sep != []
    decreases |s|
    ensures Join(Split(s, sep), sep) == s
  {
    var r := IndexOf(s, sep);
    if r.Some? {
      var i := r.value;
      IndexOfFirst(s, sep);
      SplitJoin(s[i + |sep|..], sep);
      JoinSplitStep(s, sep, i);
      RejoinAt(s, sep, i);
    }
  }

  /** One step of a split, seen through `Join`. */
  lemma JoinSplitStep(s: string, sep: string, i: nat)
    requires sep != [] && IndexOf(s, sep) == Some(i)
    ensures Join(Split(s, sep), sep) == s[..i] + sep + Join(Split(s[i + |sep|..], sep), sep)
  {
    JoinCons(s[..i], Split(s[i + |sep|..], sep), sep);
  }

  /** `Join` of a piece followed by a non-empty list of pieces. */
  lemma JoinCons(head: string, tail: seq<string>, sep: string)
    requires tail != []
    ensures Join([head] + tail, sep) == head + sep + Join(tail, sep)
  {
    assert ([head] + tail)[1..] == tail;
  }

  /** Cutting out an occurrence and putting the separator back restores `s`. */
  lemma RejoinAt(s: string, sep: string, i: nat)
    requires OccursAt(s, sep, i)
    ensures s[..i] + sep + s[i + |sep|..] == s
  {
    assert s[..i] + s[i..i + |sep|] == s[..i + |sep|];
  }

  /** No piece of a split contains the separator. */
  lemma {:induction false} SplitPiecesFree(s: string, sep: string, k: nat)
    requires sep != [] && k < |Split(s, sep)|
    decreases |s|
    ensures !Contains(Split(s, sep)[k], sep)
  {
    match IndexOf(s, sep)
    case None =>
    case Some(i) =>
      if k == 0 {
        NoEarlierOccurrence(s, sep, i);
      } else {
        SplitPiecesFree(s[i + |sep|..], sep, k - 1);
      }
  }

  /** A prefix of `s` that ends before the first occurrence of `t` does not contain `t`. */
  lemma NoEarlierOccurrence(s: string, t: string, i: nat)
    requires t != [] && IndexOf(s, t) == Some(i)
    ensures !Contains(s[..i], t)
  {
    IndexOfFirst(s, t);
    if Contains(s[..i], t) {
      IndexOfFirst(s[..i], t);
      var j := IndexOf(s[..i], t).value;
      assert OccursAt(s[..i], t, j);
      assert j + |t| <= i <= |s|;
      assert s[..i][j..j + |t|] == s[j..j + |t|];
      assert OccursAt(s, t, j);
    }
  }

  /** A position found in a suffix, moved back into the whole string. */
  function Shifted(r: Option<nat>, d: nat): Option<nat>
  {
    if r.None? then None else Some(d + r.value)
  }

  /** Searching `p + q` from inside `q` is searching `q`, shifted by `|p|`. */
  lemma {:induction false} IndexFromShift(p: string, q: string, t: string, j: nat)
    decreases |q| - j
    ensures IndexFrom(p + q, t, |p| + j) == Shifted(IndexFrom(q, t, j), |p|)
  {
    if j + |t| <= |q| {
      OccursAtShift(p, q, t, j);
      if !OccursAt(q, t, j) {
        IndexFromShift(p, q, t, j + 1);
      }
    }
  }

  /** `t` occurs in `q` at `j` iff it occurs in `p + q` at `|p| + j`. */
  lemma OccursAtShift(p: string, q: string, t: string, j: nat)
    requires j + |t| <= |q|
    ensures OccursAt(p + q, t, |p| + j) <==> OccursAt(q, t, j)
  {
    assert (p + q)[|p| + j..|p| + j + |t|] == q[j..j + |t|];
  }

  /** Positions inside `p` never start `t` when `t[0]` does not occur in `p`. */
  lemma {:induction false} IndexFromSkip(p: string, q: string, t: string, from: nat)
    requires t != [] && t[0] !in p && from <= |p|
    decreases |p| - from
    ensures IndexFrom(p + q, t, from) == IndexFrom(p + q, t, |p|)
  {
    if from < |p| {
      var s := p + q;
      if from + |t| <= |s| {
        assert s[from..from + |t|][0] == p[from] != t[0];
      }
      IndexFromSkip(p, q, t, from + 1);
    }
  }

  /** When the first character of `t` does not occur in `p`, the first
      occurrence of `t` in `p + q` is the first occurrence in `q`, shifted. */
  lemma IndexOfPastPrefix(p: string, q: string, t: string)
    requires t != [] && t[0] !in p
    ensures IndexOf(p + q, t) == Shifted(IndexOf(q, t), |p|)
  {
    IndexFromSkip(p, q, t, 0);
    IndexFromShift(p, q, t, 0);
  }

  /** A string that starts with `t` finds `t` at position 0. */
  lemma IndexOfAtStart(s: string, t: string)
    requires |t| <= |s| && s[..|t|] == t
    ensures IndexOf(s, t) == Some(0)
  {
    assert OccursAt(s, t, 0);
  }

  /** ASCII lower-casing of one character. */
  function Lower(c: char): char
  {
    if 'A' <= c <= 'Z' then (c as int + 32) as char else c
  }

  function LowerStr(s: string): (r: string)
    ensures |r| == |s|
    ensures forall i :: 0 <= i < |s| ==> r[i] == Lower(s[i])
  {
    seq(|s|, i requires 0 <= i < |s| => Lower(s[i]))
  }

  /** Case-insensitive substring search (`re.search(t, s, re.IGNORECASE)`
      for a pattern without metacharacters). */
  predicate ContainsIgnoreCase(s: string, t: string)
  {
    Contains(LowerStr(s), LowerStr(t))
  }

  /** An exact substring is also a case-insensitive one. */
  lemma ContainsImpliesIgnoreCase(s: string, t: string)
    requires Contains(s, t)
    ensures ContainsIgnoreCase(s, t)
  {
    IndexOfFirst(s, t);
    var i := IndexOf(s, t).value;
    var ls, lt := LowerStr(s), LowerStr(t);
    assert ls[i..i + |t|] == lt by {
      assert s[i..i + |t|] == t;
      forall k | 0 <= k < |t|
        ensures ls[i..i + |t|][k] == lt[k]
      {
        assert s[i + k] == t[k];
      }
    }
    assert OccursAt(ls, lt, i);
    IndexOfFirst(ls, lt);
  }
}
