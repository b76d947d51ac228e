/** The few JavaScript string operations the label code relies on. */
module Strings {
  import opened Wrappers

  /** `s.startsWith(prefix)`. */
  predicate StartsWith(s: string, prefix: string)
  {
    |prefix| <= |s| && s[..|prefix|] == prefix
  }

  predicate OccursAt(s: string, w: string, i: nat)
  {
    i + |w| <= |s| && s[i..i + |w|] == w
  }

  /** Character-by-character comparison of `w[k..]` with `s` at `i + k`. */
  predicate MatchesFrom(s: string, w: string, i: nat, k: nat)
    requires i + |w| <= |s| && k <= |w|
    decreases |w| - k
  {
    k == |w| || (s[i + k] == w[k] && MatchesFrom(s, w, i, k + 1))
  }

  lemma {:induction false} MatchesFromSlices(s: string, w: string, i: nat, k: nat)
    requires i + |w| <= |s| && k <= |w|
    ensures MatchesFrom(s, w, i, k) <==> s[i + k..i + |w|] == w[k..]
    decreases |w| - k
  {
    if k < |w| {
      MatchesFromSlices(s, w, i, k + 1);
      assert s[i + k..i + |w|] == [s[i + k]] + s[i + k + 1..i + |w|];
      assert w[k..] == [w[k]] + w[k + 1..];
    }
  }

  /** `s.indexOf(w, from)`, with `None` for -1. */
  function IndexOfFrom(s: string, w: string, from: nat): (r: Option<nat>)
    decreases |s| - from
    ensures r.Some? ==> from <= r.value && OccursAt(s, w, r.value)
    ensures forall j :: from <= j && (r.None? || j < r.value) ==> !OccursAt(s, w, j)
  {
    if from + |w| > |s| then None
    else
      MatchesFromSlices(s, w, from, 0);
      if MatchesFrom(s, w, from, 0) then Some(from)
      else IndexOfFrom(s, w, from + 1)
  }

  function IndexOf(s: string, w: string): Option<nat>
  {
    IndexOfFrom(s, w, 0)
  }

  /** `s.includes(w)`. */
  predicate Contains(s: string, w: string)
  {
    IndexOf(s, w).Some?
  }

  /** `s.replace(w, repl)` with a string pattern: only the first occurrence is replaced. */
  function ReplaceFirst(s: string, w: string, repl: string): string
  {
    match IndexOf(s, w)
    case None => s
    case Some(i) => s[..i] + repl + s[i + |w|..]
  }

  /**
   * Shifting a search past a prefix in which `w` does not start: the first
   * occurrence, and hence `replace`, only see the part after the prefix.
   */
  lemma ReplaceAfterPrefix(p: string, x: string, w: string, repl: string)
    requires forall j :: 0 <= j < |p| ==> !OccursAt(p + x, w, j)
    ensures Contains(p + x, w) <==> Contains(x, w)
    ensures ReplaceFirst(p + x, w, repl) == p + ReplaceFirst(x, w, repl)
  {
    IndexOfAfterPrefix(p, x, w);
    if IndexOf(x, w).Some? {
      var i := IndexOf(x, w).value;
      ReplaceAt(p + x, w, repl, |p| + i);
      ReplaceAt(x, w, repl, i);
      SpliceShifted(p, x, i, |w|, repl);
    }
  }

  /** Where the first occurrence is known, `replace` splices the replacement in there. */
  lemma ReplaceAt(s: string, w: string, repl: string, i: nat)
    requires IndexOf(s, w) == Some(i)
    ensures i + |w| <= |s| && ReplaceFirst(s, w, repl) == s[..i] + repl + s[i + |w|..]
  {
  }

  /** Splicing into `p + x` past the prefix is splicing into `x`, behind the prefix. */
  lemma SpliceShifted(p: string, x: string, i: nat, n: nat, repl: string)
    requires i + n <= |x|
    ensures (p + x)[..|p| + i] + repl + (p + x)[|p| + i + n..] == p + (x[..i] + repl + x[i + n..])
  {
    SliceAroundPrefix(p, x, i, n);
    assert (p + x[..i]) + repl + x[i + n..] == p + (x[..i] + repl + x[i + n..]);
  }

  lemma {:induction false} IndexOfAfterPrefix(p: string, x: string, w: string)
    requires forall j :: 0 <= j < |p| ==> !OccursAt(p + x, w, j)
    ensures IndexOf(p + x, w) == (match IndexOf(x, w) case None => None case Some(i) => Some(|p| + i))
  {
    IndexOfSkip(p + x, w, 0, |p|);
    IndexOfShift(p, x, w, 0);
  }

  lemma SliceAroundPrefix(p: string, x: string, i: nat, n: nat)
    requires i + n <= |x|
    ensures (p + x)[..|p| + i] == p + x[..i]
    ensures (p + x)[|p| + i + n..] == x[i + n..]
  {
  }

  /** Occurrences in `p + x` past the prefix are the occurrences in `x`, shifted. */
  lemma {:induction false} IndexOfShift(p: string, x: string, w: string, from: nat)
    ensures IndexOfFrom(p + x, w, |p| + from) ==
            (match IndexOfFrom(x, w, from) case None => None case Some(i) => Some(|p| + i))
    decreases |x| - from
  {
    if from + |w| <= |x| {
      MatchesShift(p, x, w, from);
      if !MatchesFrom(x, w, from, 0) {
        IndexOfShift(p, x, w, from + 1);
      }
    }
  }

  /** The comparison at `|p| + from` in `p + x` is the comparison at `from` in `x`. */
  lemma MatchesShift(p: string, x: string, w: string, from: nat)
    requires from + |w| <= |x|
    ensures MatchesFrom(p + x, w, |p| + from, 0) == MatchesFrom(x, w, from, 0)
  {
    var s := p + x;
    assert s[|p| + from..|p| + from + |w|] == x[from..from + |w|];
    MatchesFromSlices(s, w, |p| + from, 0);
    MatchesFromSlices(x, w, from, 0);
  }

  /** A search that starts before a stretch free of occurrences gives the same answer as one started after it. */
  lemma {:induction false} IndexOfSkip(s: string, w: string, from: nat, to: nat)
    requires from <= to
    requires forall j :: from <= j < to ==> !OccursAt(s, w, j)
    ensures IndexOfFrom(s, w, from) == IndexOfFrom(s, w, to)
    decreases (to as int) - (from as int)
  {
    if from < to {
      if from + |w| > |s| {
        // both searches fail
        assert IndexOfFrom(s, w, to).None?;
      } else {
        IndexOfSkip(s, w, from + 1, to);
      }
    }
  }

  /** A word found at the very start is the one `replace` substitutes. */
  lemma ReplaceAtStart(w: string, rest: string, repl: string)
    ensures Contains(w + rest, w)
    ensures ReplaceFirst(w + rest, w, repl) == repl + rest
  {
    var s := w + rest;
    assert s[..|w|] == w;
    assert s[|w|..] == rest;
    MatchesFromSlices(s, w, 0, 0);
  }

  /** A word is found in itself, and `replace` then yields the replacement. */
  lemma ReplaceWhole(w: string, repl: string)
    ensures Contains(w, w)
    ensures ReplaceFirst(w, w, repl) == repl
  {
    assert w[..|w|] == w;
    assert w[|w|..] == [];
    MatchesFromSlices(w, w, 0, 0);
  }

  /** A word whose first character does not occur from `from` on is not found from there. */
  lemma {:induction false} AbsentFrom(s: string, w: string, from: nat)
    requires |w| >= 1
    requires forall j :: from <= j < |s| ==> s[j] != w[0]
    ensures IndexOfFrom(s, w, from).None?
    decreases |s| - from
  {
    if from + |w| <= |s| {
      assert s[from..from + |w|][0] == s[from];
      AbsentFrom(s, w, from + 1);
    }
  }

  function DigitChar(d: nat): (c: char)
    requires d < 10
    ensures '0' <= c <= '9' && c as int - '0' as int == d
  {
    ('0' as int + d) as char
  }

  /** The number a string of decimal digits denotes, most significant digit first. */
  function DecimalValue(s: string): nat
    requires forall k :: 0 <= k < |s| ==> '0' <= s[k] <= '9'
  {
    if s == [] then 0 else DecimalValue(s[..|s| - 1]) * 10 + (s[|s| - 1] as int - '0' as int)
  }

  /**
   * The decimal text of a non-negative integer, as a template literal
   * prints it: digits that denote `n`, without a leading zero.
   */
  function NatToString(n: nat): (r: string)
    ensures |r| >= 1
    ensures forall k :: 0 <= k < |r| ==> '0' <= r[k] <= '9'
    ensures DecimalValue(r) == n
    ensures |r| >= 2 ==> r[0] != '0'
    ensures n >= 10 <==> |r| >= 2
  {
    if n < 10 then [DigitChar(n)]
    else
      var r := NatToString(n / 10) + [DigitChar(n % 10)];
      assert r[..|r| - 1] == NatToString(n / 10);
      r
  }
}
