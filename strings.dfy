/**
 * The few JavaScript string operations the agent relies on: `includes`,
 * `indexOf`, `split`, `join`, `replace` with a string pattern (first
 * occurrence only), `toLowerCase` and number-to-string conversion.
 */
module Strings {
  import opened Wrappers

  /** `t` occurs in `s` starting at index `i`. */
  predicate MatchesAt(s: string, t: string, i: nat)
  {
    i + |t| <= |s| && s[i..i + |t|] == t
  }

  /** `s.includes(t)`; note that every string includes "". */
  predicate Contains(s: string, t: string)
  {
    exists i: nat :: i <= |s| && MatchesAt(s, t, i)
  }

  /** The first index at or after `from` where `t` occurs in `s`. */
  function IndexFrom(s: string, t: string, from: nat): (r: Option<nat>)
    requires from <= |s|
    ensures r.Some? ==> from <= r.value <= |s| && MatchesAt(s, t, r.value)
    ensures r.Some? ==> forall j: nat :: from <= j < r.value ==> !MatchesAt(s, t, j)
    ensures r.None? ==> forall j: nat :: from <= j <= |s| ==> !MatchesAt(s, t, j)
    decreases |s| - from
  {
    if MatchesAt(s, t, from) then Some(from)
    else if from == |s| then None
    else IndexFrom(s, t, from + 1)
  }

  /** `s.indexOf(t)`, with `None` for -1. */
  function IndexOf(s: string, t: string): (r: Option<nat>)
    ensures r.Some? <==> Contains(s, t)
    ensures r.Some? ==> MatchesAt(s, t, r.value) && forall j: nat :: j < r.value ==> !MatchesAt(s, t, j)
  {
    IndexFrom(s, t, 0)
  }

  /** `s.split(sep)` for a non-empty separator: the pieces between non-overlapping occurrences, left to right. */
  function Split(s: string, sep: string): (parts: seq<string>)
    requires sep != ""
    ensures |parts| >= 1
    decreases |s|
  {
    match IndexOf(s, sep)
    case None => [s]
    case Some(i) => [s[..i]] + Split(s[i + |sep|..], sep)
  }

  /** `parts.join(sep)`. */
  function Join(parts: seq<string>, sep: string): string
  {
    if |parts| == 0 then ""
    else if |parts| == 1 then parts[0]
    else parts[0] + sep + Join(parts[1..], sep)
  }

  /** A string is the concatenation of its three slices around two cut points. */
  lemma SliceJoin(s: string, i: nat, j: nat)
    requires i <= j <= |s|
    ensures s == s[..i] + s[i..j] + s[j..]
  {
    assert s[..i] + s[i..j] == s[..j];
  }

  /** Joining the pieces of a split with the same separator gives back the original string. */
  lemma {:induction false} SplitJoin(s: string, sep: string)
    requires sep != ""
    ensures Join(Split(s, sep), sep) == s
    decreases |s|
  {
    var k := IndexOf(s, sep);
    if k.Some? {
      var i := k.value;
      var j := i + |sep|;
      assert j <= |s| && s[i..j] == sep;
      var rest := s[j..];
      var tail := Split(rest, sep);
      assert Split(s, sep) == [s[..i]] + tail;
      SplitJoin(rest, sep);
      SliceJoin(s, i, j);
      var parts := [s[..i]] + tail;
      assert parts[1..] == tail;
    }
  }

  /** A one-character pattern matches exactly where that character is. */
  lemma MatchesAtChar(s: string, c: char, j: nat)
    requires j < |s|
    ensures MatchesAt(s, [c], j) <==> s[j] == c
  {
    assert s[j..j + 1] == [s[j]];
  }

  /** Splitting at a single character leaves no piece that contains it. */
  lemma {:induction false} SplitPiecesAvoid(s: string, c: char)
    ensures forall k, j :: 0 <= k < |Split(s, [c])| && 0 <= j < |Split(s, [c])[k]| ==> Split(s, [c])[k][j] != c
    decreases |s|
  {
    var parts := Split(s, [c]);
    match IndexOf(s, [c])
    case None =>
      forall j | 0 <= j < |s|
        ensures s[j] != c
      {
        MatchesAtChar(s, c, j);
      }
    case Some(i) =>
      forall j | 0 <= j < i
        ensures s[j] != c
      {
        MatchesAtChar(s, c, j);
      }
      SplitPiecesAvoid(s[i + 1..], c);
      assert parts == [s[..i]] + Split(s[i + 1..], [c]);
      forall k, j | 0 <= k < |parts| && 0 <= j < |parts[k]|
        ensures parts[k][j] != c
      {
        if k > 0 {
          assert parts[k] == Split(s[i + 1..], [c])[k - 1];
        }
      }
  }

  predicate AllEmpty(parts: seq<string>)
  {
    forall k :: 0 <= k < |parts| ==> parts[k] == ""
  }

  /** `s` consists of the character `c` alone (or is empty). */
  predicate OnlyChar(s: string, c: char)
  {
    forall j :: 0 <= j < |s| ==> s[j] == c
  }

  /** Every piece of a split at `c` is empty exactly when the string consists of `c` alone. */
  lemma {:induction false} SplitAllEmpty(s: string, c: char)
    ensures AllEmpty(Split(s, [c])) <==> OnlyChar(s, c)
    decreases |s|
  {
    var parts := Split(s, [c]);
    match IndexOf(s, [c])
    case None =>
      assert parts == [s];
      if s != "" {
        assert !MatchesAt(s, [c], 0);
        MatchesAtChar(s, c, 0);
        assert parts[0] != "" && s[0] != c;
      }
    case Some(i) =>
      var rest := s[i + 1..];
      var tail := Split(rest, [c]);
      assert parts == [s[..i]] + tail;
      SplitAllEmpty(rest, c);
      MatchesAtChar(s, c, i);
      if i > 0 {
        assert !MatchesAt(s, [c], 0);
        MatchesAtChar(s, c, 0);
        assert parts[0] != "" && s[0] != c;
      } else {
        assert parts[0] == "" && s[0] == c;
        assert AllEmpty(tail) <==> AllEmpty(parts) by {
          assert forall k :: 0 <= k < |tail| ==> tail[k] == parts[k + 1];
        }
        assert OnlyChar(rest, c) <==> OnlyChar(s, c) by {
          assert forall j :: 0 <= j < |rest| ==> rest[j] == s[j + 1];
        }
      }
  }

  /** When `sep` first occurs right after `a`, the split's first piece is `a` and the rest is split on. */
  lemma IndexOfJoin(p: string, a: string, sep: string, v: string)
    requires sep != "" && p == a + sep + v
    requires forall j: nat :: j < |a| ==> !MatchesAt(p, sep, j)
    ensures IndexOf(p, sep) == Some(|a|)
    ensures Split(p, sep) == [a] + Split(v, sep)
  {
    assert p[..|a|] == a && p[|a|..|a| + |sep|] == sep && p[|a| + |sep|..] == v;
    assert MatchesAt(p, sep, |a|);
  }

  /** Each occurrence found adds a piece: a string containing the separator splits into at least two. */
  lemma SplitCounts(s: string, sep: string)
    requires sep != ""
    ensures Contains(s, sep) ==> |Split(s, sep)| == 1 + |Split(s[IndexOf(s, sep).value + |sep|..], sep)|
  {
  }

  /** An occurrence at or after `d` is an occurrence in the suffix from `d`. */
  lemma MatchesSuffix(s: string, t: string, d: nat, j: nat)
    requires d <= j && MatchesAt(s, t, j)
    ensures MatchesAt(s[d..], t, j - d)
  {
    assert s[d..][j - d..j - d + |t|] == s[j..j + |t|];
  }

  /** Two non-overlapping occurrences of the separator split a string into at least three pieces. */
  lemma SplitTwoOccurrences(s: string, sep: string, i: nat, j: nat)
    requires sep != ""
    requires MatchesAt(s, sep, i) && MatchesAt(s, sep, j) && i + |sep| <= j
    ensures |Split(s, sep)| >= 3
  {
    assert Contains(s, sep);
    var k := IndexOf(s, sep).value;
    assert k <= i;
    SplitCounts(s, sep);
    var rest := s[k + |sep|..];
    MatchesSuffix(s, sep, k + |sep|, j);
    assert Contains(rest, sep);
    SplitCounts(rest, sep);
  }

  /** `s.replace(t, u)` with a string pattern: only the first occurrence is replaced. */
  function ReplaceFirst(s: string, t: string, u: string): (r: string)
    ensures !Contains(s, t) ==> r == s
    ensures forall i: nat :: i <= |s| && MatchesAt(s, t, i) && (forall j: nat :: j < i ==> !MatchesAt(s, t, j)) ==>
      r == s[..i] + u + s[i + |t|..]
  {
    match IndexOf(s, t)
    case None => s
    case Some(i) => s[..i] + u + s[i + |t|..]
  }

  /** `toLowerCase` on one character (ASCII letters only). */
  function LowerChar(c: char): char
  {
    if 'A' <= c <= 'Z' then (c as int + 32) as char else c
  }

  /** `s.toLowerCase()` (ASCII letters only). */
  function ToLower(s: string): (r: string)
    ensures |r| == |s|
    ensures forall i :: 0 <= i < |s| ==> r[i] == LowerChar(s[i])
  {
    if s == "" then "" else [LowerChar(s[0])] + ToLower(s[1..])
  }

  /** Lower-casing twice is lower-casing once. */
  lemma ToLowerIdempotent(s: string)
    ensures ToLower(ToLower(s)) == ToLower(s)
  {
    assert forall i :: 0 <= i < |s| ==> ToLower(ToLower(s))[i] == ToLower(s)[i];
  }

  /** Lower-casing works character by character, so it distributes over concatenation. */
  lemma ToLowerAppend(a: string, b: string)
    ensures ToLower(a + b) == ToLower(a) + ToLower(b)
  {
    forall i | 0 <= i < |a + b|
      ensures ToLower(a + b)[i] == (ToLower(a) + ToLower(b))[i]
    {
      if i < |a| {
        assert (a + b)[i] == a[i];
      } else {
        assert (a + b)[i] == b[i - |a|];
      }
    }
  }

  /** An occurrence of `t` is an occurrence of its lower-cased form in the lower-cased string. */
  lemma MatchesLower(s: string, t: string, i: nat)
    requires MatchesAt(s, t, i)
    ensures MatchesAt(ToLower(s), ToLower(t), i)
  {
    forall k | 0 <= k < |t|
      ensures ToLower(s)[i + k] == ToLower(t)[k]
    {
      assert s[i + k] == t[k];
    }
  }

  predicate IsDigit(c: char)
  {
    '0' <= c <= '9'
  }

  function DigitChar(d: nat): (c: char)
    requires d < 10
    ensures IsDigit(c)
  {
    "0123456789"[d]
  }

  /** The decimal rendering of a natural number, as a template literal renders it. */
  function NatToString(n: nat): (r: string)
    ensures |r| >= 1
    ensures forall i :: 0 <= i < |r| ==> IsDigit(r[i])
  {
    if n < 10 then [DigitChar(n)] else NatToString(n / 10) + [DigitChar(n % 10)]
  }
}
