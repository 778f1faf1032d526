/**
 * The JavaScript string operations the intent handler relies on
 * (`startsWith`, `includes`, `indexOf`, `replace` with a string pattern,
 * and `split` on a one-character separator), over `seq<char>`.
 */
module Strings {
  import opened Wrappers

  /** `s.startsWith(prefix)` */
  predicate StartsWith(s: string, prefix: string) {
    |prefix| <= |s| && s[..|prefix|] == prefix
  }

  /** `part` occurs in `s` starting at position `k`. */
  predicate OccursAt(s: string, part: string, k: nat) {
    k + |part| <= |s| && s[k..k + |part|] == part
  }

  /** `s.includes(part)` */
  predicate Contains(s: string, part: string) {
    exists k: nat | k <= |s| :: OccursAt(s, part, k)
  }

  /** `s.indexOf(part)`, with `-1` read as `None`: the first position where `part` occurs. */
  function IndexOf(s: string, part: string): (r: Option<nat>)
    ensures r.Some? ==> OccursAt(s, part, r.value)
    ensures r.Some? ==> forall k: nat | k < r.value :: !OccursAt(s, part, k)
    ensures r.None? <==> !Contains(s, part)
    decreases |s|
  {
    if |s| < |part| then None
    else if OccursAt(s, part, 0) then Some(0)
    else
      ShiftOccurrence(s, part);
      match IndexOf(s[1..], part)
      case None => None
      case Some(i) => Some(i + 1)
  }

  /** An occurrence in the tail of `s` is an occurrence in `s` one position later, and back. */
  lemma ShiftOccurrence(s: string, part: string)
    requires |s| > 0
    ensures forall k: nat | 1 <= k :: OccursAt(s, part, k) <==> OccursAt(s[1..], part, k - 1)
  {
    forall k: nat | 1 <= k
      ensures OccursAt(s, part, k) <==> OccursAt(s[1..], part, k - 1)
    {
      if k + |part| <= |s| {
        assert s[1..][k - 1..k - 1 + |part|] == s[k..k + |part|];
      }
    }
  }

  /** `s.replace(pattern, replacement)` with a string pattern: only the first occurrence is replaced. */
  function ReplaceFirst(s: string, pattern: string, replacement: string): (r: string)
    ensures !Contains(s, pattern) ==> r == s
    ensures Contains(s, pattern) ==> |r| == |s| - |pattern| + |replacement|
  {
    match IndexOf(s, pattern)
    case None => s
    case Some(i) => s[..i] + replacement + s[i + |pattern|..]
  }

  /** When `s` starts with the pattern, `replace` swaps that prefix and nothing else. */
  lemma ReplaceFirstAtStart(s: string, pattern: string, replacement: string)
    requires StartsWith(s, pattern)
    ensures ReplaceFirst(s, pattern, replacement) == replacement + s[|pattern|..]
  {
    assert OccursAt(s, pattern, 0);
  }

  /** A substring of a prefix of `s` is a substring of `s`. */
  lemma ContainsInPrefix(s: string, n: nat, part: string)
    requires n <= |s|
    requires Contains(s[..n], part)
    ensures Contains(s, part)
  {
    var k: nat :| k <= |s[..n]| && OccursAt(s[..n], part, k);
    assert s[..n][k..k + |part|] == s[k..k + |part|];
    assert OccursAt(s, part, k);
  }

  /** A pattern one of whose characters `s` lacks does not occur in `s`. */
  lemma MissingCharNotContained(s: string, part: string, m: nat)
    requires m < |part| && part[m] !in s
    ensures !Contains(s, part)
  {
    forall k: nat | k <= |s|
      ensures !OccursAt(s, part, k)
    {
      if k + |part| <= |s| {
        assert s[k..k + |part|][m] == s[k + m];
      }
    }
  }

  /** `s.split(sep)` for a one-character separator: never empty, `""` gives `[""]`. */
  function Split(s: string, sep: char): (pieces: seq<string>)
    ensures |pieces| >= 1
    ensures forall k | 0 <= k < |pieces| :: sep !in pieces[k]
    decreases |s|
  {
    if s == [] then [""]
    else
      var rest := Split(s[1..], sep);
      if s[0] == sep then [""] + rest
      else [[s[0]] + rest[0]] + rest[1..]
  }

  /** `pieces.join(sep)` */
  function Join(pieces: seq<string>, sep: char): (s: string)
    requires |pieces| >= 1
    decreases |pieces|
  {
    if |pieces| == 1 then pieces[0] else pieces[0] + [sep] + Join(pieces[1..], sep)
  }

  /** Number of occurrences of `c` in `s`. */
  function Count(s: string, c: char): nat {
    multiset(s)[c]
  }

  /** Joining the pieces of a split gives the string back. */
  lemma {:induction false} JoinSplit(s: string, sep: char)
    ensures Join(Split(s, sep), sep) == s
    decreases |s|
  {
    if s != [] {
      var rest := Split(s[1..], sep);
      JoinSplit(s[1..], sep);
      if s[0] == sep {
        assert Split(s, sep)[1..] == rest;
      } else if |rest| == 1 {
        assert Split(s, sep) == [[s[0]] + rest[0]];
        assert s == [s[0]] + s[1..];
      } else {
        var pieces := Split(s, sep);
        assert pieces[1..] == rest[1..];
        calc {
          Join(pieces, sep);
          ([s[0]] + rest[0]) + [sep] + Join(rest[1..], sep);
          [s[0]] + (rest[0] + [sep] + Join(rest[1..], sep));
          [s[0]] + Join(rest, sep);
          [s[0]] + s[1..];
          s;
        }
      }
    }
  }

  /** A split yields one more piece than there are separators. */
  lemma {:induction false} SplitLength(s: string, sep: char)
    ensures |Split(s, sep)| == Count(s, sep) + 1
    decreases |s|
  {
    if s != [] {
      SplitLength(s[1..], sep);
      assert s == [s[0]] + s[1..];
      assert multiset(s) == multiset([s[0]]) + multiset(s[1..]);
    }
  }

  /** A string without the separator splits into itself alone. */
  lemma {:induction false} SplitWithoutSeparator(s: string, sep: char)
    requires sep !in s
    ensures Split(s, sep) == [s]
    decreases |s|
  {
    if s != [] {
      SplitWithoutSeparator(s[1..], sep);
      assert [s[0]] + s[1..] == s;
    }
  }

  /** The first separator ends the first piece; the rest is split on its own. */
  lemma {:induction false} SplitAtFirst(a: string, sep: char, b: string)
    requires sep !in a
    ensures Split(a + [sep] + b, sep) == [a] + Split(b, sep)
    decreases |a|
  {
    var s := a + [sep] + b;
    if a == [] {
      assert s[1..] == b;
    } else {
      assert s[1..] == a[1..] + [sep] + b;
      SplitAtFirst(a[1..], sep, b);
      assert [a[0]] + a[1..] == a;
    }
  }

  /** Splitting a join of separator-free pieces gives the pieces back. */
  lemma {:induction false} SplitJoin(pieces: seq<string>, sep: char)
    requires |pieces| >= 1
    requires forall k | 0 <= k < |pieces| :: sep !in pieces[k]
    ensures Split(Join(pieces, sep), sep) == pieces
    decreases |pieces|
  {
    if |pieces| == 1 {
      SplitWithoutSeparator(pieces[0], sep);
    } else {
      SplitJoin(pieces[1..], sep);
      SplitAtFirst(pieces[0], sep, Join(pieces[1..], sep));
      assert [pieces[0]] + pieces[1..] == pieces;
    }
  }
}
