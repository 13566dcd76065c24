/**
 * Case-insensitive keyword matching, as the generator uses it: Python's
 * `str.lower()` followed by `in`, and pandas' `str.contains(..., case=False)`.
 * Case folding is modelled as ASCII lower-casing.
 */
module Text {

  /** ASCII lower-casing of one character; every other character is kept. */
  function LowerChar(c: char): char
  {
    if 'A' <= c <= 'Z' then (c as int + 32) as char else c
  }

  predicate IsLowerChar(c: char)
  {
    !('A' <= c <= 'Z')
  }

  /** `s.lower()`, character by character. */
  function Lower(s: string): string
  {
    seq(|s|, i requires 0 <= i < |s| => LowerChar(s[i]))
  }

  /** Lower-casing leaves no upper-case letter behind ... */
  lemma LowerIsLower(s: string)
    ensures forall i :: 0 <= i < |Lower(s)| ==> IsLowerChar(Lower(s)[i])
  {
  }

  /** ... and so lower-casing twice is lower-casing once. */
  lemma LowerIdempotent(s: string)
    ensures Lower(Lower(s)) == Lower(s)
  {
    var once := Lower(s);
    assert forall i :: 0 <= i < |once| ==> Lower(once)[i] == once[i];
  }

  predicate IsPrefix(p: string, s: string)
  {
    |p| <= |s| && s[..|p|] == p
  }

  /** `p in s`: some suffix of `s` starts with `p` (the empty `p` occurs everywhere). */
  function Contains(s: string, p: string): bool
    decreases |s|
  {
    IsPrefix(p, s) || (|s| > 0 && Contains(s[1..], p))
  }

  /** `p` occurs in `s` starting at position `i`. */
  ghost predicate OccursAt(s: string, p: string, i: int)
  {
    0 <= i && i + |p| <= |s| && s[i..i + |p|] == p
  }

  /** An occurrence one position further in `s` is an occurrence in `s` without its head. */
  lemma OccursAtShift(s: string, p: string, i: nat)
    requires |s| > 0
    ensures OccursAt(s, p, i + 1) <==> OccursAt(s[1..], p, i)
  {
    if i + 1 + |p| <= |s| {
      assert s[1..][i..i + |p|] == s[i + 1..i + 1 + |p|];
    }
  }

  /** Every match the scan reports is an occurrence at some position ... */
  lemma {:induction false} ContainsHasOccurrence(s: string, p: string) returns (i: nat)
    requires Contains(s, p)
    ensures OccursAt(s, p, i)
    decreases |s|
  {
    if IsPrefix(p, s) {
      i := 0;
    } else {
      var j := ContainsHasOccurrence(s[1..], p);
      OccursAtShift(s, p, j);
      i := j + 1;
    }
  }

  /** ... and the scan finds every occurrence. */
  lemma {:induction false} OccurrenceIsContained(s: string, p: string, i: nat)
    requires OccursAt(s, p, i)
    ensures Contains(s, p)
    decreases i
  {
    if i > 0 {
      OccursAtShift(s, p, i - 1);
      OccurrenceIsContained(s[1..], p, i - 1);
    }
  }

  /** The scan `Contains` agrees with the positional definition of a substring. */
  lemma ContainsIff(s: string, p: string)
    ensures Contains(s, p) <==> exists i :: OccursAt(s, p, i)
  {
    if Contains(s, p) {
      var i := ContainsHasOccurrence(s, p);
    }
    if exists i :: OccursAt(s, p, i) {
      var i :| OccursAt(s, p, i);
      OccurrenceIsContained(s, p, i);
    }
  }

  /** `s` starts with `p` when both are compared character by character after lower-casing. */
  predicate StartsWithIgnoreCase(s: string, p: string)
  {
    |p| <= |s| && forall i :: 0 <= i < |p| ==> LowerChar(s[i]) == LowerChar(p[i])
  }

  /** Case-insensitive containment: some suffix of `s` starts with `p`, ignoring case. */
  function ContainsIgnoreCase(s: string, p: string): bool
    decreases |s|
  {
    StartsWithIgnoreCase(s, p) || (|s| > 0 && ContainsIgnoreCase(s[1..], p))
  }

  /** Lower-casing commutes with dropping the first character. */
  lemma LowerTail(s: string)
    requires |s| > 0
    ensures Lower(s)[1..] == Lower(s[1..])
  {
  }

  /** The character-wise prefix test is the prefix test on the lower-cased strings. */
  lemma StartsWithIgnoreCaseIsPrefix(s: string, p: string)
    ensures StartsWithIgnoreCase(s, p) == IsPrefix(Lower(p), Lower(s))
  {
    var lp, ls := Lower(p), Lower(s);
    if IsPrefix(lp, ls) {
      assert forall i :: 0 <= i < |p| ==> LowerChar(s[i]) == ls[..|lp|][i];
    }
  }

  /** `p.lower() in s.lower()`: case-insensitive containment is containment of the lower-cased strings. */
  lemma {:induction false} ContainsIgnoreCaseIsLowerContains(s: string, p: string)
    ensures ContainsIgnoreCase(s, p) == Contains(Lower(s), Lower(p))
    decreases |s|
  {
    StartsWithIgnoreCaseIsPrefix(s, p);
    if |s| > 0 {
      ContainsIgnoreCaseIsLowerContains(s[1..], p);
      LowerTail(s);
    }
  }
}
