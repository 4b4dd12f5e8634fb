/**
 * `body.replace(new RegExp("\\${" + name + "}", "gi"), value)` for a placeholder
 * name without regular-expression metacharacters: every case-insensitive,
 * non-overlapping occurrence of the placeholder, scanning left to right, is
 * replaced by the literal value.
 */
module Substitution {

  /** Case folding of the `i` flag, restricted to ASCII letters. */
  function Fold(c: char): char
  {
    if 'A' <= c <= 'Z' then ((c as int) + 32) as char else c
  }

  /** `pat` occurs at position `i` of `s`, ignoring case. */
  predicate MatchesAt(s: string, pat: string, i: nat)
  {
    i + |pat| <= |s| && forall k :: 0 <= k < |pat| ==> Fold(s[i + k]) == Fold(pat[k])
  }

  predicate Occurs(s: string, pat: string)
  {
    exists i: nat | i <= |s| :: MatchesAt(s, pat, i)
  }

  /** Dropping the first character shifts every match one place to the left. */
  lemma MatchShift(s: string, pat: string, i: nat)
    requires |s| > 0
    ensures MatchesAt(s[1..], pat, i) <==> MatchesAt(s, pat, i + 1)
  {
    if MatchesAt(s, pat, i + 1) {
      forall k | 0 <= k < |pat|
        ensures Fold(s[1..][i + k]) == Fold(pat[k])
      {
        assert s[1..][i + k] == s[i + 1 + k];
      }
    }
  }

  /** An occurrence in `s` is at its front or in its tail. */
  lemma OccursSplit(s: string, pat: string)
    requires |s| > 0
    ensures Occurs(s, pat) <==> MatchesAt(s, pat, 0) || Occurs(s[1..], pat)
  {
    if Occurs(s, pat) && !MatchesAt(s, pat, 0) {
      var i: nat :| i <= |s| && MatchesAt(s, pat, i);
      assert i > 0;
      MatchShift(s, pat, i - 1);
    }
    if Occurs(s[1..], pat) {
      var i: nat :| i <= |s| - 1 && MatchesAt(s[1..], pat, i);
      MatchShift(s, pat, i);
    }
  }

  /** No occurrence fits in a string shorter than the placeholder. */
  lemma NoRoom(s: string, pat: string)
    requires |s| < |pat|
    ensures !Occurs(s, pat)
  {
  }

  /** The global, case-insensitive replacement. A body without the placeholder
      comes back unchanged. */
  function ReplaceAll(s: string, pat: string, rep: string): (r: string)
    requires |pat| > 0
    ensures !Occurs(s, pat) ==> r == s
    decreases |s|
  {
    if |s| < |pat| then s
    else if MatchesAt(s, pat, 0) then rep + ReplaceAll(s[|pat|..], pat, rep)
    else
      OccursSplit(s, pat);
      [s[0]] + ReplaceAll(s[1..], pat, rep)
  }

  /** How many occurrences the left-to-right scan replaces. */
  function MatchCount(s: string, pat: string): nat
    requires |pat| > 0
    decreases |s|
  {
    if |s| < |pat| then 0
    else if MatchesAt(s, pat, 0) then 1 + MatchCount(s[|pat|..], pat)
    else MatchCount(s[1..], pat)
  }

  /** Each replacement changes the length by the difference between the value
      and the placeholder. */
  lemma {:induction false} ReplaceAllLength(s: string, pat: string, rep: string)
    requires |pat| > 0
    ensures |ReplaceAll(s, pat, rep)| == |s| + MatchCount(s, pat) * (|rep| - |pat|)
    decreases |s|
  {
    var d := |rep| - |pat|;
    if |s| < |pat| {
    } else if MatchesAt(s, pat, 0) {
      var tail := s[|pat|..];
      var c := MatchCount(tail, pat);
      ReplaceAllLength(tail, pat, rep);
      assert |ReplaceAll(s, pat, rep)| == |rep| + |ReplaceAll(tail, pat, rep)|;
      assert MatchCount(s, pat) == 1 + c;
      MulSucc(c, d);
    } else {
      var tail := s[1..];
      ReplaceAllLength(tail, pat, rep);
      assert |ReplaceAll(s, pat, rep)| == 1 + |ReplaceAll(tail, pat, rep)|;
      assert MatchCount(s, pat) == MatchCount(tail, pat);
    }
  }

  lemma MulSucc(c: nat, d: int)
    ensures (1 + c) * d == d + c * d
  {
  }

  /** The scan replaces something exactly when the placeholder occurs. */
  lemma {:induction false} MatchCountZero(s: string, pat: string)
    requires |pat| > 0
    ensures MatchCount(s, pat) == 0 <==> !Occurs(s, pat)
    decreases |s|
  {
    if |s| < |pat| {
      NoRoom(s, pat);
    } else if MatchesAt(s, pat, 0) {
    } else {
      OccursSplit(s, pat);
      MatchCountZero(s[1..], pat);
    }
  }

  /** When the value is not as long as the placeholder, the body is unchanged
      exactly when the placeholder is absent. */
  lemma UnchangedIffAbsent(s: string, pat: string, rep: string)
    requires |pat| > 0 && |rep| != |pat|
    ensures ReplaceAll(s, pat, rep) == s <==> !Occurs(s, pat)
  {
    var r := ReplaceAll(s, pat, rep);
    if r == s {
      ReplaceAllLength(s, pat, rep);
      MatchCountZero(s, pat);
      NonZeroProduct(MatchCount(s, pat), |rep| - |pat|);
    }
  }

  lemma NonZeroProduct(c: nat, d: int)
    requires d != 0
    ensures c * d == 0 ==> c == 0
  {
    if c > 0 {
      if d > 0 {
        assert c * d >= d by { assert c * d == (c - 1) * d + d; assert (c - 1) * d >= 0; }
      } else {
        assert c * d <= d by { assert c * d == (c - 1) * d + d; assert (c - 1) * d <= 0; }
      }
    }
  }

  /** Every spelling of the placeholder that differs only in case is replaced. */
  lemma {:induction false} CaseVariantReplaced(v: string, pat: string, rep: string, rest: string)
    requires |pat| > 0 && |v| == |pat|
    requires forall k :: 0 <= k < |pat| ==> Fold(v[k]) == Fold(pat[k])
    ensures ReplaceAll(v + rest, pat, rep) == rep + ReplaceAll(rest, pat, rep)
  {
    assert MatchesAt(v + rest, pat, 0) by {
      forall k | 0 <= k < |pat|
        ensures Fold((v + rest)[k]) == Fold(pat[k])
      {
        assert (v + rest)[k] == v[k];
      }
    }
    assert (v + rest)[|pat|..] == rest;
  }

  /** Dropping `n` characters shifts every match `n` places to the left. */
  lemma MatchShiftBy(s: string, pat: string, n: nat, i: nat)
    requires n <= |s|
    ensures MatchesAt(s[n..], pat, i) <==> MatchesAt(s, pat, i + n)
  {
    if MatchesAt(s, pat, i + n) {
      forall k | 0 <= k < |pat|
        ensures Fold(s[n..][i + k]) == Fold(pat[k])
      {
        assert s[n..][i + k] == s[i + n + k];
      }
    }
    if MatchesAt(s[n..], pat, i) {
      forall k | 0 <= k < |pat|
        ensures Fold(s[i + n + k]) == Fold(pat[k])
      {
        assert s[n..][i + k] == s[i + n + k];
      }
    }
  }

  /** Replacing the placeholder by itself leaves a body unchanged when each of its
      occurrences is spelled exactly as the placeholder, although the placeholder
      may be present. */
  lemma {:induction false} SelfReplacementUnchanged(s: string, pat: string)
    requires |pat| > 0
    requires forall i: nat :: MatchesAt(s, pat, i) ==> s[i..i + |pat|] == pat
    ensures ReplaceAll(s, pat, pat) == s
    decreases |s|
  {
    if |s| >= |pat| {
      if MatchesAt(s, pat, 0) {
        var rest := s[|pat|..];
        forall i: nat | MatchesAt(rest, pat, i)
          ensures rest[i..i + |pat|] == pat
        {
          MatchShiftBy(s, pat, |pat|, i);
          assert rest[i..i + |pat|] == s[i + |pat|..i + |pat| + |pat|];
        }
        SelfReplacementUnchanged(rest, pat);
        assert s == s[..|pat|] + rest;
      } else {
        var rest := s[1..];
        forall i: nat | MatchesAt(rest, pat, i)
          ensures rest[i..i + |pat|] == pat
        {
          MatchShift(s, pat, i);
          assert rest[i..i + |pat|] == s[i + 1..i + 1 + |pat|];
        }
        SelfReplacementUnchanged(rest, pat);
        assert s == [s[0]] + rest;
      }
    }
  }

  /** For instance `${x}` replaced by itself: the placeholder is present, yet the
      body does not change. */
  lemma SelfReplacementExample()
    ensures Occurs("${x}", "${x}")
    ensures ReplaceAll("${x}", "${x}", "${x}") == "${x}"
  {
    assert MatchesAt("${x}", "${x}", 0);
    CaseVariantReplaced("${x}", "${x}", "${x}", "");
    assert "${x}" + "" == "${x}";
  }
}
