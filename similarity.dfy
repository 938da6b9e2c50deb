/**
 * The contact plausibility check: a normalised longest-common-subsequence
 * similarity between an event's description and a contact's name,
 * accepted at 0.2 or above.
 *
 * The similarity is LCS(d, n) / max(|d|, |n|), and 1.0 when both strings
 * are empty. The threshold test `LCS / max >= 1/5` is stated on integers
 * as `5 * LCS >= max`, so the boundary case is exact.
 */
module Similarity {
  import opened Wrappers
  import opened Records

  function Max(x: int, y: int): int
  {
    if x < y then y else x
  }

  /** Length of a longest common subsequence of `a` and `b`, character by character. */
  function LCS(a: string, b: string): (n: nat)
    ensures n <= |a| && n <= |b|
    decreases |a| + |b|
  {
    if a == [] || b == [] then 0
    else if a[|a| - 1] == b[|b| - 1] then LCS(a[..|a| - 1], b[..|b| - 1]) + 1
    else Max(LCS(a[..|a| - 1], b), LCS(a, b[..|b| - 1]))
  }

  /** `x` can be obtained from `a` by deleting characters. */
  predicate IsSubsequence(x: string, a: string)
    decreases |a|
  {
    if x == [] then true
    else if a == [] then false
    else (x[|x| - 1] == a[|a| - 1] && IsSubsequence(x[..|x| - 1], a[..|a| - 1]))
         || IsSubsequence(x, a[..|a| - 1])
  }

  /** Similarity at least 0.2: `LCS / max(|d|, |n|) >= 1/5`, with empty/empty scoring 1.0. */
  predicate MeetsThreshold(desc: string, name: string)
  {
    (desc == [] && name == []) || 5 * LCS(desc, name) >= Max(|desc|, |name|)
  }

  /** An event without a description never matches a contact. */
  function FuzzyMatchesContact(event: ShiftEvent, contact: Contact): (r: bool)
    ensures event.description.None? ==> !r
    ensures event.description.Some? ==> (r <==> MeetsThreshold(event.description.value, contact.name))
  {
    match event.description
    case None => false
    case Some(desc) => MeetsThreshold(desc, contact.name)
  }

  lemma {:induction false} SubsequenceDropLast(x: string, a: string)
    requires x != [] && IsSubsequence(x, a)
    ensures IsSubsequence(x[..|x| - 1], a)
    decreases |a|
  {
    if x[|x| - 1] == a[|a| - 1] && IsSubsequence(x[..|x| - 1], a[..|a| - 1]) {
    } else {
      SubsequenceDropLast(x, a[..|a| - 1]);
    }
  }

  lemma {:induction false} SubsequenceExtend(x: string, a: string, b: string)
    requires IsSubsequence(x, a)
    ensures IsSubsequence(x, a + b)
    decreases |b|
  {
    if b == [] {
      assert a + b == a;
    } else if x != [] {
      assert (a + b)[..|a + b| - 1] == a + b[..|b| - 1];
      SubsequenceExtend(x, a, b[..|b| - 1]);
    }
  }

  lemma {:induction false} SubsequenceSelf(s: string)
    ensures IsSubsequence(s, s)
  {
    if s != [] {
      SubsequenceSelf(s[..|s| - 1]);
    }
  }

  /** Subsequences of two strings concatenate to a subsequence of their concatenation. */
  lemma {:induction false} SubsequenceAppend(x: string, a: string, y: string, b: string)
    requires IsSubsequence(x, a) && IsSubsequence(y, b)
    ensures IsSubsequence(x + y, a + b)
    decreases |b|
  {
    if y == [] {
      assert x + y == x;
      SubsequenceExtend(x, a, b);
    } else {
      var b', y' := b[..|b| - 1], y[..|y| - 1];
      assert (a + b)[..|a + b| - 1] == a + b';
      assert (x + y)[..|x + y| - 1] == x + y';
      if y[|y| - 1] == b[|b| - 1] && IsSubsequence(y', b') {
        SubsequenceAppend(x, a, y', b');
      } else {
        SubsequenceAppend(x, a, y, b');
      }
    }
  }

  /** LCS is at least as long as any common subsequence. */
  lemma {:induction false} LCSIsLongest(x: string, a: string, b: string)
    requires IsSubsequence(x, a) && IsSubsequence(x, b)
    ensures LCS(a, b) >= |x|
    decreases |a| + |b|
  {
    if x == [] {
    } else {
      var a', b', x' := a[..|a| - 1], b[..|b| - 1], x[..|x| - 1];
      var aTakes := x[|x| - 1] == a[|a| - 1] && IsSubsequence(x', a');
      var bTakes := x[|x| - 1] == b[|b| - 1] && IsSubsequence(x', b');
      if a[|a| - 1] == b[|b| - 1] {
        if x[|x| - 1] == a[|a| - 1] {
          if !aTakes { SubsequenceDropLast(x, a'); }
          if !bTakes { SubsequenceDropLast(x, b'); }
          LCSIsLongest(x', a', b');
        } else {
          LCSIsLongest(x, a', b');
        }
      } else if aTakes {
        LCSIsLongest(x, a, b');
      } else {
        LCSIsLongest(x, a', b);
      }
    }
  }

  lemma SubsequencePushLast(x: string, a: string, c: char)
    requires IsSubsequence(x, a)
    ensures IsSubsequence(x + [c], a + [c])
  {
    assert (x + [c])[..|x|] == x;
    assert (a + [c])[..|a|] == a;
  }

  /** Some common subsequence is as long as LCS, so with `LCSIsLongest` LCS is
      exactly the length of a longest common subsequence. */
  lemma {:induction false} LCSAchieved(a: string, b: string)
    ensures exists x :: IsSubsequence(x, a) && IsSubsequence(x, b) && |x| == LCS(a, b)
    decreases |a| + |b|
  {
    if a == [] || b == [] {
      assert IsSubsequence([], a) && IsSubsequence([], b);
    } else {
      var a', b' := a[..|a| - 1], b[..|b| - 1];
      var ca, cb := a[|a| - 1], b[|b| - 1];
      assert a == a' + [ca] && b == b' + [cb];
      if ca == cb {
        LCSAchieved(a', b');
        var x :| IsSubsequence(x, a') && IsSubsequence(x, b') && |x| == LCS(a', b');
        SubsequencePushLast(x, a', ca);
        SubsequencePushLast(x, b', cb);
        assert |x + [ca]| == LCS(a, b);
      } else if LCS(a', b) >= LCS(a, b') {
        LCSAchieved(a', b);
        var x :| IsSubsequence(x, a') && IsSubsequence(x, b) && |x| == LCS(a', b);
        SubsequenceExtend(x, a', [ca]);
      } else {
        LCSAchieved(a, b');
        var x :| IsSubsequence(x, a) && IsSubsequence(x, b') && |x| == LCS(a, b');
        SubsequenceExtend(x, b', [cb]);
      }
    }
  }

  lemma {:induction false} LCSSelf(s: string)
    ensures LCS(s, s) == |s|
  {
    if s != [] {
      LCSSelf(s[..|s| - 1]);
    }
  }

  /** Strings without a character in common have no common subsequence. */
  lemma {:induction false} LCSDisjoint(a: string, b: string)
    requires forall c :: c in a ==> c !in b
    ensures LCS(a, b) == 0
    decreases |a| + |b|
  {
    if a != [] && b != [] {
      assert a[|a| - 1] in a;
      assert forall c :: c in a[..|a| - 1] ==> c in a;
      assert forall c :: c in b[..|b| - 1] ==> c in b;
      LCSDisjoint(a[..|a| - 1], b);
      LCSDisjoint(a, b[..|b| - 1]);
    }
  }

  lemma {:induction false} LCSSingleton(c: char, b: string)
    ensures LCS([c], b) == if c in b then 1 else 0
  {
    if b != [] {
      var b' := b[..|b| - 1];
      assert b == b' + [b[|b| - 1]];
      assert c in b <==> c == b[|b| - 1] || c in b';
      if c != b[|b| - 1] {
        assert [c][..0] == [];
        LCSSingleton(c, b');
      }
    }
  }

  /** Identical strings have similarity 1.0, so they always meet the threshold. */
  lemma IdenticalMeetsThreshold(s: string)
    ensures LCS(s, s) == Max(|s|, |s|)
    ensures MeetsThreshold(s, s)
  {
    LCSSelf(s);
  }

  /** Strings, not both empty, with no character in common score 0.0 and fail. */
  lemma DisjointFailsThreshold(desc: string, name: string)
    requires desc != [] || name != []
    requires forall c :: c in desc ==> c !in name
    ensures LCS(desc, name) == 0
    ensures !MeetsThreshold(desc, name)
  {
    LCSDisjoint(desc, name);
  }

  /**
   * A description that is a prefix of the name shares all of itself with it,
   * so it is plausible exactly when the name is at most five times as long.
   */
  lemma PrefixThreshold(desc: string, suffix: string)
    ensures LCS(desc, desc + suffix) == |desc|
    ensures MeetsThreshold(desc, desc + suffix) <==> |desc + suffix| <= 5 * |desc|
  {
    SubsequenceSelf(desc);
    SubsequenceExtend(desc, desc, suffix);
    LCSIsLongest(desc, desc, desc + suffix);
  }

  /**
   * The threshold is inclusive on the exact ratio: one common character out
   * of five is exactly 0.2 and plausible; one out of six (about 0.167) is not.
   */
  lemma ThresholdBoundary()
    ensures MeetsThreshold("a", "abcde")
    ensures !MeetsThreshold("a", "abcdef")
  {
    assert "a" == ['a'];
    LCSSingleton('a', "abcde");
    LCSSingleton('a', "abcdef");
  }
}
