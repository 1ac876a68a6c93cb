/** String comparison as the services use it. `OrdinalIgnoreCase` and `ToLower()`
    are modelled by folding the ASCII letters A-Z to a-z. */
module Text {

  function LowerChar(c: char): (r: char)
    ensures 'A' <= c <= 'Z' ==> r as int == c as int + 32
    ensures !('A' <= c <= 'Z') ==> r == c
  {
    if 'A' <= c <= 'Z' then (c as int + 32) as char else c
  }

  /** `s.ToLower()` on ASCII letters. */
  function Lower(s: string): (r: string)
    ensures |r| == |s|
    ensures forall i :: 0 <= i < |s| ==> r[i] == LowerChar(s[i])
  {
    seq(|s|, i requires 0 <= i < |s| => LowerChar(s[i]))
  }

  lemma LowerIdempotent(s: string)
    ensures Lower(Lower(s)) == Lower(s)
  {
  }

  /** Folding distributes over concatenation. */
  lemma LowerAppend(a: string, b: string)
    ensures Lower(a + b) == Lower(a) + Lower(b)
  {
    assert forall i :: 0 <= i < |a| ==> (a + b)[i] == a[i];
    assert forall i :: |a| <= i < |a + b| ==> (a + b)[i] == b[i - |a|];
  }

  /** `s.StartsWith(prefix)`: ordinal prefix test. */
  predicate StartsWith(s: string, prefix: string): (b: bool)
    ensures b <==> |prefix| <= |s| && forall i :: 0 <= i < |prefix| ==> s[i] == prefix[i]
  {
    |prefix| <= |s| && s[..|prefix|] == prefix
  }

  /** `s.Contains(t)` with ordinal comparison. The empty string occurs in every string. */
  predicate Contains(s: string, t: string): (b: bool)
    ensures t == "" ==> b
    ensures StartsWith(s, t) ==> b
    ensures b ==> |t| <= |s|
    decreases |s|
  {
    StartsWith(s, t) || (|s| > 0 && Contains(s[1..], t))
  }

  /** `Contains` holds exactly when `t` occurs at some position of `s`. */
  lemma {:induction false} ContainsIffOccurs(s: string, t: string)
    ensures Contains(s, t) <==> exists k :: 0 <= k <= |s| && StartsWith(s[k..], t)
    decreases |s|
  {
    if StartsWith(s, t) {
      assert s[0..] == s;
    } else if |s| > 0 {
      ContainsIffOccurs(s[1..], t);
      if Contains(s[1..], t) {
        var k :| 0 <= k <= |s| - 1 && StartsWith(s[1..][k..], t);
        assert s[1..][k..] == s[k + 1..];
      } else {
        assert forall k :: 1 <= k <= |s| ==> s[1..][k - 1..] == s[k..];
      }
    }
  }

  /** `s.Contains(t, StringComparison.OrdinalIgnoreCase)`. */
  predicate ContainsIgnoreCase(s: string, t: string): (b: bool)
    ensures t == "" ==> b
    ensures b ==> |t| <= |s|
  {
    Contains(Lower(s), Lower(t))
  }

  lemma {:induction false} StartsWithLower(s: string, t: string)
    requires StartsWith(s, t)
    ensures StartsWith(Lower(s), Lower(t))
  {
    assert Lower(s)[..|t|] == Lower(t);
  }

  /** An exact occurrence is also an occurrence ignoring case. */
  lemma {:induction false} ContainsImpliesIgnoreCase(s: string, t: string)
    ensures Contains(s, t) ==> ContainsIgnoreCase(s, t)
    decreases |s|
  {
    if StartsWith(s, t) {
      StartsWithLower(s, t);
    } else if Contains(s, t) {
      ContainsImpliesIgnoreCase(s[1..], t);
      assert Lower(s)[1..] == Lower(s[1..]);
    }
  }

  /** Matching ignoring case does not depend on the case of either argument. */
  lemma IgnoreCaseIsCaseBlind(s: string, t: string)
    ensures ContainsIgnoreCase(Lower(s), t) == ContainsIgnoreCase(s, t)
    ensures ContainsIgnoreCase(s, Lower(t)) == ContainsIgnoreCase(s, t)
  {
    LowerIdempotent(s);
    LowerIdempotent(t);
  }
}
