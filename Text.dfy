/** The few string operations of the Kotlin library that the converter relies on,
    with case folding restricted to ASCII. */
module Text {

  function LowerChar(c: char): char {
    if 'A' <= c <= 'Z' then (c as int + 32) as char else c
  }

  /** `String.lowercase()` */
  function Lowercase(s: string): (r: string)
    ensures |r| == |s|
    ensures forall i :: 0 <= i < |s| ==> r[i] == LowerChar(s[i])
  {
    LowercaseFrom(s, 0)
  }

  /** The lower-cased characters of `s` from position `i` on. */
  function LowercaseFrom(s: string, i: nat): (r: string)
    requires i <= |s|
    ensures |r| == |s| - i
    ensures forall k :: i <= k < |s| ==> r[k - i] == LowerChar(s[k])
    decreases |s| - i
  {
    if i == |s| then [] else [LowerChar(s[i])] + LowercaseFrom(s, i + 1)
  }

  /** Positions `i` up to `n` of `a` and `b` hold the same letter, ignoring case. */
  predicate FoldedEqualFrom(a: string, b: string, i: nat, n: nat)
    requires i <= n <= |a| && n <= |b|
    decreases n - i
  {
    i == n || (LowerChar(a[i]) == LowerChar(b[i]) && FoldedEqualFrom(a, b, i + 1, n))
  }

  lemma {:induction false} FoldedEqualFromIsPointwise(a: string, b: string, i: nat, n: nat)
    requires i <= n <= |a| && n <= |b|
    ensures FoldedEqualFrom(a, b, i, n) <==> forall k :: i <= k < n ==> LowerChar(a[k]) == LowerChar(b[k])
    decreases n - i
  {
    if i < n {
      FoldedEqualFromIsPointwise(a, b, i + 1, n);
    }
  }

  /** `a` equals the first `n` characters of `b`, ignoring case. */
  predicate EqualsPrefixIgnoreCase(a: string, b: string, n: nat)
    requires n <= |b|
  {
    |a| == n && FoldedEqualFrom(a, b, 0, n)
  }

  /** `a.equals(b, ignoreCase = true)` */
  predicate EqualsIgnoreCase(a: string, b: string) {
    EqualsPrefixIgnoreCase(a, b, |b|)
  }

  /** Ignoring case means comparing the lower-cased forms. */
  lemma EqualsIgnoreCaseIsLowercaseEquality(a: string, b: string)
    ensures EqualsIgnoreCase(a, b) <==> Lowercase(a) == Lowercase(b)
  {
    if |a| == |b| {
      FoldedEqualFromIsPointwise(a, b, 0, |a|);
      if Lowercase(a) == Lowercase(b) {
        forall k | 0 <= k < |a| ensures LowerChar(a[k]) == LowerChar(b[k]) {
          assert Lowercase(a)[k] == Lowercase(b)[k];
        }
      }
    }
  }

  /** Comparing with a prefix is comparing with the slice. */
  lemma EqualsPrefixIgnoreCaseIsSliceEquality(a: string, b: string, n: nat)
    requires n <= |b|
    ensures EqualsPrefixIgnoreCase(a, b, n) <==> EqualsIgnoreCase(a, b[..n])
  {
    if |a| == n {
      FoldedEqualFromIsPointwise(a, b, 0, n);
      FoldedEqualFromIsPointwise(a, b[..n], 0, n);
    }
  }

  /** Every string equals itself ignoring case. */
  lemma EqualsIgnoreCaseIsReflexive(a: string)
    ensures EqualsIgnoreCase(a, a)
  {
    FoldedEqualFromIsPointwise(a, a, 0, |a|);
  }

  /** A string equals its lower-cased form ignoring case, and so does the lower-cased
      form with one "s" appended once that "s" is dropped. */
  lemma EqualsIgnoreCaseItsLowercase(a: string)
    ensures EqualsIgnoreCase(a, Lowercase(a))
    ensures EqualsPrefixIgnoreCase(a, Lowercase(a) + "s", |a|)
  {
    var plural := Lowercase(a) + "s";
    FoldedEqualFromIsPointwise(a, Lowercase(a), 0, |a|);
    FoldedEqualFromIsPointwise(a, plural, 0, |a|);
    assert forall k :: 0 <= k < |a| ==> plural[k] == Lowercase(a)[k];
  }

  /** `s.endsWith("s", ignoreCase = true)` */
  predicate EndsWithS(s: string) {
    |s| > 0 && LowerChar(s[|s| - 1]) == 's'
  }

  predicate StartsWith(s: string, prefix: string) {
    |prefix| <= |s| && s[..|prefix|] == prefix
  }

  /** `s.contains(sub)`: case-sensitive substring test. */
  predicate Contains(s: string, sub: string)
    decreases |s|
  {
    StartsWith(s, sub) || (|s| > 0 && Contains(s[1..], sub))
  }

  /** `sub` occurs in `s` starting at position `i`. */
  predicate OccursAt(s: string, sub: string, i: int) {
    0 <= i <= |s| - |sub| && s[i..i + |sub|] == sub
  }

  /** `Contains` holds exactly when `sub` occurs at some position of `s`. */
  lemma {:induction false} ContainsIffOccurs(s: string, sub: string)
    ensures Contains(s, sub) <==> exists i :: OccursAt(s, sub, i)
    decreases |s|
  {
    if StartsWith(s, sub) {
      assert OccursAt(s, sub, 0);
    } else if |s| > 0 {
      ContainsIffOccurs(s[1..], sub);
      if Contains(s[1..], sub) {
        var i :| OccursAt(s[1..], sub, i);
        assert s[i + 1..i + 1 + |sub|] == s[1..][i..i + |sub|];
        assert OccursAt(s, sub, i + 1);
      }
      if i :| OccursAt(s, sub, i) {
        assert i != 0;
        assert s[1..][i - 1..i - 1 + |sub|] == s[i..i + |sub|];
        assert OccursAt(s[1..], sub, i - 1);
      }
    }
  }
}
