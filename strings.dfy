/**
 * The JavaScript string operations the pages use: `toLowerCase` (ASCII letters
 * only), `indexOf`, `includes`, and `replace` with a string pattern, which
 * replaces only the first occurrence.
 */
module Strings {
  import opened Wrappers

  /** Lower-cases one character: `A`..`Z` become `a`..`z`, everything else is kept. */
  function LowerChar(c: char): (d: char)
    ensures 'A' <= c <= 'Z' ==> 'a' <= d <= 'z' && d as int == c as int + 32
    ensures !('A' <= c <= 'Z') ==> d == c
  {
    if 'A' <= c <= 'Z' then (c as int + 32) as char else c
  }

  /** JavaScript's `s.toLowerCase()`, for ASCII letters. */
  function Lower(s: string): (r: string)
    ensures |r| == |s|
    ensures forall i :: 0 <= i < |s| ==> r[i] == LowerChar(s[i])
    ensures forall i :: 0 <= i < |r| ==> !('A' <= r[i] <= 'Z')
  {
    seq(|s|, i requires 0 <= i < |s| => LowerChar(s[i]))
  }

  /** Lower-casing an already lower-cased string changes nothing. */
  lemma LowerIdempotent(s: string)
    ensures Lower(Lower(s)) == Lower(s)
  {
  }

  /** Lower-casing works character by character, so it commutes with taking a prefix or a suffix. */
  lemma LowerPrefix(s: string, i: nat)
    requires i <= |s|
    ensures Lower(s[..i]) == Lower(s)[..i]
  {
    assert forall k :: 0 <= k < i ==> Lower(s[..i])[k] == Lower(s)[..i][k];
  }

  lemma LowerSuffix(s: string, i: nat)
    requires i <= |s|
    ensures Lower(s[i..]) == Lower(s)[i..]
  {
    assert forall k :: 0 <= k < |s| - i ==> Lower(s[i..])[k] == Lower(s)[i..][k];
  }

  /** `pat` occurs in `s` starting at position `i`. */
  predicate OccursAt(s: string, pat: string, i: int)
  {
    0 <= i && i + |pat| <= |s| && s[i..i + |pat|] == pat
  }

  /**
   * JavaScript's `s.indexOf(pat)`: the first position at which `pat` occurs,
   * or `None` where JavaScript answers -1.
   */
  function IndexOf(s: string, pat: string): (r: Option<nat>)
    ensures r.Some? ==> OccursAt(s, pat, r.value)
    ensures r.Some? ==> forall j :: 0 <= j < r.value ==> !OccursAt(s, pat, j)
    ensures r.None? ==> forall j :: !OccursAt(s, pat, j)
    decreases |s|
  {
    if |s| < |pat| then None
    else if s[..|pat|] == pat then Some(0)
    else
      OccursShift(s, pat);
      match IndexOf(s[1..], pat)
      case None => None
      case Some(i) => Some(i + 1)
  }

  /** An occurrence in the tail is an occurrence one position further on in the whole. */
  lemma OccursShift(s: string, pat: string)
    requires |s| >= 1
    ensures forall j :: 1 <= j ==> (OccursAt(s, pat, j) <==> OccursAt(s[1..], pat, j - 1))
  {
    forall j | 1 <= j
      ensures OccursAt(s, pat, j) <==> OccursAt(s[1..], pat, j - 1)
    {
      if j + |pat| <= |s| {
        assert s[1..][j - 1..j - 1 + |pat|] == s[j..j + |pat|];
      }
    }
  }

  /** The first occurrence is the one with no occurrence before it. */
  lemma IndexOfFirst(s: string, pat: string, i: nat)
    requires OccursAt(s, pat, i)
    requires forall j :: 0 <= j < i ==> !OccursAt(s, pat, j)
    ensures IndexOf(s, pat) == Some(i)
  {
  }

  /** A one-character pattern occurs exactly where that character stands. */
  lemma OccursAtChar(s: string, c: char, j: int)
    ensures OccursAt(s, [c], j) <==> 0 <= j < |s| && s[j] == c
  {
    if 0 <= j < |s| {
      assert s[j..j + 1] == [s[j]];
    }
  }

  /** For a one-character pattern, `indexOf` finds the first position holding that character. */
  lemma IndexOfCharAt(s: string, c: char, i: nat)
    requires i < |s| && s[i] == c
    requires c !in s[..i]
    ensures IndexOf(s, [c]) == Some(i)
  {
    forall j | 0 <= j < i
      ensures !OccursAt(s, [c], j)
    {
      assert s[..i][j] == s[j];
      OccursAtChar(s, c, j);
    }
    OccursAtChar(s, c, i);
    IndexOfFirst(s, [c], i);
  }

  /** For a one-character pattern, `indexOf` finds nothing when the character is absent. */
  lemma IndexOfCharAbsent(s: string, c: char)
    requires c !in s
    ensures IndexOf(s, [c]) == None
  {
    forall j
      ensures !OccursAt(s, [c], j)
    {
      OccursAtChar(s, c, j);
      if 0 <= j < |s| {
        assert s[j] in s;
      }
    }
  }

  /** JavaScript's `s.includes(pat)`. */
  predicate Contains(s: string, pat: string)
  {
    IndexOf(s, pat).Some?
  }

  /** `includes` holds exactly when the pattern occurs somewhere. */
  lemma ContainsSpec(s: string, pat: string)
    ensures Contains(s, pat) <==> exists i :: OccursAt(s, pat, i)
  {
  }

  /** Every string contains the empty string (JavaScript: `s.includes("") === true`). */
  lemma ContainsEmpty(s: string)
    ensures Contains(s, "")
  {
  }

  /**
   * JavaScript's `s.replace(pat, rep)` with a string pattern: the first
   * occurrence of `pat`, if any, is replaced by `rep`.
   */
  function ReplaceFirst(s: string, pat: string, rep: string): (r: string)
    ensures !Contains(s, pat) ==> r == s
    ensures Contains(s, pat) ==> |r| == |s| - |pat| + |rep|
    ensures Contains(s, pat) ==> r[..IndexOf(s, pat).value] == s[..IndexOf(s, pat).value]
    ensures forall i :: OccursAt(s, pat, i) && (forall j :: 0 <= j < i ==> !OccursAt(s, pat, j)) ==>
      r == s[..i] + rep + s[i + |pat|..]
  {
    match IndexOf(s, pat)
    case None => s
    case Some(i) => s[..i] + rep + s[i + |pat|..]
  }

  /** Lower-casing leaves spaces where they are, so it cannot move the first space. */
  lemma {:induction false} IndexOfSpaceLower(s: string)
    ensures IndexOf(Lower(s), " ") == IndexOf(s, " ")
  {
    if |s| >= 1 {
      assert Lower(s)[1..] == Lower(s[1..]);
      assert Lower(s)[..1] == [LowerChar(s[0])];
      IndexOfSpaceLower(s[1..]);
    }
  }
}
