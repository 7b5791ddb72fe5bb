/** `str::rfind` over any kind of text. */
module Search {

  predicate OccursAt<T(==)>(s: seq<T>, pat: seq<T>, i: int) {
    0 <= i && i + |pat| <= |s| && s[i..i + |pat|] == pat
  }

  /** The last occurrence, or -1. */
  function RFind<T(==)>(s: seq<T>, pat: seq<T>): (i: int)
    requires pat != []
    ensures -1 <= i
    ensures i >= 0 ==> OccursAt(s, pat, i)
  {
    RFindUpTo(s, pat, |s|)
  }

  function RFindUpTo<T(==)>(s: seq<T>, pat: seq<T>, n: nat): (i: int)
    requires pat != [] && n <= |s|
    ensures -1 <= i
    ensures i >= 0 ==> OccursAt(s, pat, i)
  {
    if OccursAt(s, pat, n) then n else if n == 0 then -1 else RFindUpTo(s, pat, n - 1)
  }

  lemma {:induction false} RFindUpToIsLast<T>(s: seq<T>, pat: seq<T>, n: nat, j: nat)
    requires pat != [] && j <= n <= |s| && OccursAt(s, pat, j)
    ensures j <= RFindUpTo(s, pat, n)
  {
    if !OccursAt(s, pat, n) {
      RFindUpToIsLast(s, pat, n - 1, j);
    }
  }

  /** Nothing is found behind the found occurrence. */
  lemma {:induction false} RFindIsLast<T>(s: seq<T>, pat: seq<T>, j: nat)
    requires pat != [] && OccursAt(s, pat, j)
    ensures j <= RFind(s, pat)
  {
    RFindUpToIsLast(s, pat, |s|, j);
  }
}
