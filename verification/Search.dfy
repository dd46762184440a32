/** Searching a text for a character. */
module Search {

  /** `std::find`: the first `c` from `p` on, or the end. */
  function Find(s: string, p: nat, end: nat, c: char): (i: nat)
    requires p <= end <= |s|
    ensures p <= i <= end && (forall k :: p <= k < i ==> s[k] != c) && (i < end ==> s[i] == c)
    decreases end - p
  {
    if p == end || s[p] == c then p else Find(s, p + 1, end, c)
  }
}
