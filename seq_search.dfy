/**
  First-match search over a sequence: `Array.prototype.findIndex` (and `find`,
  which is `findIndex` followed by indexing), and the "first document in
  insertion order" answer of a MongoDB `findOne` over a collection.
*/
module SeqSearch {

  /** The index of the first element satisfying `p`, or -1 when there is none. */
  function FirstIndex<T>(s: seq<T>, p: T -> bool): (r: int)
    ensures -1 <= r < |s|
    ensures 0 <= r ==> p(s[r]) && forall j :: 0 <= j < r ==> !p(s[j])
    ensures r == -1 <==> forall j :: 0 <= j < |s| ==> !p(s[j])
    decreases |s|
  {
    if |s| == 0 then -1
    else if p(s[0]) then 0
    else
      var k := FirstIndex(s[1..], p);
      if k < 0 then -1 else k + 1
  }

  /** The scan itself, element by element from the front. */
  method FindIndex<T>(s: seq<T>, p: T -> bool) returns (r: int)
    ensures r == FirstIndex(s, p)
  {
    var i := 0;
    while i < |s|
      invariant 0 <= i <= |s|
      invariant forall j :: 0 <= j < i ==> !p(s[j])
    {
      if p(s[i]) {
        return i;
      }
      i := i + 1;
    }
    return -1;
  }

  /** Elements before the first match are what decide it: a sequence that agrees
      with `s` up to and including its first match has the same first match. */
  lemma FirstIndexStable<T>(s: seq<T>, t: seq<T>, p: T -> bool)
    requires |s| == |t|
    requires FirstIndex(s, p) >= 0
    requires p(t[FirstIndex(s, p)])
    requires forall j :: 0 <= j < FirstIndex(s, p) ==> t[j] == s[j]
    ensures FirstIndex(t, p) == FirstIndex(s, p)
  {
  }
}
