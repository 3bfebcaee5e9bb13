/**
  The list of lispd/lib/generic_list.c: cells in order, a comparison function that answers 0 for
  equal, 1 and 2 for the first or second argument being the bigger, negative for incomparable.
 */
module GenericList {

  type Compare<!T> = (T, T) -> int

  /** How far a sorted insertion walks: to the first cell that is bigger or cannot be compared. */
  function Stop<T>(x: T, s: seq<T>, cmp: Compare<T>): (k: nat)
    ensures k <= |s|
    ensures forall i :: 0 <= i < k ==> cmp(x, s[i]) != 2 && cmp(x, s[i]) >= 0
    ensures k < |s| ==> cmp(x, s[k]) == 2 || cmp(x, s[k]) < 0
  {
    if s == [] || cmp(x, s[0]) == 2 || cmp(x, s[0]) < 0 then 0 else 1 + Stop(x, s[1..], cmp)
  }

  predicate Accepts<T>(x: T, s: seq<T>, cmp: Compare<T>) {
    var k := Stop(x, s, cmp);
    k == |s| || cmp(x, s[k]) == 2
  }

  /** The list after an accepted insertion. */
  function Insert<T>(x: T, s: seq<T>, cmp: Compare<T>): seq<T> {
    var k := Stop(x, s, cmp);
    s[..k] + [x] + s[k..]
  }

  /** glist_add on a list with a comparison function */
  method Add<T>(x: T, s: seq<T>, cmp: Compare<T>) returns (good: bool, r: seq<T>)
    ensures good == Accepts(x, s, cmp)
    ensures r == if good then Insert(x, s, cmp) else s
  {
    var ctr := 0;
    while ctr < |s|
      invariant ctr <= Stop(x, s, cmp)
    {
      var c := cmp(x, s[ctr]);
      if c == 2 { break; }
      if c < 0 { return false, s; }
      ctr := ctr + 1;
    }
    return true, s[..ctr] + [x] + s[ctr..];
  }

  /** The first cell that compares equal, as glist_contain and the lookups by address find it */
  method Find<T>(s: seq<T>, equal: T -> bool) returns (k: nat)
    ensures k <= |s|
    ensures forall i :: 0 <= i < k ==> !equal(s[i])
    ensures k < |s| ==> equal(s[k])
  {
    k := 0;
    while k < |s| && !equal(s[k])
      invariant k <= |s|
      invariant forall i :: 0 <= i < k ==> !equal(s[i])
    {
      k := k + 1;
    }
  }

  lemma InsertAdds<T>(x: T, s: seq<T>, cmp: Compare<T>)
    ensures multiset(Insert(x, s, cmp)) == multiset(s) + multiset{x}
  {
    var k := Stop(x, s, cmp);
    assert s == s[..k] + s[k..];
  }
}
