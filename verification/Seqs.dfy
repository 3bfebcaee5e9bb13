/** Lists without repeated elements, and the removal of one element. */
module Seqs {

  ghost predicate NoRepeats<T>(s: seq<T>) {
    forall i, j :: 0 <= i < j < |s| ==> s[i] != s[j]
  }

  function IndexOf<T(==)>(s: seq<T>, x: T): (k: nat)
    requires x in s
    ensures k < |s| && s[k] == x && x !in s[..k]
  {
    if s[0] == x then 0 else
      var k := 1 + IndexOf(s[1..], x);
      assert s[..k] == [s[0]] + s[1..][..k - 1];
      k
  }

  /** The list without the element at one place. */
  function Drop<T>(s: seq<T>, k: nat): (r: seq<T>)
    requires k < |s|
    ensures |r| == |s| - 1
  {
    s[..k] + s[k + 1..]
  }

  lemma DropRemoves<T>(s: seq<T>, k: nat)
    requires k < |s|
    ensures multiset(s) == multiset(Drop(s, k)) + multiset{s[k]}
  {
    assert s == s[..k] + [s[k]] + s[k + 1..];
  }

  /** The list without the first occurrence of an element it contains. */
  function Without<T(==, !new)>(s: seq<T>, x: T): (r: seq<T>)
    requires x in s
    ensures |r| == |s| - 1
    ensures NoRepeats(s) ==> NoRepeats(r) && x !in r
    ensures forall y :: y in r ==> y in s
    ensures forall y :: y in s && y != x ==> y in r
  {
    var k := IndexOf(s, x);
    var r := Drop(s, k);
    assert forall i :: 0 <= i < |s| && i != k ==> s[i] == r[if i < k then i else i - 1];
    r
  }

  function Remove<T(==, !new)>(s: seq<T>, x: T): seq<T> {
    if x in s then Without(s, x) else s
  }

  function Elements<T>(s: seq<T>): set<T> {
    set x | x in s
  }

  lemma NoRepeatsCons<T>(x: T, s: seq<T>)
    ensures x !in s && NoRepeats(s) ==> NoRepeats([x] + s)
  {}

  lemma TwoDiffer<T>(s: seq<T>)
    requires NoRepeats(s) && |s| >= 2
    ensures s[0] in s && s[1] in s && s[0] != s[1]
  {}

  lemma OneElement<T>(s: seq<T>, x: T)
    requires NoRepeats(s) && x in s && forall i :: 0 <= i < |s| ==> s[i] == x
    ensures s == [x]
  {
    if |s| >= 2 {
      TwoDiffer(s);
      assert false;
    }
  }

  lemma FirstIndex<T>(s: seq<T>, x: T, i: nat)
    requires i < |s| && s[i] == x && x !in s[..i]
    ensures x in s && IndexOf(s, x) == i
  {
    var k := IndexOf(s, x);
    forall j | 0 <= j < i ensures s[j] != x { assert s[j] == s[..i][j]; }
    forall j | 0 <= j < k ensures s[j] != x { assert s[j] == s[..k][j]; }
  }
}
