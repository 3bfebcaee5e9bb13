/**
  The flow table as it is kept: a hash from tuples to nodes and a list of the same nodes in order of
  use, updated together. Each operation is proved to make the step FlowSpec states on one sequence.
 */
module FlowTable {
  import opened Options
  import opened Seqs
  import opened FlowSpec

  datatype Ref = Ref(address: int)

  lemma {:induction false} LessTwice(s: seq<Node>, a: set<Tuple>, b: set<Tuple>)
    ensures Less(Less(s, a), b) == Less(s, a + b)
  {
    if s != [] {
      LessTwice(s[1..], a, b);
      if s[0].tpl !in a {
        assert Less(s, a) == [s[0]] + Less(s[1..], a);
        assert Less(s, a)[1..] == Less(s[1..], a);
      } else {
        assert Less(s, a) == Less(s[1..], a);
      }
    }
  }

  lemma {:induction false} LessIsUnexpired(s: seq<Node>, gone: set<Tuple>, now: real)
    requires forall i :: 0 <= i < |s| ==> (Expired(s[i], now) <==> s[i].tpl in gone)
    ensures Less(s, gone) == Unexpired(s, now)
  {
    if s != [] { LessIsUnexpired(s[1..], gone, now); }
  }

  // ---------- hash and list ----------

  /** Hash and list hold the same nodes, each once, under its own tuple. */
  ghost predicate Agree(nodes: map<Ref, Node>, htable: map<Tuple, Ref>, list: seq<Ref>) {
    && NoRepeats(list)
    && (forall r :: r in list ==> r in nodes && nodes[r].tpl in htable && htable[nodes[r].tpl] == r)
    && (forall t :: t in htable ==> htable[t] in list && htable[t] in nodes && nodes[htable[t]].tpl == t)
  }

  /** The flows of the list, in its order. */
  ghost function View(nodes: map<Ref, Node>, list: seq<Ref>): (s: seq<Node>)
    requires forall r :: r in list ==> r in nodes
    ensures |s| == |list| && forall i :: 0 <= i < |s| ==> list[i] in list && s[i] == nodes[list[i]]
  {
    seq(|list|, i requires 0 <= i < |list| => assert list[i] in list; nodes[list[i]])
  }

  lemma AgreeDistinct(nodes: map<Ref, Node>, htable: map<Tuple, Ref>, list: seq<Ref>)
    requires Agree(nodes, htable, list)
    ensures Distinct(View(nodes, list))
    ensures forall t :: t in htable <==> Present(View(nodes, list), t)
  {
    var s := View(nodes, list);
    forall t | t in htable
      ensures Present(s, t)
    {
      var r := htable[t];
      var i :| 0 <= i < |list| && list[i] == r;
      assert s[i].tpl == t;
    }
    forall i, j | 0 <= i < j < |s|
      ensures s[i].tpl != s[j].tpl
    {
      assert list[i] in list && list[j] in list;
    }
  }

  /** Where a tuple's node is in the list. */
  lemma PositionOf(nodes: map<Ref, Node>, htable: map<Tuple, Ref>, list: seq<Ref>, t: Tuple)
    requires Agree(nodes, htable, list) && t in htable
    ensures htable[t] in list
    ensures Index(View(nodes, list), t) == IndexOf(list, htable[t]) < |list|
  {
    hide Index, IndexOf;
    AgreeDistinct(nodes, htable, list);
    var k := IndexOf(list, htable[t]);
    assert View(nodes, list)[k].tpl == t;
  }

  lemma DropAgree(nodes: map<Ref, Node>, htable: map<Tuple, Ref>, list: seq<Ref>, k: nat)
    requires Agree(nodes, htable, list) && k < |list|
    ensures var t := nodes[list[k]].tpl;
            && Agree(nodes - {list[k]}, htable - {t}, Drop(list, k))
            && View(nodes - {list[k]}, Drop(list, k)) == Drop(View(nodes, list), k)
  {
    hide Drop;
    var l, r := Drop(list, k), list[k];
    assert r in list;
    DropMembers(list, k);
    assert forall t :: t in htable && t != nodes[r].tpl ==> htable[t] != r;
    DropView(nodes, list, k, nodes - {r});
  }

  lemma DropMembers(list: seq<Ref>, k: nat)
    requires NoRepeats(list) && k < |list|
    ensures NoRepeats(Drop(list, k))
    ensures forall r :: r in Drop(list, k) <==> r in list && r != list[k]
  {
    var l := Drop(list, k);
    assert forall i :: 0 <= i < |l| ==> l[i] == list[if i < k then i else i + 1];
    forall r | r in list && r != list[k]
      ensures r in l
    {
      var i :| 0 <= i < |list| && list[i] == r;
      assert l[if i < k then i else i - 1] == r;
    }
  }

  lemma DropView(nodes: map<Ref, Node>, list: seq<Ref>, k: nat, nodes': map<Ref, Node>)
    requires k < |list| && (forall r :: r in list ==> r in nodes)
    requires forall r :: r in Drop(list, k) ==> r in nodes' && r in nodes && nodes'[r] == nodes[r]
    ensures View(nodes', Drop(list, k)) == Drop(View(nodes, list), k)
  {
    var l := Drop(list, k);
    forall i | 0 <= i < |l|
      ensures View(nodes', l)[i] == Drop(View(nodes, list), k)[i]
    {
      assert l[i] in l && l[i] == list[if i < k then i else i + 1];
    }
  }

  lemma MoveToFront(nodes: map<Ref, Node>, htable: map<Tuple, Ref>, list: seq<Ref>, k: nat, now: real)
    requires Agree(nodes, htable, list) && k < |list|
    ensures var r := list[k];
            var l := [r] + Drop(list, k);
            var nodes' := nodes[r := nodes[r].(used := now)];
            && Agree(nodes', htable, l)
            && View(nodes', l) == [nodes[r].(used := now)] + Drop(View(nodes, list), k)
  {
    hide Drop;
    var r, d := list[k], Drop(list, k);
    assert r in list;
    DropMembers(list, k);
    NoRepeatsCons(r, d);
    var nodes' := nodes[r := nodes[r].(used := now)];
    DropView(nodes, list, k, nodes');
    assert forall x :: x in [r] + d <==> x in list;
    assert View(nodes', [r] + d) == [nodes'[r]] + View(nodes', d);
  }

  lemma {:induction false} LessMember(s: seq<Node>, gone: set<Tuple>, n: Node)
    ensures n in Less(s, gone) <==> n in s && n.tpl !in gone
  {
    if s != [] { LessMember(s[1..], gone, n); }
  }

  lemma NodeAt(nodes: map<Ref, Node>, htable: map<Tuple, Ref>, list: seq<Ref>, t: Tuple)
    requires Agree(nodes, htable, list) && t in htable
    ensures Index(View(nodes, list), t) < |list| && htable[t] in nodes
    ensures View(nodes, list)[Index(View(nodes, list), t)] == nodes[htable[t]]
  {
    PositionOf(nodes, htable, list, t);
  }

  /** What is left of a tuple in a reduced table is what was there. */
  lemma SameNode(s: seq<Node>, gone: set<Tuple>, k: nat)
    requires Distinct(s) && k < |Less(s, gone)|
    ensures forall i :: 0 <= i < |s| && s[i].tpl == Less(s, gone)[k].tpl ==> s[i] == Less(s, gone)[k]
  {
    hide Less;
    LessMember(s, gone, Less(s, gone)[k]);
  }

  lemma LastAt(nodes: map<Ref, Node>, htable: map<Tuple, Ref>, list: seq<Ref>)
    requires Agree(nodes, htable, list) && list != []
    ensures var r := list[|list| - 1];
            r in nodes && nodes[r].tpl in htable && Index(View(nodes, list), nodes[r].tpl) == |list| - 1
  {
    AgreeDistinct(nodes, htable, list);
    assert View(nodes, list)[|list| - 1] == nodes[list[|list| - 1]];
  }

  lemma PushFront(nodes: map<Ref, Node>, htable: map<Tuple, Ref>, list: seq<Ref>, r: Ref, n: Node)
    requires Agree(nodes, htable, list) && n.tpl !in htable && r !in nodes
    ensures var nodes' := nodes[r := n];
            && Agree(nodes', htable[n.tpl := r], [r] + list)
            && View(nodes', [r] + list) == [n] + View(nodes, list)
  {
    assert r !in list;
    NoRepeatsCons(r, list);
  }

  lemma PushTwice(nodes: map<Ref, Node>, htable: map<Tuple, Ref>, list: seq<Ref>, r: Ref, n: Node)
    requires Agree(nodes, htable, list) && n.tpl in htable && r !in nodes
    ensures !Agree(nodes[r := n], htable[n.tpl := r], [r] + list)
  {
    var old_ := htable[n.tpl];
    assert old_ in [r] + list && old_ != r;
  }

  class Flows {
    var nodes: map<Ref, Node>
    var htable: map<Tuple, Ref>
    var list: seq<Ref>
    var size: nat
    var heap: int

    ghost predicate Valid()
      reads this
    {
      Agree(nodes, htable, list) && size == |list| && forall r :: r in nodes ==> r.address < heap
    }

    ghost function Contents(): seq<Node>
      requires Valid()
      reads this
    {
      View(nodes, list)
    }

    /** ttable_init */
    constructor ()
      ensures Valid() && Contents() == []
    {
      nodes, htable, list, size, heap := map[], map[], [], 0, 0;
    }

    /** ttable_remove_with_khiter: the node leaves list, memory and hash */
    method RemoveAt(t: Tuple)
      requires Valid() && t in htable
      modifies this
      ensures Valid() && Contents() == Drop(old(Contents()), Index(old(Contents()), t))
      ensures htable == old(htable) - {t}
    {
      hide Agree, IndexOf, Index;
      PositionOf(nodes, htable, list, t);
      var r := htable[t];
      var k := IndexOf(list, r);
      DropAgree(nodes, htable, list, k);
      list := Drop(list, k);
      nodes := nodes - {r};
      htable := htable - {t};
      size := size - 1;
    }

    /** ttable_remove */
    method RemoveFlow(t: Tuple)
      requires Valid()
      modifies this
      ensures Valid() && Contents() == FlowSpec.Remove(old(Contents()), t)
    {
      AgreeDistinct(nodes, htable, list);
      if t in htable {
        PositionOf(nodes, htable, list, t);
        RemoveAt(t);
      }
    }

    /** ttable_lookup */
    method LookupFlow(t: Tuple, now: real) returns (found: Option<int>)
      requires Valid()
      modifies this
      ensures Valid() && (Contents(), found) == Lookup(old(Contents()), t, now)
    {
      hide Agree, Index, IndexOf, Drop;
      AgreeDistinct(nodes, htable, list);
      if t !in htable { return None; }
      PositionOf(nodes, htable, list, t);
      NodeAt(nodes, htable, list, t);
      var r := htable[t];
      var k := IndexOf(list, r);
      var n := nodes[r];
      var elapsed := now - n.ts;
      if (!n.temporal && elapsed > TIMEOUT) || (n.temporal && elapsed > NEGATIVE_TIMEOUT) {
        RemoveAt(t);
        return None;
      }
      MoveToFront(nodes, htable, list, k, now);
      list := [r] + Drop(list, k);
      nodes := nodes[r := n.(used := now)];
      return Some(n.value);
    }

    /** The test of the first pass for one node */
    method RemoveIfExpired(t: Tuple, now: real) returns (was: bool)
      requires Valid() && t in htable
      modifies this
      ensures Valid() && Index(old(Contents()), t) < |old(Contents())|
      ensures was == Expired(old(Contents())[Index(old(Contents()), t)], now)
      ensures Contents() == Less(old(Contents()), if was then {t} else {})
      ensures |Contents()| == |old(Contents())| - if was then 1 else 0
      ensures htable.Keys == old(htable.Keys) - if was then {t} else {}
    {
      hide Agree, Index, Less;
      ghost var c := Contents();
      AgreeDistinct(nodes, htable, list);
      NodeAt(nodes, htable, list, t);
      was := now - nodes[htable[t]].ts > TIMEOUT;
      LessNone(c);
      if was {
        DropIsLess(c, Index(c, t));
        RemoveAt(t);
      }
    }

    /** The first pass of ttable_insert on a full table: every expired node, in hash order */
    method RemoveExpired(now: real) returns (removed: nat)
      requires Valid()
      modifies this
      ensures Valid() && Contents() == Unexpired(old(Contents()), now)
      ensures removed == |old(Contents())| - |Contents()|
    {
      hide Agree, Index, Distinct, Unexpired, Less, View;
      ghost var s := Contents();
      ghost var gone: set<Tuple> := {};
      ghost var keys := htable.Keys;
      var todo := htable.Keys;
      removed := 0;
      AgreeDistinct(nodes, htable, list);
      LessNone(s);
      while todo != {}
        invariant Valid() && htable.Keys == keys - gone && todo <= htable.Keys
        invariant Contents() == Less(s, gone)
        invariant forall i :: 0 <= i < |s| ==> s[i].tpl in todo || (Expired(s[i], now) <==> s[i].tpl in gone)
        invariant removed == |s| - |Contents()|
        decreases todo
      {
        var t :| t in todo;
        todo := todo - {t};
        SameNode(s, gone, Index(Contents(), t)) by { NodeAt(nodes, htable, list, t); }
        var was := RemoveIfExpired(t, now);
        LessTwice(s, gone, if was then {t} else {});
        gone := gone + if was then {t} else {};
        if was { removed := removed + 1; }
      }
      LessIsUnexpired(s, gone, now);
    }

    /** The second pass: from the back of the list */
    method RemoveOldest(n: nat)
      requires Valid() && n <= |list|
      modifies this
      ensures Valid() && Contents() == old(Contents())[..|old(Contents())| - n]
    {
      hide Agree, Index;
      ghost var s := Contents();
      for i := 0 to n
        invariant Valid() && Contents() == s[..|s| - i]
      {
        ghost var c := Contents();
        LastAt(nodes, htable, list);
        RemoveAt(nodes[list[|list| - 1]].tpl);
        assert Drop(c, |c| - 1) == s[..|s| - (i + 1)];
      }
    }

    /**
      ttable_insert. Hash and list still agree exactly if the tuple is not in the table once there
      is room: the source leaves the old node of a tuple in the list.
     */
    method InsertFlow(t: Tuple, value: int, temporal: bool, now: real)
      requires Valid()
      modifies this
      ensures Agree(nodes, htable, list) <==> !Present(MakeRoom(old(Contents()), now), t)
      ensures Valid() <==> !Present(MakeRoom(old(Contents()), now), t)
      ensures Valid() ==> Contents() == Insert(old(Contents()), t, value, temporal, now)
    {
      hide Agree, Unexpired;
      ghost var s := Contents();
      AgreeDistinct(nodes, htable, list);
      if size >= MAX_SIZE {
        var removed := RemoveExpired(now);
        if removed < OLD_ENTRIES { RemoveOldest(OLD_ENTRIES - removed); }
      }
      AgreeDistinct(nodes, htable, list);
      assert Contents() == MakeRoom(s, now);
      var r := Ref(heap);
      var n := Node(t, value, temporal, now, now);
      if t !in htable {
        PushFront(nodes, htable, list, r, n);
        size := size + 1;
      } else {
        PushTwice(nodes, htable, list, r, n);
      }
      nodes := nodes[r := n];
      list := [r] + list;
      htable := htable[t := r];
      heap := heap + 1;
    }
  }
}
