/** backend/pkg/dllist: a circular doubly linked list with a sentinel, whose items remove themselves. */
module DLLists {
  import opened Circular

  class ListItem<T(0)> {
    var list: DLList?<T>
    var prev: ListItem?<T>
    var next: ListItem?<T>
    var datum: T

    // A root, linked to itself.
    constructor Root()
      ensures list == null && prev == next == this
    {
      list := null;
      prev, next := this, this;
      datum := *;
    }

    constructor (l: DLList<T>, d: T)
      ensures list == l && datum == d && prev == next == null
    {
      list, datum := l, d;
      prev, next := null, null;
    }

    // The two assignments by which Drop closes the circle behind this item.
    method Unlink(ghost nodes: seq<ListItem<T>>, ghost i: nat)
      requires 1 <= i < |nodes| && nodes[i] == this
      requires Distinct(nodes) && Circle(nodes)
      requires forall x :: x in nodes ==> x.prev != null && x.next != null
      modifies prev`next, next`prev
      ensures Circle(nodes[..i] + nodes[i + 1..])
      ensures forall x :: x in nodes ==> x.prev != null && x.next != null
    {
      ghost var n, before, after := |nodes| - 1, i - 1, Next(i, |nodes| - 1);
      assert Linked(nodes, before) && Linked(nodes, i);
      forall k | 0 <= k <= n && k != before && k != i
        ensures nodes[k] != nodes[before] && nodes[Next(k, n)] != nodes[after]
      {
        NextDiffers(k, i, n);
        assert Differ(nodes, k, before) || Differ(nodes, before, k);
        assert Differ(nodes, Next(k, n), after) || Differ(nodes, after, Next(k, n));
      }
      prev.next := next;
      next.prev := prev;
      forall k | 0 <= k <= n && k != before && k != i
        ensures Linked(nodes, k)
      {
        assert old(Linked(nodes, k));
      }
      UnlinkedIsCircle(nodes, i);
    }

    // Takes this item out of its list, wherever it sits in it.
    method Drop() returns (ghost i: nat)
      requires list != null && list.Valid() && this in list.Items()
      modifies list`n, list`nodes, prev`next, next`prev
      ensures list.Valid()
      ensures i < |old(list.Items())| && old(list.Items())[i] == this && this !in list.Items()
      ensures list.Items() == old(list.Items())[..i] + old(list.Items())[i + 1..]
    {
      ghost var nodes := list.nodes;
      i :| 1 <= i < |nodes| && nodes[i] == this;
      Unlink(nodes, i);
      list.n := list.n - 1;
      list.nodes := nodes[..i] + nodes[i + 1..];
      DistinctWithout(nodes, i);
      i := i - 1;
    }
  }

  // The index in the old list of what has index a once the node at i is gone.
  function Skip(a: nat, i: nat): nat {
    if a < i then a else a + 1
  }

  // Round the shorter circle: everything has the successor it had, except the node before the one taken out.
  lemma StepOver(a: nat, i: nat, n: nat)
    requires 1 <= i <= n && a < n
    ensures Skip(Next(a, n - 1), i) == if Skip(a, i) == i - 1 then Next(i, n) else Next(Skip(a, i), n)
  {
  }

  lemma DistinctWithout<X>(nodes: seq<X>, i: nat)
    requires 1 <= i < |nodes| && Distinct(nodes)
    ensures Distinct(nodes[..i] + nodes[i + 1..]) && nodes[i] !in nodes[..i] + nodes[i + 1..]
  {
    var r := nodes[..i] + nodes[i + 1..];
    forall a, b | 0 <= a < b < |r|
      ensures Differ(r, a, b)
    {
      assert Differ(nodes, Skip(a, i), Skip(b, i));
    }
    forall a | 0 <= a < |r|
      ensures r[a] != nodes[i]
    {
      assert if a < i then Differ(nodes, a, i) else Differ(nodes, i, a + 1);
    }
  }

  // Once the nodes around i point at each other, what is left without it is a circle.
  lemma UnlinkedIsCircle<T(0)>(nodes: seq<ListItem<T>>, i: nat)
    requires 1 <= i < |nodes|
    requires forall k :: 0 <= k < |nodes| && k != i - 1 && k != i ==> Linked(nodes, k)
    requires nodes[i - 1].next == nodes[Next(i, |nodes| - 1)] && nodes[Next(i, |nodes| - 1)].prev == nodes[i - 1]
    ensures Circle(nodes[..i] + nodes[i + 1..])
  {
    var n, shorter := |nodes| - 1, nodes[..i] + nodes[i + 1..];
    forall a | 0 <= a < n
      ensures Linked(shorter, a)
    {
      StepOver(a, i, n);
      assert Skip(a, i) != i - 1 ==> Linked(nodes, Skip(a, i));
    }
  }

  // On a circle, the next indices of different indices differ.
  lemma NextDiffers(k: nat, i: nat, n: nat)
    requires k <= n && i <= n && k != i
    ensures Next(k, n) != Next(i, n) && Next(k, n) <= n && Next(i, n) <= n
  {
  }

  // The index after i on the way round from the root, which has index 0, to the last item, and back.
  function Next(i: nat, n: nat): nat {
    if i == n then 0 else i + 1
  }

  // Node i and the node after it point at each other.
  ghost predicate Linked<T(0)>(nodes: seq<ListItem<T>>, i: nat)
    requires i < |nodes|
    reads nodes
  {
    var j := Next(i, |nodes| - 1);
    nodes[i].next == nodes[j] && nodes[j].prev == nodes[i]
  }

  ghost predicate Circle<T(0)>(nodes: seq<ListItem<T>>)
    reads nodes
  {
    forall i :: 0 <= i < |nodes| ==> Linked(nodes, i)
  }

  ghost predicate Differ<X>(s: seq<X>, i: nat, j: nat)
    requires i < |s| && j < |s|
  {
    s[i] != s[j]
  }

  ghost predicate Distinct<X>(s: seq<X>) {
    forall i, j :: 0 <= i < j < |s| ==> Differ(s, i, j)
  }

  lemma NextIndex(k: nat, c: nat)
    requires 0 < c
    ensures (k + 1) % c == if k % c + 1 == c then 0 else k % c + 1
  {
    ModAdd(k, 1, c);
    ModOnce(k % c + 1, c);
  }

  class DLList<T(0)> {
    var root: ListItem<T>
    var n: nat
    ghost var nodes: seq<ListItem<T>>  // the root, then the items in order

    ghost predicate Valid()
      reads this, nodes
    {
      && |nodes| == n + 1 && nodes[0] == root
      && Distinct(nodes)
      && Circle(nodes)
      && (forall x :: x in nodes ==> x.prev != null && x.next != null)
      && (forall i :: 1 <= i <= n ==> nodes[i].list == this)
    }

    ghost function Items(): seq<ListItem<T>>
      requires Valid()
      reads this, nodes
    {
      nodes[1..]
    }

    constructor ()
      ensures Valid() && Items() == [] && fresh(root)
    {
      root := new ListItem<T>.Root();
      n := 0;
      new;
      nodes := [root];
    }

    method Clear()
      requires Valid()
      modifies this
      ensures Valid() && Items() == [] && fresh(root)
    {
      n := 0;
      root := new ListItem<T>.Root();
      nodes := [root];
    }

    method Add(d: T) returns (added: ListItem<T>)
      requires Valid()
      modifies this`n, this`nodes, root`prev, root.prev`next
      ensures Valid()
      ensures fresh(added) && added.datum == d
      ensures Items() == old(Items()) + [added]
    {
      ghost var before := n;
      ghost var last := nodes;
      assert Linked(nodes, n);
      added := new ListItem<T>(this, d);
      var head := root.prev;
      added.prev := head;
      head.next := added;
      added.next := root;
      root.prev := added;
      n := n + 1;
      nodes := nodes + [added];
      forall i | 0 <= i <= n
        ensures Linked(nodes, i)
      {
        assert i <= before ==> old(Linked(nodes, i));
        assert i < before ==> Differ(last, i, before);
      }
      forall i, j | 0 <= i < j < |nodes|
        ensures Differ(nodes, i, j)
      {
        assert j < |last| ==> Differ(last, i, j);
      }
    }

    lemma RootIsNoItem()
      requires Valid()
      ensures root !in Items()
    {
      forall a | 1 <= a <= n
        ensures nodes[a] != root
      {
        assert Differ(nodes, 0, a);
      }
    }

    method Size() returns (size: nat)
      requires Valid()
      ensures size == |Items()|
    {
      return n;
    }

    // The items the callback is called with, in order, when the callback leaves the list alone.
    method Iterate() returns (visited: seq<ListItem<T>>)
      requires Valid()
      ensures visited == Items()
    {
      visited := [];
      if root.next == root {
        RootIsNoItem();
        assert Linked(nodes, 0);
        return;
      }
      assert Linked(nodes, 0);
      var cur := root.next;
      var i := 0;
      while i < n && cur != null
        invariant 0 <= i <= n
        invariant cur == if i < n then nodes[i + 1] else root
        invariant visited == nodes[1..i + 1]
      {
        assert Linked(nodes, i + 1);
        visited := visited + [cur];
        cur := cur.next;
        i := i + 1;
      }
      assert visited == nodes[1..];
    }

    // The node k links after the root: the k-th round the circle.
    ghost function Follow(k: nat): (node: ListItem<T>)
      requires Valid()
      reads this, nodes
      ensures node == nodes[k % |nodes|]
    {
      if k == 0 then
        assert 0 % |nodes| == 0;
        root
      else
        NextIndex(k - 1, |nodes|);
        assert Linked(nodes, (k - 1) % |nodes|);
        Follow(k - 1).next
    }

    // The node k links before the root: the same circle the other way.
    ghost function FollowBack(k: nat): (node: ListItem<T>)
      requires Valid()
      reads this, nodes
      ensures node == nodes[BackIndex(k, |nodes|)]
    {
      if k == 0 then
        assert 0 % |nodes| == 0;
        root
      else
        NextIndex(k - 1, |nodes|);
        assert Linked(nodes, BackIndex(k, |nodes|));
        FollowBack(k - 1).prev
    }
  }

  function BackIndex(k: nat, c: nat): (i: nat)
    requires 0 < c
    ensures i < c
  {
    if k % c == 0 then 0 else c - k % c
  }
}
