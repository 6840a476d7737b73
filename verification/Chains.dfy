/**
 The buckets of the hash table: linked lists of nodes kept in the order of their keys. Every method is
 proved against the sequence of the nodes of the list.
 */
module Chains {
  import opened Words

  class Node {
    var next: Node?
    var key: uint64
    var value: nat

    constructor ()
      ensures next == null
    {
      next, key, value := null, 0, 0;
    }
  }

  /** The nodes reached from `head` are exactly those of `c`. */
  ghost predicate Linked(head: Node?, c: seq<Node>)
    reads c`next
  {
    && head == (if c == [] then null else c[0])
    && (forall j | 0 <= j < |c| - 1 :: c[j].next == c[j + 1])
    && (c != [] ==> c[|c| - 1].next == null)
  }

  /** Strictly ascending keys, so no key and no node occurs twice. */
  ghost predicate Sorted(c: seq<Node>)
    reads c`key
  {
    forall i, j | 0 <= i < j < |c| :: c[i].key < c[j].key
  }

  ghost predicate HasKey(c: seq<Node>, k: uint64)
    reads c`key
  {
    exists j :: 0 <= j < |c| && c[j].key == k
  }

  /** The entries of a list are entries of the map. */
  ghost predicate Holds(c: seq<Node>, content: map<uint64, nat>)
    reads c`key, c`value
  {
    forall j | 0 <= j < |c| :: c[j].key in content && content[c[j].key] == c[j].value
  }

  /** The number of nodes in all buckets. */
  function Total(chains: seq<seq<Node>>): nat {
    if chains == [] then 0 else |chains[0]| + Total(chains[1..])
  }

  /** Finds the node of a key. */
  method Find(head: Node?, key: uint64, ghost c: seq<Node>) returns (node: Node?)
    requires Linked(head, c)
    ensures node == null <==> !HasKey(c, key)
    ensures node != null ==> node in c && node.key == key
  {
    node := head;
    ghost var i := 0;
    while node != null
      invariant 0 <= i <= |c| && node == (if i < |c| then c[i] else null)
      invariant forall j | 0 <= j < i :: c[j].key != key
      decreases |c| - i
    {
      if node.key == key {
        return;
      }
      node := node.next;
      i := i + 1;
    }
  }

  /** The list with `item` at place `p`. */
  function Spliced(c: seq<Node>, item: Node, p: nat): (d: seq<Node>)
    requires p <= |c|
    ensures |d| == |c| + 1 && forall n | n in d :: n == item || n in c
  {
    c[..p] + [item] + c[p..]
  }

  /** Where a key belongs in a list. */
  ghost predicate Place(c: seq<Node>, k: uint64, p: nat)
    reads c`key
  {
    && p <= |c| && (forall j | 0 <= j < p :: c[j].key < k) && (forall j | p <= j < |c| :: k < c[j].key)
  }

  lemma SplicedSorted(c: seq<Node>, item: Node, p: nat)
    requires Sorted(c) && Place(c, item.key, p)
    ensures Sorted(Spliced(c, item, p))
  {
  }

  lemma SplicedAt(c: seq<Node>, item: Node, p: nat, j: nat)
    requires p <= |c| && j <= |c|
    ensures |Spliced(c, item, p)| == |c| + 1
    ensures Spliced(c, item, p)[j] == if j < p then c[j] else if j == p then item else c[j - 1]
  {
  }

  /** Makes `item` the first node. */
  method LinkFirst(head: Node, item: Node, ghost c: seq<Node>)
    requires Linked(head, c) && c != [] && item !in c
    modifies item`next
    ensures Linked(item, Spliced(c, item, 0))
  {
    item.next := head;
    ghost var d := Spliced(c, item, 0);
    SplicedAt(c, item, 0, |c|);
    forall j | 0 <= j < |c| ensures d[j].next == d[j + 1] {
      SplicedAt(c, item, 0, j);
      SplicedAt(c, item, 0, j + 1);
      if j > 0 {
        assert c[j - 1] in c;
      }
    }
  }

  /** Puts `item` behind the node `node`. */
  method LinkAfter(head: Node, node: Node, item: Node, ghost c: seq<Node>, ghost p: nat)
    requires Linked(head, c) && item !in c && p < |c| && node == c[p]
    requires forall j | 0 <= j < |c| && j != p :: c[j] != node
    modifies node`next, item`next
    ensures Linked(head, Spliced(c, item, p + 1))
  {
    item.next := node.next;
    node.next := item;
    ghost var d := Spliced(c, item, p + 1);
    SplicedAt(c, item, p + 1, |c|);
    forall j | 0 <= j < |c| ensures d[j].next == d[j + 1] {
      SplicedAt(c, item, p + 1, j);
      SplicedAt(c, item, p + 1, j + 1);
      if j != p + 1 {
        assert d[j] in c;
      }
    }
  }

  lemma SortedKeys(c: seq<Node>, i: nat, j: nat)
    requires Sorted(c) && i < |c| && j < |c| && i != j
    ensures c[i].key != c[j].key
  {
    if i < j {
    } else {
    }
  }

  lemma SortedDistinct(c: seq<Node>, p: nat)
    requires Sorted(c) && p < |c|
    ensures forall j | 0 <= j < |c| && j != p :: c[j] != c[p]
  {
    forall j | 0 <= j < |c| && j != p ensures c[j] != c[p] {
      assert c[j].key != c[p].key;
    }
  }

  /** The place behind a node whose key is smaller and whose successor's key, if there is one, is greater. */
  lemma PlaceBehind(head: Node, c: seq<Node>, k: uint64, p: nat)
    requires Linked(head, c) && Sorted(c) && p < |c| && c[p].key < k && (c[p].next == null || k < c[p].next.key)
    ensures Place(c, k, p + 1) && !HasKey(c, k)
  {
    if p + 1 < |c| {
      assert c[p].next == c[p + 1];
    }
    forall j | 0 <= j <= p ensures c[j].key < k {
      assert c[j].key <= c[p].key;
    }
    forall j | p < j < |c| ensures k < c[j].key {
      assert c[p + 1].key <= c[j].key;
    }
  }

  /** A node with a new key adds its entry. */
  lemma SplicedEntries(c: seq<Node>, item: Node, p: nat, content: map<uint64, nat>)
    requires p <= |c| && Holds(c, content) && !HasKey(c, item.key)
    ensures Holds(Spliced(c, item, p), content[item.key := item.value])
    ensures forall k: uint64 :: HasKey(Spliced(c, item, p), k) <==> HasKey(c, k) || k == item.key
  {
    var d := Spliced(c, item, p);
    forall j | 0 <= j < |c| ensures c[j].key != item.key && c[j] in d {
      SplicedAt(c, item, p, if j < p then j else j + 1);
    }
    forall k: uint64 ensures HasKey(d, k) <==> HasKey(c, k) || k == item.key {
      if HasKey(c, k) {
        var j :| 0 <= j < |c| && c[j].key == k;
        SplicedAt(c, item, p, if j < p then j else j + 1);
        assert d[if j < p then j else j + 1].key == k;
      }
      SplicedAt(c, item, p, p);
      assert d[p].key == item.key;
    }
  }

  /** Relinking does not change the order of the keys. */
  twostate lemma StillSorted(c: seq<Node>)
    requires old(Sorted(c)) && forall j | 0 <= j < |c| :: c[j].key == old(c[j].key)
    ensures Sorted(c)
  {
  }

  lemma NextNode(head: Node?, c: seq<Node>, p: nat)
    requires Linked(head, c) && p < |c|
    ensures c[p].next == if p + 1 < |c| then c[p + 1] else null
  {
  }

  lemma PlaceFirst(c: seq<Node>, k: uint64)
    requires Sorted(c) && c != [] && k < c[0].key
    ensures Place(c, k, 0) && !HasKey(c, k)
  {
    forall j | 0 <= j < |c| ensures k < c[j].key {
      assert c[0].key <= c[j].key;
    }
  }

  lemma HasKeyAt(c: seq<Node>, p: nat)
    requires p < |c|
    ensures HasKey(c, c[p].key)
  {
  }

  /** What inserting `item` does to a list of entries of `content`. */
  twostate predicate Entered(first: Node, c: seq<Node>, c': seq<Node>, item: Node, content: map<uint64, nat>)
    reads c', item
  {
    && Linked(first, c') && Sorted(c') && Holds(c', content[item.key := item.value])
    && forall k: uint64 :: HasKey(c', k) <==> old(HasKey(c, k)) || k == item.key
  }

  method InsertBehind(head: Node, node: Node, item: Node,
                      ghost c: seq<Node>, ghost p: nat, ghost content: map<uint64, nat>)
    requires Linked(head, c) && Sorted(c) && Holds(c, content) && item !in c
    requires p < |c| && node == c[p] && Place(c, item.key, p + 1) && !HasKey(c, item.key)
    modifies node`next, item`next
    ensures Entered(head, c, Spliced(c, item, p + 1), item, content)
  {
    SortedDistinct(c, p);
    LinkAfter(head, node, item, c, p);
    hide Linked, Spliced;
    SplicedSorted(c, item, p + 1);
    SplicedEntries(c, item, p + 1, content);
  }

  method InsertFirst(head: Node, item: Node, ghost c: seq<Node>, ghost content: map<uint64, nat>)
    requires Linked(head, c) && c != [] && Sorted(c) && Holds(c, content) && item !in c && item.key < head.key
    modifies item`next
    ensures Entered(item, c, Spliced(c, item, 0), item, content)
  {
    PlaceFirst(c, item.key);
    LinkFirst(head, item, c);
    hide Linked, Spliced;
    SplicedSorted(c, item, 0);
    SplicedEntries(c, item, 0, content);
  }

  /** The node that has the key takes over the value. */
  method Overwrite(head: Node, node: Node, item: Node,
                   ghost c: seq<Node>, ghost p: nat, ghost content: map<uint64, nat>)
    requires Linked(head, c) && Sorted(c) && Holds(c, content) && item !in c
    requires p < |c| && node == c[p] && node.key == item.key
    modifies node`value
    ensures Entered(head, c, c, item, content)
  {
    SortedDistinct(c, p);
    HasKeyAt(c, p);
    node.value := item.value;
  }

  /** Walks to the last node whose key is at most `key`, or stays at the first. */
  method Seek(head: Node, key: uint64, ghost c: seq<Node>) returns (node: Node, ghost p: nat)
    requires Linked(head, c) && c != []
    ensures p < |c| && node == c[p] && (p > 0 ==> c[p].key <= key)
    ensures !(key > node.key && node.next != null && key >= node.next.key)
  {
    assert head == c[0];
    hide Linked;
    node, p := head, 0;
    while key > node.key && node.next != null && key >= node.next.key
      invariant p < |c| && node == c[p] && (p > 0 ==> c[p].key <= key)
      decreases |c| - p
    {
      NextNode(head, c, p);
      node := node.next;
      p := p + 1;
    }
  }

  /**
   * Inserts `item` in the order of the keys; when its key is there already, the node that has it takes
   * over the value instead.
   */
  method Insert(head: Node, item: Node, ghost c: seq<Node>, ghost content: map<uint64, nat>)
    returns (first: Node, dup: bool, ghost c': seq<Node>)
    requires Linked(head, c) && c != [] && Sorted(c) && Holds(c, content) && item !in c && item.next == null
    modifies c`next, c`value, item`next
    ensures dup == old(HasKey(c, item.key))
    ensures if dup then c' == c else exists p :: 0 <= p <= |c| && c' == Spliced(c, item, p)
    ensures Linked(first, c') && Sorted(c') && Holds(c', content[item.key := item.value])
    ensures forall k: uint64 :: HasKey(c', k) <==> old(HasKey(c, k)) || k == item.key
  {
    assert head == c[0];
    hide Linked, Sorted, Place, HasKey, Spliced, Holds;
    first, dup, c' := head, false, c;
    var node, p := Seek(head, item.key, c);
    if item.key > node.key {
      PlaceBehind(head, c, item.key, p);
      InsertBehind(head, node, item, c, p, content);
      c' := Spliced(c, item, p + 1);
    } else if item.key < node.key {
      PlaceFirst(c, item.key);
      InsertFirst(head, item, c, content);
      first := item;
      c' := Spliced(c, item, 0);
    } else {
      HasKeyAt(c, p);
      Overwrite(head, node, item, c, p, content);
      dup := true;
    }
  }

  /** The list without the node at place `p`. */
  function Without(c: seq<Node>, p: nat): seq<Node>
    requires p < |c|
  {
    c[..p] + c[p + 1..]
  }

  /** Finds the node of a key and the node before it. */
  method FindBoth(head: Node?, key: uint64, ghost c: seq<Node>) returns (previous: Node?, node: Node?, ghost p: nat)
    requires Linked(head, c)
    ensures node == null <==> !HasKey(c, key)
    ensures node != null ==> p < |c| && node == c[p] && node.key == key
    ensures node != null ==> previous == if p == 0 then null else c[p - 1]
  {
    previous, node, p := null, head, 0;
    while node != null
      invariant p <= |c| && node == (if p < |c| then c[p] else null)
      invariant previous == if p == 0 then null else c[p - 1]
      invariant forall j | 0 <= j < p :: c[j].key != key
      decreases |c| - p
    {
      if node.key == key {
        return;
      }
      previous := node;
      node := node.next;
      p := p + 1;
    }
  }

  lemma WithoutAt(c: seq<Node>, p: nat, j: nat)
    requires p < |c| && j < |c| - 1
    ensures |Without(c, p)| == |c| - 1 && Without(c, p)[j] == if j < p then c[j] else c[j + 1]
  {
  }

  lemma WithoutSorted(c: seq<Node>, p: nat)
    requires Sorted(c) && p < |c|
    ensures Sorted(Without(c, p))
  {
  }

  /** Takes the node behind `previous` out of the list. */
  method UnlinkAfter(head: Node?, previous: Node, node: Node, ghost c: seq<Node>, ghost p: nat)
    requires Linked(head, c) && p + 1 < |c| && previous == c[p] && node == c[p + 1]
    requires forall j | 0 <= j < |c| && j != p :: c[j] != previous
    modifies previous`next
    ensures Linked(head, Without(c, p + 1))
  {
    previous.next := node.next;
    ghost var d := Without(c, p + 1);
    WithoutAt(c, p + 1, 0);
    forall j | 0 <= j < |d| - 1 ensures d[j].next == d[j + 1] {
      WithoutAt(c, p + 1, j);
      WithoutAt(c, p + 1, j + 1);
    }
    WithoutAt(c, p + 1, |d| - 1);
  }

  lemma FirstUnlinked(head: Node?, c: seq<Node>)
    requires Linked(head, c) && c != []
    ensures Linked(c[0].next, Without(c, 0))
  {
    assert Without(c, 0) == c[1..];
  }

  /** Takes a node out of the list; the node keeps its own link. */
  method Unlink(head: Node?, previous: Node?, node: Node, ghost c: seq<Node>, ghost p: nat) returns (first: Node?)
    requires Linked(head, c) && Sorted(c) && p < |c| && node == c[p]
    requires previous == if p == 0 then null else c[p - 1]
    modifies c`next
    ensures Linked(first, Without(c, p)) && Sorted(Without(c, p))
  {
    hide Sorted, Linked, Without;
    WithoutSorted(c, p);
    if previous == null {
      FirstUnlinked(head, c);
      first := node.next;
    } else {
      first := head;
      SortedDistinct(c, p - 1);
      UnlinkAfter(head, previous, node, c, p - 1);
      StillSorted(Without(c, p));
    }
  }

  /** Without a node its entry is gone. */
  lemma WithoutEntries(c: seq<Node>, p: nat, content: map<uint64, nat>)
    requires p < |c| && Sorted(c) && Holds(c, content)
    ensures var d := Without(c, p);
            && Holds(d, content - {c[p].key}) && |d| == |c| - 1
            && (forall j | 0 <= j < |d| :: d[j] in c && d[j] != c[p])
            && forall k: uint64 :: HasKey(d, k) <==> HasKey(c, k) && k != c[p].key
  {
    var d := Without(c, p);
    assert |d| == |c| - 1;
    forall j | 0 <= j < |d| ensures d[j] in c && d[j].key != c[p].key {
      WithoutAt(c, p, j);
    }
    forall k: uint64 ensures HasKey(d, k) <==> HasKey(c, k) && k != c[p].key {
      if HasKey(c, k) && k != c[p].key {
        var j :| 0 <= j < |c| && c[j].key == k;
        WithoutAt(c, p, if j < p then j else j - 1);
        assert d[if j < p then j else j - 1].key == k;
      }
    }
  }
}
