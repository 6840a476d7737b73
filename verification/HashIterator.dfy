/**
 The iterator a table is rehashed with: it walks the lists of an array of buckets, and reads the link of
 a node before it hands the node out, so the caller may relink the nodes it has been given.
 */
module HashIterator {
  import opened Words
  import opened Chains

  /** No node occurs twice. */
  ghost predicate Apart(chains: seq<seq<Node>>) {
    && (forall k, i, j | 0 <= k < |chains| && 0 <= i < j < |chains[k]| :: chains[k][i] != chains[k][j])
    && (forall k, k', i | 0 <= k < k' < |chains| && 0 <= i < |chains[k]| :: chains[k][i] !in chains[k'])
  }

  ghost function SetOf(c: seq<Node>): set<Node> { set n | n in c }

  ghost function Members(chains: seq<seq<Node>>): set<Node> {
    if chains == [] then {} else SetOf(chains[0]) + Members(chains[1..])
  }

  lemma {:induction false} MembersIn(chains: seq<seq<Node>>, k: nat)
    requires k < |chains|
    ensures forall n | n in chains[k] :: n in Members(chains)
  {
    if k == 0 {
    } else {
      MembersIn(chains[1..], k - 1);
    }
  }

  lemma {:induction false} MembersFrom(chains: seq<seq<Node>>, n: Node) returns (k: nat)
    requires n in Members(chains)
    ensures k < |chains| && n in chains[k]
  {
    if n in chains[0] {
      k := 0;
    } else {
      k := MembersFrom(chains[1..], n);
      k := k + 1;
    }
  }

  lemma {:induction false} NoMember(chains: seq<seq<Node>>, n: Node)
    requires forall k | 0 <= k < |chains| :: n !in chains[k]
    ensures n !in Members(chains)
  {
    if chains == [] {
    } else {
      NoMember(chains[1..], n);
    }
  }

  lemma {:induction false} DistinctSize(c: seq<Node>)
    requires forall i, j | 0 <= i < j < |c| :: c[i] != c[j]
    ensures |SetOf(c)| == |c|
  {
    if c == [] {
    } else {
      var last := c[|c| - 1];
      DistinctSize(c[..|c| - 1]);
      assert SetOf(c) == SetOf(c[..|c| - 1]) + {last};
    }
  }

  lemma {:induction false} MembersSize(chains: seq<seq<Node>>)
    requires Apart(chains)
    ensures |Members(chains)| == Total(chains)
  {
    if chains == [] {
    } else {
      var rest := chains[1..];
      DistinctSize(chains[0]);
      forall n | n in chains[0] ensures n !in Members(rest) {
        NoMember(rest, n);
      }
      MembersSize(rest);
    }
  }

  class Iterator {
    var currentTableIndex: nat
    var foundElements: nat
    var totalElements: nat
    var tableSize: nat
    var currentNode: Node?
    const iteratorTable: array<Node?>

    /** The nodes still to come, bucket by bucket, and as a set. */
    ghost var chains: seq<seq<Node>>
    ghost var pending: set<Node>

    ghost predicate Valid()
      reads this, iteratorTable, pending
    {
      && iteratorTable.Length == tableSize == currentTableIndex + |chains| && chains != []
      && (forall k, i | 0 <= k < |chains| && 0 <= i < |chains[k]| :: chains[k][i] in pending)
      && Linked(currentNode, chains[0])
      && (forall k | 0 < k < |chains| :: Linked(iteratorTable[currentTableIndex + k], chains[k]))
      && Apart(chains) && |pending| == Total(chains) && totalElements == foundElements + |pending|
    }

    constructor (table: array<Node?>, size: nat, items: nat, ghost chains: seq<seq<Node>>)
      requires table.Length == size == |chains| > 0 && items == Total(chains) && Apart(chains)
      requires forall k | 0 <= k < size :: Linked(table[k], chains[k])
      ensures Valid() && pending == Members(chains)
      ensures iteratorTable == table && totalElements == items && foundElements == 0
    {
      currentTableIndex, foundElements, totalElements, tableSize := 0, 0, items, size;
      currentNode, iteratorTable := table[0], table;
      this.chains, pending := chains, Members(chains);
      MembersSize(chains);
      forall k | 0 <= k < size ensures forall n | n in chains[k] :: n in Members(chains) {
        MembersIn(chains, k);
      }
    }

    predicate HasNext()
      reads this, currentNode
    {
      foundElements < totalElements
      && (currentTableIndex < tableSize || (currentNode != null && currentNode.next != null))
    }

    lemma MoreToCome()
      requires Valid()
      ensures HasNext() <==> pending != {}
    {
    }

    /** Hands out the current node. */
    method Take() returns (node: Node)
      requires Valid() && currentNode != null
      modifies this
      ensures Valid() && node in old(pending) && pending == old(pending) - {node}
    {
      hide Linked, Total, Apart;
      FirstLink(currentNode, chains[0]);
      TailApart(chains);
      node := currentNode;
      currentNode, foundElements := currentNode.next, foundElements + 1;
      pending, chains := pending - {node}, [chains[0][1..]] + chains[1..];
    }

    /** Goes on to the next bucket. */
    method Skip()
      requires Valid() && currentNode == null && pending != {}
      modifies this
      ensures Valid() && pending == old(pending) && |chains| < |old(chains)|
    {
      hide Linked, Total, Apart;
      FirstLink(currentNode, chains[0]);
      NextBucket(chains);
      currentTableIndex := currentTableIndex + 1;
      currentNode := iteratorTable[currentTableIndex];
      chains := chains[1..];
    }

    /**
     * The next node, or null when there is none. Each node is handed out once, and the array is never
     * indexed past its end.
     */
    method Next() returns (node: Node?)
      requires Valid()
      modifies this
      ensures Valid()
      ensures node == null <==> old(pending) == {}
      ensures node == null ==> pending == {}
      ensures node != null ==> node in old(pending) && pending == old(pending) - {node}
      decreases |chains|
    {
      MoreToCome();
      if !HasNext() {
        return null;
      }
      if currentNode != null {
        node := Take();
      } else {
        Skip();
        node := Next();
      }
    }
  }

  lemma FirstLink(head: Node?, c: seq<Node>)
    requires Linked(head, c)
    ensures head == null <==> c == []
    ensures head != null ==> head == c[0] && Linked(head.next, c[1..])
  {
  }

  /** Once the first bucket is used up, what is left is in the others. */
  lemma NextBucket(chains: seq<seq<Node>>)
    requires chains != [] && chains[0] == [] && Apart(chains) && Total(chains) > 0
    ensures Apart(chains[1..]) && chains[1..] != [] && Total(chains[1..]) == Total(chains)
  {
  }

  lemma TailApart(chains: seq<seq<Node>>)
    requires chains != [] && chains[0] != [] && Apart(chains)
    ensures var rest := [chains[0][1..]] + chains[1..];
            && Apart(rest) && Total(rest) == Total(chains) - 1
            && forall k, i | 0 <= k < |rest| && 0 <= i < |rest[k]| :: rest[k][i] != chains[0][0]
  {
    var rest := [chains[0][1..]] + chains[1..];
    assert rest[1..] == chains[1..];
    forall k, i | 0 <= k < |rest| && 0 <= i < |rest[k]| ensures rest[k][i] != chains[0][0] {
      if k > 0 {
        assert rest[k] == chains[k] && chains[0][0] !in chains[k];
      }
    }
  }
}
