/**
 The resizing chained hash table. The load factors of the original are compared as rationals: a put
 doubles the table when 5 * items > 6 * size, a remove halves it when 2 * slots < size.
 */
module HashTable {
  import opened Words
  import opened Chains
  import opened HashIterator

  const INITIAL_SIZE: nat := 8

  /** The sizes a table can have: the first one, doubled any number of times. */
  predicate IsSize(n: nat) { n == INITIAL_SIZE || (n > INITIAL_SIZE && n % 2 == 0 && IsSize(n / 2)) }

  lemma {:induction false} Sizes(n: nat)
    requires IsSize(n)
    ensures n > INITIAL_SIZE ==> n >= 2 * INITIAL_SIZE && n % 2 == 0 && IsSize(n / 2)
  {
    if n <= INITIAL_SIZE {
    } else {
      Sizes(n / 2);
    }
  }

  function Index(key: uint64, size: nat): (i: nat)
    requires size > 0
    ensures i < size
  {
    key % size
  }

  /** The number of buckets that are not empty. */
  function Used(chains: seq<seq<Node>>): nat {
    if chains == [] then 0 else (if chains[0] == [] then 0 else 1) + Used(chains[1..])
  }

  /** The buckets the keys of a map belong to. */
  ghost function Indices(m: map<uint64, nat>, size: nat): set<nat>
    requires size > 0
  {
    set k | k in m :: Index(k, size)
  }

  /** At how many entries a table of `n` buckets is doubled. */
  function FullAt(n: nat): nat { 6 * n / 5 + 1 }

  /** How many nodes are inserted to put `k` entries into an empty table of `n` buckets, doublings included. */
  function Reinserted(k: nat, n: nat): nat { k + if k < FullAt(n) then 0 else FullAt(n) }

  /** The places of the buckets that are not empty. */
  ghost function Places(chains: seq<seq<Node>>): set<nat> { set i: nat | i < |chains| && chains[i] != [] }

  lemma {:induction false} UsedPlaces(chains: seq<seq<Node>>)
    ensures Used(chains) == |Places(chains)|
  {
    if chains == [] {
      assert Places(chains) == {};
    } else {
      var n := |chains| - 1;
      UsedPlaces(chains[..n]);
      UsedLast(chains);
      assert Places(chains) == Places(chains[..n]) + if chains[n] == [] then {} else {n};
    }
  }

  lemma {:induction false} UsedLast(chains: seq<seq<Node>>)
    requires chains != []
    ensures var n := |chains| - 1; Used(chains) == Used(chains[..n]) + if chains[n] == [] then 0 else 1
  {
    var n := |chains| - 1;
    if n == 0 {
      assert chains[..0] == [] && chains[1..] == [];
    } else {
      UsedLast(chains[1..]);
      assert chains[1..][..n - 1] == chains[..n][1..];
    }
  }

  /** A bucket is a sorted list of nodes whose keys belong there. */
  ghost predicate Bucket(head: Node?, c: seq<Node>, i: nat, size: nat)
    requires size > 0
    reads c`next, c`key
  {
    Linked(head, c) && Sorted(c) && forall j | 0 <= j < |c| :: Index(c[j].key, size) == i
  }

  class Table {
    var items: nat
    var slots: nat
    var size: nat
    var table: array<Node?>

    /** The nodes of each bucket, all nodes, and the map the table stands for. */
    ghost var chains: seq<seq<Node>>
    ghost var nodes: set<Node>
    ghost var content: map<uint64, nat>

    /** How many nodes have been inserted again by resizing. */
    ghost var moves: nat

    ghost predicate Counts()
      reads this
    {
      && IsSize(size) && size == |chains| >= INITIAL_SIZE && table.Length == size
      && items == |content| == Total(chains) && slots == Used(chains)
      && forall i, j | 0 <= i < size && 0 <= j < |chains[i]| :: chains[i][j] in nodes
    }

    ghost predicate Valid()
      reads this, table, nodes
    {
      && Counts()
      && (forall i | 0 <= i < size :: Bucket(table[i], chains[i], i, size) && Holds(chains[i], content))
      && forall k | k in content :: HasKey(chains[Index(k, size)], k)
    }

    /** The load factor is at most 1.2. */
    ghost predicate Balanced()
      reads this
    {
      5 * items <= 6 * size
    }

    /** The table is that of a valid one whose buckets other than the i-th, with nodes `s`, are unchanged. */
    lemma Rejoin(i: nat, s: set<Node>, heads: seq<Node?>, was: seq<seq<Node>>, m: map<uint64, nat>)
      requires i < size && IsSize(size) && table.Length == |chains| == size >= INITIAL_SIZE && s <= nodes
      requires Others(i, s, heads, was, m, size)
      requires table[..] == heads[i := table[i]] && chains == was[i := chains[i]]
      requires SameElsewhere(i, m, content, size)
      requires forall j | 0 <= j < |chains[i]| :: chains[i][j] in nodes
      requires Bucket(table[i], chains[i], i, size) && Holds(chains[i], content)
      requires forall k | k in content && Index(k, size) == i :: HasKey(chains[i], k)
      requires items == |content| == Total(was) - |was[i]| + |chains[i]|
      requires slots == Used(was) - (if was[i] == [] then 0 else 1) + (if chains[i] == [] then 0 else 1)
      ensures Valid()
    {
      hide Index, HasKey, Bucket, Holds, Total, Used;
      TotalUpdate(was, i, chains[i]);
      forall k | 0 <= k < size && k != i ensures Bucket(table[k], chains[k], k, size) && Holds(chains[k], content) {
        assert table[..][k] == heads[k];
        HoldsSame(was[k], k, i, heads[k], size, m, content);
      }
    }

    /** The other buckets of a valid table have their own nodes. */
    lemma SplitOff(i: nat) returns (s: set<Node>)
      requires Valid() && i < size
      ensures s == (set n | n in nodes && n !in chains[i])
      ensures Others(i, s, table[..], chains, content, size)
    {
      hide Index, HasKey, Bucket, Holds, Total, Used;
      s := set n | n in nodes && n !in chains[i];
      forall k | 0 <= k < size && k != i
        ensures forall j | 0 <= j < |chains[k]| :: chains[k][j] in s
      {
        BucketsApart(table[k], chains[k], k, table[i], chains[i], i, size);
      }
    }

    /** A key is found in its bucket exactly when the map has it. */
    lemma KeysAgree(key: uint64)
      requires Valid()
      ensures key in content <==> HasKey(chains[Index(key, size)], key)
    {
      var c := chains[Index(key, size)];
      if HasKey(c, key) {
        var j :| 0 <= j < |c| && c[j].key == key;
        assert c[j].key in content;
      }
    }

    lemma ValidCounts()
      requires Valid()
      ensures Counts()
    {
    }

    lemma BucketFacts(i: nat)
      requires Valid() && i < size
      ensures Counts() && (table[i] == null <==> chains[i] == [])
      ensures Bucket(table[i], chains[i], i, size) && Holds(chains[i], content)
      ensures forall j | 0 <= j < |chains[i]| :: chains[i][j] in nodes
      ensures forall k | k in content && Index(k, size) == i :: HasKey(chains[i], k)
    {
      hide Holds, HasKey, Index;
    }

    /** Records what has become of one bucket. */
    method Install(i: nat, first: Node?, items': nat, slots': nat,
                   ghost c: seq<Node>, ghost content': map<uint64, nat>, ghost nodes': set<Node>, ghost s: set<Node>)
      requires i < size && IsSize(size) && table.Length == |chains| == size >= INITIAL_SIZE && s <= nodes'
      requires Others(i, s, table[..], chains, content, size) && SameElsewhere(i, content, content', size)
      requires forall j | 0 <= j < |c| :: c[j] in nodes'
      requires Bucket(first, c, i, size) && Holds(c, content')
      requires forall k | k in content' && Index(k, size) == i :: HasKey(c, k)
      requires items' == |content'| == Total(chains) - |chains[i]| + |c|
      requires slots' == Used(chains) - (if chains[i] == [] then 0 else 1) + (if c == [] then 0 else 1)
      modifies this`items, this`slots, this`chains, this`nodes, this`content, table
      ensures Valid() && nodes == nodes' && content == content'
    {
      hide HasKey, Holds, Bucket, Total, Used, Others, SameElsewhere, Index, Valid;
      ghost var heads := table[..];
      table[i], items, slots := first, items', slots';
      chains, content, nodes := chains[i := c], content', nodes';
      Rejoin(i, s, heads, old(chains), old(content));
    }

    /** Puts an entry into its bucket, without resizing. */
    method Link(key: uint64, value: nat, item: Node) returns (dup: bool)
      requires Valid() && item !in nodes
      modifies this`items, this`slots, this`chains, this`nodes, this`content, table, nodes, item
      ensures Valid() && nodes == old(nodes) + {item} && content == old(content)[key := value]
      ensures dup <==> key in old(content)
    {
      hide HasKey, Holds, Bucket, Spliced, Total, Used, Others, SameElsewhere, Index, Valid, Linked;
      ValidCounts();
      var i := Index(key, size);
      ghost var c := chains[i];
      ghost var s := SplitOff(i);
      BucketFacts(i);
      KeysAgree(key);
      MapGrows(content, key, value);
      OneKeyMore(i, content, key, value, size);
      var first;
      ghost var c';
      first, dup, c' := EnterBucket(table[i], key, value, item, c, content, i, size);
      assert Others(i, s, table[..], chains, content, size);
      assert forall k | k in content[key := value] && Index(k, size) == i :: HasKey(c', k);
      Install(i, first, if dup then items else items + 1, if table[i] == null then slots + 1 else slots,
              c', content[key := value], nodes + {item}, s);
    }

    constructor ()
      ensures Valid() && content == map[] && size == INITIAL_SIZE && moves == 0 && fresh(table) && nodes == {}
    {
      items, slots, size, moves := 0, 0, INITIAL_SIZE, 0;
      table := new Node?[INITIAL_SIZE](_ => null);
      chains, nodes, content := seq(INITIAL_SIZE, _ => []), {}, map[];
      new;
      AllEmpty(chains);
    }

    method ContainsKey(key: uint64) returns (found: bool)
      requires Valid()
      ensures found <==> key in content
    {
      hide Valid, HasKey;
      ValidCounts();
      var i := Index(key, size);
      BucketFacts(i);
      KeysAgree(key);
      var node := Find(table[i], key, chains[i]);
      found := node != null;
    }

    method Get(key: uint64) returns (value: nat)
      requires Valid()
      ensures value == if key in content then content[key] else NULL
    {
      hide Valid, HasKey;
      ValidCounts();
      var i := Index(key, size);
      BucketFacts(i);
      KeysAgree(key);
      var node := Find(table[i], key, chains[i]);
      value := if node != null then node.value else NULL;
    }

    /** Takes the node of a key out of its bucket, without resizing. */
    method Detach(key: uint64) returns (node: Node?)
      requires Valid()
      modifies this`items, this`slots, this`chains, this`nodes, this`content, table, nodes
      ensures Valid() && content == old(content) - {key}
      ensures node == null <==> key !in old(content)
      ensures if node == null then nodes == old(nodes) else nodes == old(nodes) - {node} && node in old(nodes)
      ensures node != null ==> node.value == old(content[key])
    {
      hide HasKey, Holds, Bucket, Spliced, Total, Used, Others, SameElsewhere, Index, Valid, Sorted;
      ValidCounts();
      var i := Index(key, size);
      ghost var c := chains[i];
      ghost var s := SplitOff(i);
      BucketFacts(i);
      KeysAgree(key);
      MapShrinks(content, key);
      var previous;
      ghost var p;
      previous, node, p := FindBucket(table[i], key, c, content, i, size);
      if node != null {
        var first := LeaveBucket(table[i], previous, node, c, content, p, i, size);
        OneKeyLess(i, content, key, size);
        ghost var d := Without(c, p);
        TotalUpdate(chains, i, d);
        assert |content - {key}| == items - 1;
        assert Others(i, s, table[..], chains, content, size);
        assert forall k | k in content - {key} && Index(k, size) == i :: HasKey(d, k);
        Install(i, first, items - 1, if first == null then slots - 1 else slots, d, content - {key}, nodes - {node}, s);
      }
    }

    // Resizing ------------------------------------------------------------------------------------

    /** The nodes in the buckets are different, with different keys, and hold the entries of the map. */
    lemma Entries()
      requires Valid()
      ensures Apart(chains) && Members(chains) <= nodes && |Members(chains)| == |content|
      ensures Proper(Members(chains), content, map[])
    {
      hide Holds, Index, Linked, HasKey, Total, Used;
      forall k, k' | 0 <= k < k' < size ensures forall i | 0 <= i < |chains[k]| :: chains[k][i] !in chains[k'] {
        BucketsApart(table[k], chains[k], k, table[k'], chains[k'], k', size);
      }
      forall k | 0 <= k < size ensures forall i, j | 0 <= i < j < |chains[k]| :: chains[k][i] != chains[k][j] {
        assert Sorted(chains[k]);
      }
      MembersSize(chains);
      forall n | n in Members(chains) ensures n in nodes && n.key in content && content[n.key] == n.value {
        EntryOf(n);
      }
      forall n, n' | n in Members(chains) && n' in Members(chains) && n != n' ensures n.key != n'.key {
        DifferentKeys(n, n');
      }
    }

    lemma EntryOf(n: Node)
      requires Valid() && n in Members(chains)
      ensures n in nodes && n.key in content && content[n.key] == n.value
    {
      hide Index, Linked, HasKey, Total, Used, Sorted;
      var k := MembersFrom(chains, n);
      var i :| 0 <= i < |chains[k]| && chains[k][i] == n;
    }

    lemma DifferentKeys(n: Node, n': Node)
      requires Valid() && n in Members(chains) && n' in Members(chains) && n != n'
      ensures n.key != n'.key
    {
      hide Index, Valid, Sorted;
      var k := MembersFrom(chains, n);
      var k' := MembersFrom(chains, n');
      var i := InBucket(n, k);
      var i' := InBucket(n', k');
      if k == k' {
        assert chains[k][i].key != chains[k][i'].key by { SortedKeys(chains[k], i, i'); }
      }
    }

    /** Where in its bucket a node is. */
    lemma InBucket(n: Node, k: nat) returns (i: nat)
      requires Valid() && k < |chains| && n in chains[k]
      ensures i < |chains[k]| && chains[k][i] == n && Index(n.key, size) == k && Sorted(chains[k])
    {
      hide Index, Linked, HasKey, Total, Used, Holds, Sorted;
      i :| 0 <= i < |chains[k]| && chains[k][i] == n;
      assert Bucket(table[k], chains[k], k, size);
    }

    /** Starts again with `n` empty buckets. */
    method Clear(n: nat)
      requires IsSize(n)
      modifies this`items, this`slots, this`size, this`table, this`chains, this`nodes, this`content
      ensures Valid() && size == n && content == map[] && nodes == {} && fresh(table)
    {
      size, items, slots := n, 0, 0;
      table := new Node?[n](_ => null);
      chains, nodes, content := seq(n, _ => []), {}, map[];
      AllEmpty(chains);
    }

    /** Sets the old buckets aside in an iterator and starts again with `n` empty ones. */
    method Restart(n: nat) returns (itr: Iterator)
      requires Valid() && IsSize(n)
      modifies this`items, this`slots, this`size, this`table, this`chains, this`nodes, this`content
      ensures Valid() && size == n && content == map[] && nodes == {} && fresh(table) && fresh(itr)
      ensures itr.Valid() && itr.iteratorTable == old(table)
      ensures itr.pending <= old(nodes) && |itr.pending| == |old(content)|
      ensures Proper(itr.pending, old(content), map[])
    {
      Entries();
      Lists();
      ValidCounts();
      hide Valid, Proper, IsSize, Apart, Iterator.Valid, Linked, Counts;
      itr := new Iterator(table, size, items, chains);
      ghost var m := content;
      assert itr.Valid() && Proper(itr.pending, m, map[]);
      Clear(n);
    }

    lemma Lists()
      requires Valid()
      ensures Counts() && forall k | 0 <= k < size :: Linked(table[k], chains[k])
    {
      hide Linked, Sorted, Holds;
    }

    /** What an insertion may need: a doubling. */
    ghost predicate Needs()
      reads this
    {
      5 * (items + 1) > 6 * size
    }

    ghost method CountMove()
      requires Valid()
      modifies this`moves
      ensures Valid() && moves == old(moves) + 1
    {
      hide Linked, Sorted, Holds, HasKey, Total, Used, Index, IsSize;
      moves := moves + 1;
    }

    /** Inserts the next node of an iterator whose nodes are entries of `m`. */
    method InsertNext(itr: Iterator, ghost m: map<uint64, nat>)
      requires Valid() && Balanced() && itr.Valid() && itr.pending !! nodes && itr.pending != {}
      requires itr.iteratorTable != table && Proper(itr.pending, m, content) && Submap(content, m)
      modifies this, table, nodes, itr, itr.pending
      ensures Valid() && Balanced() && itr.Valid() && itr.pending !! nodes && itr.iteratorTable != table
      ensures itr.pending < old(itr.pending) && |itr.pending| + 1 == |old(itr.pending)|
      ensures nodes <= old(nodes) + old(itr.pending) && (table == old(table) || fresh(table))
      ensures Proper(itr.pending, m, content) && Submap(content, m) && |content| == |old(content)| + 1
      ensures size == if 5 * |content| > 6 * old(size) then 2 * old(size) else old(size)
      ensures moves == old(moves) + 1 + if size == old(size) then 0 else |content|
      decreases if Needs() then 3 else 0, 1
    {
      hide Valid, Proper, Submap, Counts, Needs, Iterator.Valid, Iterator.HasNext;
      ghost var s, before := itr.pending, nodes;
      var node := itr.Next();
      ProperNext(s, node, m, content);
      PutNia(node.key, node.value, node);
      MovedNode(s, before, node, itr.pending, nodes);
      assert itr.Valid();
      assert Proper(itr.pending, m, content);
      CountMove();
    }

    /** Inserts all nodes of an iterator, which are the entries of `m`. */
    method Rehash(itr: Iterator, ghost m: map<uint64, nat>)
      requires Valid() && content == map[] && nodes == {} && 5 * |m| <= 12 * size
      requires itr.Valid() && itr.iteratorTable != table && |itr.pending| == |m| && Proper(itr.pending, m, map[])
      modifies this, table, itr, itr.pending
      ensures Valid() && Balanced() && content == m && nodes <= old(itr.pending)
      ensures table == old(table) || fresh(table)
      ensures size == if 5 * |m| <= 6 * old(size) then old(size) else 2 * old(size)
      ensures moves == old(moves) + Reinserted(|m|, old(size))
      decreases if 5 * |m| <= 6 * size then 1 else 4, 0
    {
      hide Valid, Proper, Submap, IsSize, Counts, Iterator.Valid, Iterator.HasNext;
      ValidCounts();
      NothingYet(m);
      while itr.HasNext()
        invariant Valid() && Balanced() && itr.Valid() && itr.pending <= old(itr.pending) && nodes <= old(itr.pending)
        invariant itr.pending !! nodes && itr.iteratorTable != table
        invariant table == old(table) || fresh(table)
        invariant Proper(itr.pending, m, content) && Submap(content, m) && |content| + |itr.pending| == |m|
        invariant size == old(size) || (size == 2 * old(size) && 5 * |m| > 6 * old(size))
        invariant moves == old(moves) + |content| + if size == old(size) then 0 else FullAt(old(size))
        invariant size == old(size) <==> |content| < FullAt(old(size))
        decreases |itr.pending|
      {
        itr.MoreToCome();
        ValidCounts();
        InsertNext(itr, m);
      }
      ValidCounts();
      itr.MoreToCome();
      SameSize(content, m);
    }

    /** Puts an entry with a node that has been allocated for it, and doubles the table when it gets too full. */
    method PutNia(key: uint64, value: nat, item: Node)
      requires Valid() && Balanced() && item !in nodes
      modifies this, table, nodes, item
      ensures Valid() && Balanced() && content == old(content)[key := value] && nodes <= old(nodes) + {item}
      ensures table == old(table) || fresh(table)
      ensures size == if 5 * |content| > 6 * old(size) then 2 * old(size) else old(size)
      ensures moves == old(moves) + if size == old(size) then 0 else |content|
      decreases if Needs() then 3 else 0, 0
    {
      hide Valid;
      ValidCounts();
      MapGrows(content, key, value);
      var dup := Link(key, value, item);
      ValidCounts();
      if 5 * items > 6 * size {
        Double();
      }
    }

    method Double()
      requires Valid() && 6 * size < 5 * items <= 12 * size
      modifies this, table, nodes
      ensures Valid() && Balanced() && content == old(content) && nodes <= old(nodes)
      ensures fresh(table) && size == 2 * old(size) && moves == old(moves) + |content|
      decreases 2, 0
    {
      hide Valid, Proper;
      ValidCounts();
      ghost var m := content;
      assert 2 * size / 2 == size;
      var itr := Restart(2 * size);
      Rehash(itr, m);
    }

    /**
     * Halves the table, unless it has its first size. When the entries do not fit the smaller table,
     * inserting them doubles it again half-way through.
     */
    method Half()
      requires Valid() && Balanced()
      modifies this, table, nodes
      ensures Valid() && Balanced() && content == old(content) && nodes <= old(nodes)
      ensures table == old(table) || fresh(table)
      ensures size == if old(size) > INITIAL_SIZE && 5 * |content| <= 3 * old(size) then old(size) / 2 else old(size)
      ensures moves == old(moves) + if old(size) > INITIAL_SIZE then Reinserted(|content|, old(size) / 2) else 0
    {
      hide Valid, Proper;
      ValidCounts();
      Sizes(size);
      if size >= 2 * INITIAL_SIZE {
        ghost var m := content;
        var itr := Restart(size / 2);
        Rehash(itr, m);
      }
    }

    method Put(key: uint64, value: nat)
      requires Valid() && Balanced()
      modifies this, table, nodes
      ensures Valid() && Balanced() && content == old(content)[key := value]
      ensures fresh(nodes - old(nodes)) && (table == old(table) || fresh(table))
      ensures size == if 5 * |content| > 6 * old(size) then 2 * old(size) else old(size)
      ensures moves == old(moves) + if size == old(size) then 0 else |content|
      ensures old(Thrifty()) ==> Thrifty()
    {
      var item := new Node();
      PutNia(key, value, item);
    }

    /** A removal halves the table: too few of its buckets are in use, and it can get smaller. */
    ghost predicate Shrinks(m: map<uint64, nat>, n: nat)
      requires n > 0
    {
      2 * |Indices(m, n)| < n && n > INITIAL_SIZE
    }

    /** Takes a key out and returns its value, or NULL; halves the table when too few buckets are in use. */
    method Remove(key: uint64) returns (value: nat)
      requires Valid() && Balanced()
      modifies this, table, nodes
      ensures Valid() && Balanced() && content == old(content) - {key} && old(size) > 0
      ensures nodes <= old(nodes) && (table == old(table) || fresh(table))
      ensures value == old(if key in content then content[key] else NULL)
      ensures var halves := key in old(content) && Shrinks(content, old(size));
              && size == (if halves && 5 * |content| <= 3 * old(size) then old(size) / 2 else old(size))
              && moves == old(moves) + if halves then Reinserted(|content|, old(size) / 2) else 0
    {
      hide Valid, Indices;
      ValidCounts();
      MapShrinks(content, key);
      var node := Detach(key);
      ValidCounts();
      if node == null {
        return NULL;
      }
      UsedBuckets();
      if 2 * slots < size {
        Half();
      }
      value := node.value;
    }

    /** The buckets in use are those some key belongs to. */
    lemma UsedBuckets()
      requires Valid()
      ensures size > 0 && slots == |Indices(content, size)|
    {
      hide Index, HasKey, Linked, Sorted, IsSize;
      UsedPlaces(chains);
      assert Indices(content, size) == Places(chains) by {
        forall i | i in Places(chains) ensures i in Indices(content, size) {
          assert Index(chains[i][0].key, size) == i && chains[i][0].key in content;
        }
        forall k | k in content ensures chains[Index(k, size)] != [] {
          NoKeys(chains[Index(k, size)]);
        }
      }
    }

    /** What holds as long as nothing is removed: the re-insertions are paid for by the entries. */
    ghost predicate Thrifty()
      reads this
    {
      5 * moves <= 7 * (size - INITIAL_SIZE) && (size == INITIAL_SIZE || 5 * items > 3 * size)
    }

    /** At most three nodes have been moved for every entry. */
    lemma AmortisedCost()
      requires Valid() && Thrifty()
      ensures moves <= 3 * |content|
    {
    }
  }

  lemma MovedNode(s: set<Node>, t: set<Node>, n: Node, s': set<Node>, t': set<Node>)
    requires s !! t && n in s && s' == s - {n} && t' <= t + {n}
    ensures s' !! t' && t' <= t + s && s' < s && |s'| + 1 == |s|
  {
  }

  lemma ProperNext(s: set<Node>, node: Node, m: map<uint64, nat>, content: map<uint64, nat>)
    requires Proper(s, m, content) && node in s && Submap(content, m)
    ensures var content' := content[node.key := node.value];
            Proper(s - {node}, m, content') && Submap(content', m) && |content'| == |content| + 1
  {
    MapGrows(content, node.key, node.value);
  }

  ghost predicate Submap(m: map<uint64, nat>, m': map<uint64, nat>) {
    forall k | k in m :: k in m' && m[k] == m'[k]
  }

  lemma NothingYet(m: map<uint64, nat>)
    ensures Submap(map[], m)
  {
  }

  lemma SameSize(m: map<uint64, nat>, m': map<uint64, nat>)
    requires Submap(m, m') && |m| == |m'|
    ensures m == m'
  {
    Subset(m.Keys, m'.Keys);
  }

  lemma Subset(s: set<uint64>, s': set<uint64>)
    requires s <= s' && |s| == |s'|
    ensures s == s'
  {
    assert s' * s == s && |s' - s| == |s'| - |s'  * s|;
  }

  /** Nodes still to be inserted: entries of `m` with keys of their own that the table does not have yet. */
  ghost predicate Proper(s: set<Node>, m: map<uint64, nat>, content: map<uint64, nat>)
    reads s
  {
    && (forall n | n in s :: n.key in m && m[n.key] == n.value && n.key !in content)
    && (forall n, n' | n in s && n' in s && n != n' :: n.key != n'.key)
  }

  const NULL: nat := 0

  lemma {:induction false} AllEmpty(chains: seq<seq<Node>>)
    requires forall i | 0 <= i < |chains| :: chains[i] == []
    ensures Total(chains) == 0 && Used(chains) == 0
  {
    if chains == [] {
    } else {
      AllEmpty(chains[1..]);
    }
  }

  lemma MapShrinks(m: map<uint64, nat>, key: uint64)
    ensures |m - {key}| == |m| - if key in m then 1 else 0
  {
    assert (m - {key}).Keys == m.Keys - {key};
  }

  lemma OneKeyLess(i: nat, m: map<uint64, nat>, key: uint64, size: nat)
    requires size > 0 && Index(key, size) == i
    ensures SameElsewhere(i, m, m - {key}, size)
  {
    hide Index;
  }

  method FindBucket(head: Node?, key: uint64,
                    ghost c: seq<Node>, ghost content: map<uint64, nat>, ghost i: nat, ghost size: nat)
    returns (previous: Node?, node: Node?, ghost p: nat)
    requires size > 0 && Bucket(head, c, i, size) && Holds(c, content)
    ensures node == null <==> !HasKey(c, key)
    ensures node != null ==> p < |c| && node == c[p] && node.key == key && previous == if p == 0 then null else c[p - 1]
    ensures node != null ==> key in content && node.value == content[key]
  {
    hide Index, Sorted;
    previous, node, p := FindBoth(head, key, c);
  }

  /** Takes a node out of a bucket. */
  method LeaveBucket(head: Node?, previous: Node?, node: Node, ghost c: seq<Node>, ghost content: map<uint64, nat>,
                     ghost p: nat, ghost i: nat, ghost size: nat)
    returns (first: Node?)
    requires size > 0 && Bucket(head, c, i, size) && Holds(c, content)
    requires p < |c| && node == c[p] && previous == if p == 0 then null else c[p - 1]
    modifies c`next
    ensures var d := Without(c, p);
            && Bucket(first, d, i, size) && Holds(d, content - {node.key}) && |d| == |c| - 1
            && (first == null <==> d == []) && (forall j | 0 <= j < |d| :: d[j] in c && d[j] != node)
            && forall k: uint64 :: HasKey(d, k) <==> old(HasKey(c, k)) && k != node.key
  {
    hide Index, Sorted, Holds, HasKey, Without;
    first := Unlink(head, previous, node, c, p);
    StillSorted(c);
    WithoutEntries(c, p, content);
    BucketLeft(first, c, p, i, size);
  }

  lemma BucketLeft(first: Node?, c: seq<Node>, p: nat, i: nat, size: nat)
    requires size > 0 && p < |c| && forall j | 0 <= j < |c| :: Index(c[j].key, size) == i
    requires Linked(first, Without(c, p)) && Sorted(Without(c, p))
    ensures Bucket(first, Without(c, p), i, size)
  {
    hide Index, Linked, Sorted;
  }

  lemma MapGrows(m: map<uint64, nat>, key: uint64, value: nat)
    ensures |m[key := value]| == |m| + if key in m then 0 else 1
  {
    assert m[key := value].Keys == m.Keys + {key};
  }

  /** Puts an entry into a bucket. */
  method EnterBucket(head: Node?, key: uint64, value: nat, item: Node,
                     ghost c: seq<Node>, ghost content: map<uint64, nat>, ghost i: nat, ghost size: nat)
    returns (first: Node, dup: bool, ghost c': seq<Node>)
    requires size > 0 && Bucket(head, c, i, size) && Holds(c, content) && item !in c && Index(key, size) == i
    modifies c`next, c`value, item
    ensures Bucket(first, c', i, size) && Holds(c', content[key := value])
    ensures forall k: uint64 :: HasKey(c', k) <==> old(HasKey(c, k)) || k == key
    ensures dup == old(HasKey(c, key)) && |c'| == |c| + (if dup then 0 else 1) && c' != []
    ensures forall j | 0 <= j < |c'| :: c'[j] == item || c'[j] in c
  {
    hide HasKey, Holds, Sorted, Spliced, Index;
    NoKeys(c);
    item.next, item.value, item.key := null, value, key;
    c' := [item];
    dup := false;
    first := item;
    if head == null {
      SingleEntry(item, content);
    } else {
      first, dup, c' := Insert(head, item, c, content);
    }
    BucketEntered(first, c, c', item, i, size);
  }

  /** A bucket of one node. */
  lemma SingleEntry(item: Node, content: map<uint64, nat>)
    requires item.next == null
    ensures Linked(item, [item]) && Sorted([item]) && Holds([item], content[item.key := item.value])
    ensures forall k: uint64 :: HasKey([item], k) <==> k == item.key
  {
    assert [item][0].key == item.key;
  }

  lemma NoKeys(c: seq<Node>)
    ensures c == [] ==> forall k: uint64 :: !HasKey(c, k)
  {
  }

  lemma BucketEntered(first: Node, c: seq<Node>, c': seq<Node>, item: Node, i: nat, size: nat)
    requires size > 0 && Index(item.key, size) == i && forall j | 0 <= j < |c| :: Index(c[j].key, size) == i
    requires Linked(first, c') && Sorted(c')
    requires c' == c || c' == [item] || exists p :: 0 <= p <= |c| && c' == Spliced(c, item, p)
    ensures Bucket(first, c', i, size)
  {
    hide Index;
  }

  lemma OneKeyMore(i: nat, m: map<uint64, nat>, key: uint64, value: nat, size: nat)
    requires size > 0 && Index(key, size) == i
    ensures SameElsewhere(i, m, m[key := value], size)
  {
    hide Index;
  }

  /** All buckets but the i-th, whose nodes are in `s`. */
  ghost predicate Others(i: nat, s: set<Node>, heads: seq<Node?>, chains: seq<seq<Node>>,
                         content: map<uint64, nat>, size: nat)
    reads s
  {
    && size > 0 && |heads| == |chains| == size
    && (forall k, j | 0 <= k < size && k != i && 0 <= j < |chains[k]| :: chains[k][j] in s)
    && (forall k | 0 <= k < size && k != i :: Bucket(heads[k], chains[k], k, size) && Holds(chains[k], content))
    && forall key | key in content && Index(key, size) != i :: HasKey(chains[Index(key, size)], key)
  }

  /** Two maps that agree on the keys of all buckets but the i-th. */
  ghost predicate SameElsewhere(i: nat, m: map<uint64, nat>, m': map<uint64, nat>, size: nat)
    requires size > 0
  {
    forall key: uint64 | Index(key, size) != i :: if key in m' then key in m && m'[key] == m[key] else key !in m
  }

  lemma {:induction false} TotalUpdate(chains: seq<seq<Node>>, i: nat, c: seq<Node>)
    requires i < |chains|
    ensures Total(chains[i := c]) == Total(chains) - |chains[i]| + |c|
    ensures Used(chains[i := c]) == Used(chains) - (if chains[i] == [] then 0 else 1) + (if c == [] then 0 else 1)
  {
    if i == 0 {
      assert chains[0 := c][1..] == chains[1..];
    } else {
      assert chains[i := c][1..] == chains[1..][i - 1 := c];
      TotalUpdate(chains[1..], i - 1, c);
    }
  }

  /** Nodes of different buckets are different. */
  lemma BucketsApart(h: Node?, c: seq<Node>, i: nat, h': Node?, c': seq<Node>, i': nat, size: nat)
    requires size > 0 && i != i' && Bucket(h, c, i, size) && Bucket(h', c', i', size)
    ensures forall j | 0 <= j < |c| :: c[j] !in c'
  {
    hide Index, Linked, Sorted;
    forall j, j' | 0 <= j < |c| && 0 <= j' < |c'| ensures c[j] != c'[j'] {
      assert Index(c[j].key, size) == i && Index(c'[j'].key, size) == i';
    }
  }

  /** A map that differs only in keys of other buckets. */
  lemma HoldsSame(c: seq<Node>, k: nat, i: nat, head: Node?, size: nat, m: map<uint64, nat>, m': map<uint64, nat>)
    requires size > 0 && i != k && Bucket(head, c, k, size) && Holds(c, m)
    requires SameElsewhere(i, m, m', size)
    ensures Holds(c, m')
  {
    hide Index, Linked, Sorted;
    forall j | 0 <= j < |c| ensures c[j].key in m' && m'[c[j].key] == c[j].value {
      assert Index(c[j].key, size) == k;
    }
  }

  // Histories ---------------------------------------------------------------------------------------

  datatype Op = Put(key: uint64, value: nat) | Get(key: uint64) | Contains(key: uint64) | Remove(key: uint64)

  datatype Answer = Done | Value(value: nat) | Found(found: bool)

  /** What an operation answers on a finite map. */
  function Answered(m: map<uint64, nat>, op: Op): Answer {
    match op
    case Put(_, _) => Done
    case Get(key) => Value(if key in m then m[key] else NULL)
    case Contains(key) => Found(key in m)
    case Remove(key) => Value(if key in m then m[key] else NULL)
  }

  /** What it makes of the map. */
  function After(m: map<uint64, nat>, op: Op): map<uint64, nat> {
    match op
    case Put(key, value) => m[key := value]
    case Remove(key) => m - {key}
    case _ => m
  }

  function AfterAll(m: map<uint64, nat>, ops: seq<Op>): map<uint64, nat> {
    if ops == [] then m else After(AfterAll(m, ops[..|ops| - 1]), ops[|ops| - 1])
  }

  method Apply(table: Table, op: Op) returns (answer: Answer)
    requires table.Valid() && table.Balanced()
    modifies table, table.table, table.nodes
    ensures table.Valid() && table.Balanced()
    ensures table.content == After(old(table.content), op) && answer == Answered(old(table.content), op)
    ensures fresh(table.nodes - old(table.nodes)) && (table.table == old(table.table) || fresh(table.table))
    ensures old(table.Thrifty()) && !op.Remove? ==> table.Thrifty()
  {
    hide Table.Valid, Table.Thrifty, Table.Balanced;
    match op {
      case Put(key, value) =>
        table.Put(key, value);
        answer := Done;
      case Get(key) =>
        var value := table.Get(key);
        answer := Value(value);
      case Contains(key) =>
        var found := table.ContainsKey(key);
        answer := Found(found);
      case Remove(key) =>
        var value := table.Remove(key);
        answer := Value(value);
    }
  }

  lemma AfterNone(m: map<uint64, nat>, ops: seq<Op>)
    ensures AfterAll(m, ops[..0]) == m
  {
  }

  lemma AfterOneMore(m: map<uint64, nat>, ops: seq<Op>, i: nat)
    requires i < |ops|
    ensures AfterAll(m, ops[..i + 1]) == After(AfterAll(m, ops[..i]), ops[i])
  {
    assert ops[..i + 1][..i] == ops[..i];
  }

  /**
   * Any history of operations on a new table answers like a finite map. If nothing was removed, all its
   * doublings together have moved at most three nodes for every key.
   */
  method Replay(ops: seq<Op>) returns (table: Table, answers: seq<Answer>)
    ensures |answers| == |ops| && forall i | 0 <= i < |ops| :: answers[i] == Answered(AfterAll(map[], ops[..i]), ops[i])
    ensures fresh(table) && table.Valid() && table.Balanced() && table.content == AfterAll(map[], ops)
    ensures (forall op | op in ops :: !op.Remove?) ==> table.moves <= 3 * |table.content|
  {
    hide Table.Valid, Table.Thrifty, Table.Balanced, After, AfterAll, Answered;
    table := New();
    answers := [];
    var i := 0;
    AfterNone(map[], ops);
    while i < |ops|
      invariant i <= |ops| && |answers| == i
      invariant fresh(table) && fresh(table.table) && fresh(table.nodes)
      invariant table.Valid() && table.Balanced() && table.content == AfterAll(map[], ops[..i])
      invariant forall k | 0 <= k < i :: answers[k] == Answered(AfterAll(map[], ops[..k]), ops[k])
      invariant (forall op | op in ops :: !op.Remove?) ==> table.Thrifty()
    {
      AfterOneMore(map[], ops, i);
      var answer := Apply(table, ops[i]);
      answers := answers + [answer];
      i := i + 1;
    }
    assert ops[..i] == ops;
    if forall op | op in ops :: !op.Remove? {
      table.AmortisedCost();
    }
  }

  /** The table as initialised. */
  method New() returns (table: Table)
    ensures fresh(table) && fresh(table.table) && table.nodes == {} && table.size == INITIAL_SIZE && table.moves == 0
    ensures table.Valid() && table.Balanced() && table.Thrifty() && table.content == map[]
  {
    table := new Table();
  }

  /** The keys are multiples of 16 less than `16 * n`. */
  ghost predicate InBucketZero(m: map<uint64, nat>, n: nat) {
    forall k | k in m :: k < 16 * n && k % 16 == 0
  }

  lemma NoneInBucketZero()
    ensures InBucketZero(map[], 0)
  {
  }

  lemma NextInBucketZero(m: map<uint64, nat>, n: nat, value: nat)
    requires InBucketZero(m, n) && n < 11
    ensures 16 * n !in m && InBucketZero(m[16 * n := value], n + 1)
  {
  }

  /** Eleven keys that all belong to bucket 0. The tenth of them doubles the table. */
  method ElevenKeys() returns (table: Table)
    ensures fresh(table) && fresh(table.table) && fresh(table.nodes) && table.Valid() && table.Balanced()
    ensures |table.content| == 11 && 0 in table.content && InBucketZero(table.content, 11)
    ensures table.size == 16 && table.moves == 10
  {
    hide Table.Valid, Table.Thrifty, Table.Balanced, InBucketZero;
    table := New();
    NoneInBucketZero();
    var i := 0;
    while i < 11
      invariant i <= 11 && fresh(table) && fresh(table.table) && fresh(table.nodes)
      invariant table.Valid() && table.Balanced() && |table.content| == i && InBucketZero(table.content, i)
      invariant i > 0 ==> 0 in table.content
      invariant if i < 10 then table.size == 8 && table.moves == 0 else table.size == 16 && table.moves == 10
    {
      NextInBucketZero(table.content, i, i + 1);
      MapGrows(table.content, 16 * i, i + 1);
      table.Put(16 * i, i + 1);
      i := i + 1;
    }
  }

  /**
   * A halving that is undone: when one of the eleven keys is removed the table is halved, and inserting the
   * ten that are left doubles it again, so that each of them is moved twice.
   */
  method HalvedAndDoubled() returns (table: Table)
    ensures fresh(table) && table.Valid() && table.Balanced() && |table.content| == 10
    ensures table.size == 16 && table.moves == 10 + 2 * |table.content|
  {
    hide Table.Valid, Table.Balanced, Indices;
    table := ElevenKeys();
    MapShrinks(table.content, 0);
    OneBucket(table.content - {0});
    var value := table.Remove(0);
  }

  lemma OneBucket(m: map<uint64, nat>)
    requires InBucketZero(m, 11)
    ensures |Indices(m, 16)| <= 1
  {
    assert Indices(m, 16) <= {0};
    SubsetSize(Indices(m, 16), {0});
  }

  lemma SubsetSize(s: set<nat>, t: set<nat>)
    requires s <= t
    ensures |s| <= |t|
  {
    assert t == s + (t - s);
  }
}
