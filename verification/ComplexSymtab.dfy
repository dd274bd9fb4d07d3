/** The hash table with four-part keys, meant for finding duplicate type rules and role transitions. */
module ComplexSymtab {
  import opened Subsequences
  import opened Common

  datatype Key = Key(key1: int, key2: int, key3: int, key4: int)

  // ---- Hashing

  /** Bitwise and with a non-negative mask; `x` is in two's complement, of any width. */
  function And(x: int, mask: nat): (r: nat)
    ensures r <= mask
    decreases mask
  {
    if mask == 0 then 0
    else (if x % 2 == 1 && mask % 2 == 1 then 1 else 0) + 2 * And(x / 2, mask / 2)
  }

  /** An arithmetic shift rounds down, as this division does. */
  function Hash(key: Key, mask: nat): (r: nat)
    ensures r <= mask
  {
    And((key.key1 + key.key2 + key.key3 + key.key4) / 4, mask)
  }

  // ---- The order inside a chain

  /** Both keys have the same first part, and the other parts are in lexicographic order. */
  predicate Precedes(a: Key, b: Key) {
    && a.key1 == b.key1
    && (|| a.key2 < b.key2
        || (a.key2 == b.key2 && a.key3 < b.key3)
        || (a.key2 == b.key2 && a.key3 == b.key3 && a.key4 < b.key4))
  }

  /** Keys with the same first part are strictly ordered, whatever stands between them. */
  predicate Grouped(keys: seq<Key>) {
    forall i, j :: 0 <= i < j < |keys| && keys[i].key1 == keys[j].key1 ==> Precedes(keys[i], keys[j])
  }

  /** The walk along a chain stops at `p`: at the key, at a key that comes after it, or at the end. */
  predicate StopsAt(keys: seq<Key>, key: Key, p: nat) {
    Passes(keys, key, p) && (p < |keys| ==> keys[p] == key || Precedes(key, keys[p]))
  }

  predicate Passes(keys: seq<Key>, key: Key, p: nat) {
    p <= |keys| && forall i :: 0 <= i < p ==> keys[i] != key && !Precedes(key, keys[i])
  }

  /** A walk that stops early misses nothing. */
  lemma StopFinds(keys: seq<Key>, key: Key, p: nat)
    requires Grouped(keys) && StopsAt(keys, key, p)
    ensures key in keys <==> p < |keys| && keys[p] == key
  {
    forall j | 0 <= j < |keys| && keys[j] == key ensures p < |keys| && keys[p] == key {
      assert p <= j;
    }
  }

  /** A key that goes where the walk stopped leaves the chain ordered. */
  lemma StopKeepsGrouped(keys: seq<Key>, key: Key, p: nat)
    requires Grouped(keys) && StopsAt(keys, key, p) && (p < |keys| ==> keys[p] != key)
    ensures Grouped(keys[..p] + [key] + keys[p..])
  {
    var next := keys[..p] + [key] + keys[p..];
    forall i, j | 0 <= i < j < |next| && next[i].key1 == next[j].key1 ensures Precedes(next[i], next[j]) {
      if j == p {
        assert next[i] == keys[i];
      } else if i == p {
        assert next[j] == keys[j - 1];
        assert p == j - 1 || (keys[p].key1 == keys[j - 1].key1 ==> Precedes(keys[p], keys[j - 1]));
      } else {
        var i', j' := if i < p then i else i - 1, if j < p then j else j - 1;
        assert next[i] == keys[i'] && next[j] == keys[j'];
      }
    }
  }

  // ---- The table

  class Node<Datum> {
    const key: Key
    const datum: Datum
    var next: Node?<Datum>

    constructor (key: Key, datum: Datum)
      ensures this.key == key && this.datum == datum && next == null
    {
      this.key := key;
      this.datum := datum;
      next := null;
    }
  }

  type Chain<Datum> = seq<Node<Datum>>

  ghost function Keys<Datum>(chain: Chain<Datum>): (keys: seq<Key>)
    ensures |keys| == |chain|
  {
    seq(|chain|, i requires 0 <= i < |chain| => chain[i].key)
  }

  ghost function At<Datum>(chain: Chain<Datum>, i: nat): Node?<Datum> {
    if i < |chain| then chain[i] else null
  }

  /** Every node points to the one after it. */
  ghost predicate Linked<Datum>(chain: Chain<Datum>)
    reads chain
  {
    forall i :: 0 <= i < |chain| ==> chain[i].next == At(chain, i + 1)
  }

  lemma GroupedIsDistinct<Datum>(chain: Chain<Datum>)
    requires Grouped(Keys(chain))
    ensures NoDuplicates(chain)
  {
    forall i, j | 0 <= i < j < |chain| ensures chain[i] != chain[j] {
      assert Keys(chain)[i].key1 != Keys(chain)[j].key1 || Precedes(Keys(chain)[i], Keys(chain)[j]);
    }
  }

  /** Walks along a chain until the key, a key that comes after it, or the end. */
  method Walk<Datum>(head: Node?<Datum>, key: Key, ghost chain: Chain<Datum>)
      returns (prev: Node?<Datum>, curr: Node?<Datum>, ghost p: nat)
    requires head == At(chain, 0) && Linked(chain) && Grouped(Keys(chain))
    ensures curr != null && curr.key == key <==> key in Keys(chain)
    ensures StopsAt(Keys(chain), key, p)
    ensures curr == At(chain, p) && prev == if p == 0 then null else At(chain, p - 1)
  {
    prev, curr, p := null, head, 0;
    while curr != null
      invariant p <= |chain| && curr == At(chain, p) && prev == if p == 0 then null else At(chain, p - 1)
      invariant Passes(Keys(chain), key, p)
      decreases |chain| - p
    {
      if curr.key == key || Precedes(key, curr.key) {
        StopFinds(Keys(chain), key, p);
        return;
      }
      prev, curr, p := curr, curr.next, p + 1;
    }
    StopFinds(Keys(chain), key, p);
  }

  /** Puts a node into a chain, at place `p`. */
  method Relink<Datum>(htable: array<Node?<Datum>>, hash: nat, node: Node<Datum>, prev: Node?<Datum>,
                       ghost chain: Chain<Datum>, ghost p: nat)
    requires hash < htable.Length && p <= |chain| && prev == (if p == 0 then null else chain[p - 1])
    requires htable[hash] == At(chain, 0) && Linked(chain) && NoDuplicates(chain) && node !in chain
    modifies htable, node, if prev == null then {} else {prev}
    ensures htable[hash] == At(chain[..p] + [node] + chain[p..], 0) && Linked(chain[..p] + [node] + chain[p..])
    ensures forall h :: 0 <= h < htable.Length && h != hash ==> htable[h] == old(htable[h])
  {
    if prev != null {
      node.next := prev.next;
      prev.next := node;
    } else {
      node.next := htable[hash];
      htable[hash] := node;
    }
  }

  /** The chain is ordered and contains only keys with the hash of its slot. */
  ghost predicate Placed<Datum>(chain: Chain<Datum>, h: nat, mask: nat) {
    Grouped(Keys(chain)) && forall i :: 0 <= i < |chain| ==> Hash(chain[i].key, mask) == h
  }

  /** The chains contain exactly the entries of the map. */
  ghost predicate Stands<Datum>(chains: seq<Chain<Datum>>, mask: nat, contents: map<Key, Datum>)
    requires |chains| == mask + 1
  {
    && (forall h, i :: 0 <= h < |chains| && 0 <= i < |chains[h]| ==>
          chains[h][i].key in contents && contents[chains[h][i].key] == chains[h][i].datum)
    && (forall key :: key in contents ==> key in Keys(chains[Hash(key, mask)]))
  }

  lemma PlacedAfter<Datum>(chain: Chain<Datum>, h: nat, mask: nat, p: nat, node: Node<Datum>)
    requires Placed(chain, h, mask) && Hash(node.key, mask) == h
    requires StopsAt(Keys(chain), node.key, p) && (p < |chain| ==> chain[p].key != node.key)
    ensures Placed(chain[..p] + [node] + chain[p..], h, mask)
  {
    hide Hash, Precedes;
    var keys := Keys(chain);
    StopKeepsGrouped(keys, node.key, p);
    assert Keys(chain[..p] + [node] + chain[p..]) == keys[..p] + [node.key] + keys[p..];
  }

  lemma StandsAfter<Datum>(chains: seq<Chain<Datum>>, mask: nat, contents: map<Key, Datum>, p: nat, node: Node<Datum>)
    requires |chains| == mask + 1 && Stands(chains, mask, contents) && node.key !in contents
    requires p <= |chains[Hash(node.key, mask)]|
    ensures var h := Hash(node.key, mask);
            Stands(chains[h := chains[h][..p] + [node] + chains[h][p..]], mask, contents[node.key := node.datum])
  {
    hide Hash;
    var h := Hash(node.key, mask);
    var chain, next := chains[h], contents[node.key := node.datum];
    var longer := chain[..p] + [node] + chain[p..];
    assert Keys(longer) == Keys(chain)[..p] + [node.key] + Keys(chain)[p..];
    forall i | 0 <= i < |longer| ensures longer[i].key in next && next[longer[i].key] == longer[i].datum {
      assert longer[i] == if i < p then chain[i] else if i == p then node else chain[i - 1];
    }
    forall key | key in next ensures key in Keys(chains[h := longer][Hash(key, mask)]) {
      if key == node.key {
        assert Keys(longer)[p] == key;
      } else {
        assert key in Keys(chains[Hash(key, mask)]);
        assert Hash(key, mask) == h ==> key in Keys(longer);
      }
    }
  }

  class ComplexSymtab<Datum> {
    const htable: array<Node?<Datum>>
    const mask: nat
    var nelems: nat

    /** The chains of all slots. */
    ghost var chains: seq<Chain<Datum>>
    /** What the table stands for. */
    ghost var contents: map<Key, Datum>

    ghost function Repr(): set<object>
      reads this
    {
      {this, htable} + Nodes()
    }

    ghost function Nodes(): set<Node<Datum>>
      reads this
    {
      set h, i | 0 <= h < |chains| && 0 <= i < |chains[h]| :: chains[h][i]
    }

    ghost predicate Valid()
      reads Repr()
    {
      && |chains| == htable.Length == mask + 1
      && (forall h :: 0 <= h < |chains| ==> htable[h] == At(chains[h], 0) && Linked(chains[h]))
      && (forall h :: 0 <= h < |chains| ==> Placed(chains[h], h, mask))
      && Stands(chains, mask, contents)
      && nelems == |contents|
    }

    constructor (size: nat)
      requires size > 0
      ensures Valid() && fresh(Repr()) && contents == map[] && mask + 1 == size
    {
      htable := new Node?<Datum>[size](_ => null);
      mask := size - 1;
      nelems := 0;
      chains := seq(size, _ => []);
      contents := map[];
    }

    /** What is known of the chain in which a key belongs. */
    lemma SlotOf(key: Key)
      requires Valid()
      ensures Hash(key, mask) < |chains| == htable.Length
      ensures var chain := chains[Hash(key, mask)];
              && htable[Hash(key, mask)] == At(chain, 0)
              && Linked(chain)
              && Grouped(Keys(chain))
              && (key in contents <==> key in Keys(chain))
              && (forall i :: 0 <= i < |chain| && chain[i].key == key ==> contents[key] == chain[i].datum)
    {
      assert Placed(chains[Hash(key, mask)], Hash(key, mask), mask);
    }

    /** Adds a key, unless it is there. */
    method Insert(key: Key, datum: Datum) returns (inserted: bool)
      requires Valid()
      modifies Repr()
      ensures Valid() && fresh(Repr() - old(Repr()))
      ensures inserted <==> key !in old(contents)
      ensures contents == if inserted then old(contents)[key := datum] else old(contents)
    {
      hide Stands, Placed, Hash, StopsAt, At, Linked;
      var found, prev, p := Locate(key);
      if found {
        return false;
      }
      Link(key, datum, prev, p);
      inserted := true;
    }

    /** Looks for a key, and for the node after which it belongs. */
    method Locate(key: Key) returns (found: bool, prev: Node?<Datum>, ghost p: nat)
      requires Valid()
      ensures found <==> key in contents
      ensures Hash(key, mask) < |chains|
      ensures var chain := chains[Hash(key, mask)];
              StopsAt(Keys(chain), key, p) && prev == if p == 0 then null else At(chain, p - 1)
    {
      SlotOf(key);
      hide Valid, StopsAt, Grouped, Linked, Hash, At;
      var hash := Hash(key, mask);
      var curr;
      prev, curr, p := Walk(htable[hash], key, chains[hash]);
      found := curr != null && curr.key == key;
    }

    /** Puts a new node after `prev`, or first if there is none. */
    method Link(key: Key, datum: Datum, prev: Node?<Datum>, ghost p: nat)
      requires Valid() && key !in contents && Hash(key, mask) < |chains|
      requires var chain := chains[Hash(key, mask)];
               StopsAt(Keys(chain), key, p) && prev == if p == 0 then null else At(chain, p - 1)
      modifies Repr()
      ensures Valid() && fresh(Repr() - old(Repr()))
      ensures contents == old(contents)[key := datum]
    {
      hide Hash, Placed, Stands, StopsAt, Linked, At;
      var hash := Hash(key, mask);
      var node := new Node(key, datum);
      Ready(node, prev, p);
      ghost var next := chains[hash := chains[hash][..p] + [node] + chains[hash][p..]];
      RelinkSlot(hash, node, prev, p);
      nelems := nelems + 1;
      chains := next;
      contents := contents[key := datum];
      assert fresh(Repr() - old(Repr())) by {
        NodesAfter(old(chains), hash, p, node);
      }
    }

    /** What relinking a chain needs, and what then holds of the chains. */
    lemma Ready(node: Node<Datum>, prev: Node?<Datum>, p: nat)
      requires Valid() && node.key !in contents && node !in Nodes() && Hash(node.key, mask) < |chains|
      requires var chain := chains[Hash(node.key, mask)];
               StopsAt(Keys(chain), node.key, p) && prev == if p == 0 then null else At(chain, p - 1)
      ensures var hash := Hash(node.key, mask);
              var chain := chains[hash];
              && p <= |chain|
              && NoDuplicates(chain)
              && (prev != null ==> prev in Nodes())
              && (forall h :: 0 <= h < |chains| ==> node !in chains[h] && (h != hash ==> prev !in chains[h]))
              && Placed(chain[..p] + [node] + chain[p..], hash, mask)
              && Stands(chains[hash := chain[..p] + [node] + chain[p..]], mask, contents[node.key := node.datum])
    {
      SlotOf(node.key);
      hide Hash, Precedes, Grouped;
      var hash := Hash(node.key, mask);
      var chain := chains[hash];
      GroupedIsDistinct(chain);
      OtherChains(hash, prev);
      assert p < |chain| ==> chain[p].key in contents;
      PlacedAfter(chain, hash, mask, p, node);
      StandsAfter(chains, mask, contents, p, node);
      assert forall h :: 0 <= h < |chains| ==> node !in chains[h];
    }

    /** Puts a node into the chain of a slot. The other chains stay as they are. */
    method RelinkSlot(hash: nat, node: Node<Datum>, prev: Node?<Datum>, ghost p: nat)
      requires |chains| == htable.Length && hash < |chains| && p <= |chains[hash]|
      requires forall h :: 0 <= h < |chains| ==> htable[h] == At(chains[h], 0) && Linked(chains[h])
      requires NoDuplicates(chains[hash]) && prev == if p == 0 then null else At(chains[hash], p - 1)
      requires forall h :: 0 <= h < |chains| ==> node !in chains[h] && (h != hash ==> prev !in chains[h])
      modifies htable, node, if prev == null then {} else {prev}
      ensures var next := chains[hash := chains[hash][..p] + [node] + chains[hash][p..]];
              forall h :: 0 <= h < |next| ==> htable[h] == At(next[h], 0) && Linked(next[h])
    {
      ghost var next := chains[hash := chains[hash][..p] + [node] + chains[hash][p..]];
      Relink(htable, hash, node, prev, chains[hash], p);
      forall h | 0 <= h < |next| ensures htable[h] == At(next[h], 0) && Linked(next[h]) {
        if h != hash {
          assert old(Linked(chains[h]));
        }
      }
    }

    lemma NodesAfter(was: seq<Chain<Datum>>, hash: nat, p: nat, node: Node<Datum>)
      requires hash < |was| && p <= |was[hash]|
      requires chains == was[hash := was[hash][..p] + [node] + was[hash][p..]]
      ensures forall n :: n in Nodes() ==>
          n == node || exists h, i :: 0 <= h < |was| && 0 <= i < |was[h]| && was[h][i] == n
    {
      forall h, i | 0 <= h < |chains| && 0 <= i < |chains[h]|
        ensures chains[h][i] == node ||
            exists h', i' :: 0 <= h' < |was| && 0 <= i' < |was[h']| && was[h'][i'] == chains[h][i]
      {
        if h == hash && i != p {
          var i' := if i < p then i else i - 1;
          assert was[h][i'] == chains[h][i];
        } else if h != hash {
          assert was[h][i] == chains[h][i];
        }
      }
    }

    /** A node is in the chain of its own slot only. */
    lemma OtherChains(hash: nat, node: Node?<Datum>)
      requires Valid() && hash < |chains| && (node == null || node in chains[hash])
      ensures forall h :: 0 <= h < |chains| && h != hash ==> node !in chains[h]
    {
      hide Hash, Stands;
      assert Placed(chains[hash], hash, mask);
      forall h | 0 <= h < |chains| && h != hash ensures node !in chains[h] {
        assert Placed(chains[h], h, mask);
      }
    }

    /** The datum of a key. */
    method Search(key: Key) returns (out: Option<Datum>)
      requires Valid()
      ensures out == if key in contents then Some(contents[key]) else None
    {
      SlotOf(key);
      hide Valid, StopsAt, Grouped, Linked, Hash;
      var hash := Hash(key, mask);
      ghost var chain := chains[hash];
      var _, curr, p := Walk(htable[hash], key, chain);
      if curr != null && curr.key == key {
        return Some(curr.datum);
      }
      return None;
    }
  }
}
