/**
 * The cache of src/core/cache.cpp as it is built: a doubly linked list between two sentinels, a map from
 * resource to node, and a byte count. Every method is proved to do to the linked structure what `Lru` does to
 * the list of entries. Each method is taken to run alone.
 */
module LruCache {
  import opened Lru

  const SIZE_MODULUS := 0x1_0000_0000_0000_0000

  /** size_t arithmetic wraps around. */
  function Minus(a: nat, b: nat): nat {
    (a - b) % SIZE_MODULUS
  }

  function Plus(a: nat, b: nat): nat {
    (a + b) % SIZE_MODULUS
  }

  lemma NoWrap(a: nat, b: nat)
    ensures b <= a < SIZE_MODULUS ==> Minus(a, b) == a - b
    ensures a + b < SIZE_MODULUS ==> Plus(a, b) == a + b
  {
  }

  class CacheNode {
    const identifier: string
    const data: string
    var lastAccess: nat
    var prev: CacheNode?
    var next: CacheNode?

    constructor (identifier: string, data: string, now: nat)
      ensures this.identifier == identifier && this.data == data && lastAccess == now
    {
      this.identifier, this.data, this.lastAccess := identifier, data, now;
      prev, next := null, null;
    }
  }

  // ---- what a list of nodes makes of the map, the entries and the time stamps ----

  ghost function IndexOf(ns: seq<CacheNode>): map<string, CacheNode> {
    if ns == [] then map[]
    else var n := ns[|ns| - 1]; IndexOf(ns[..|ns| - 1])[n.identifier := n]
  }

  ghost function EntryOf(n: CacheNode): Entry {
    Entry(n.identifier, n.data)
  }

  ghost function EntriesOf(ns: seq<CacheNode>): seq<Entry> {
    if ns == [] then [] else EntriesOf(ns[..|ns| - 1]) + [EntryOf(ns[|ns| - 1])]
  }

  /** Time stamps do not decrease toward the tail, and none is later than `clock`. */
  ghost predicate Sorted(stamps: seq<nat>, clock: nat) {
    stamps == [] || (stamps[|stamps| - 1] <= clock && Sorted(stamps[..|stamps| - 1], stamps[|stamps| - 1]))
  }

  /** `s` without its element at `k`. */
  function Drop<T>(s: seq<T>, k: nat): seq<T>
    requires k < |s|
  {
    s[..k] + s[k + 1..]
  }

  lemma {:induction false} EntriesAt(ns: seq<CacheNode>, k: nat)
    requires k < |ns|
    ensures |EntriesOf(ns)| == |ns| && EntriesOf(ns)[k] == EntryOf(ns[k])
  {
    var m := |ns| - 1;
    EntriesLength(ns[..m]);
    if k < m {
      EntriesAt(ns[..m], k);
    }
  }

  lemma {:induction false} EntriesLength(ns: seq<CacheNode>)
    ensures |EntriesOf(ns)| == |ns|
  {
    if ns != [] {
      EntriesLength(ns[..|ns| - 1]);
    }
  }

  lemma {:induction false} EntriesCut(ns: seq<CacheNode>, k: nat)
    requires k < |ns|
    ensures |EntriesOf(ns)| == |ns| && EntriesOf(Drop(ns, k)) == Drop(EntriesOf(ns), k)
  {
    var m := |ns| - 1;
    EntriesLength(ns[..m]);
    if k == m {
      assert Drop(ns, k) == ns[..m];
    } else {
      EntriesCut(ns[..m], k);
      assert Drop(ns, k) == Drop(ns[..m], k) + [ns[m]];
      AppendNode(Drop(ns[..m], k), ns[m]);
    }
  }

  lemma AppendNode(ns: seq<CacheNode>, n: CacheNode)
    ensures EntriesOf(ns + [n]) == EntriesOf(ns) + [EntryOf(n)]
    ensures IndexOf(ns + [n]) == IndexOf(ns)[n.identifier := n]
  {
    assert (ns + [n])[..|ns|] == ns;
  }

  lemma {:induction false} IndexKeys(ns: seq<CacheNode>, key: string)
    ensures key in IndexOf(ns) <==> Has(EntriesOf(ns), key)
  {
    if ns != [] {
      var m, n := ns[..|ns| - 1], ns[|ns| - 1];
      IndexKeys(m, key);
      if Has(EntriesOf(m), key) {
        HasEither(EntriesOf(m), [EntryOf(n)], key);
      } else {
        LookupSkips(EntriesOf(m), [EntryOf(n)], key);
      }
    }
  }

  lemma IndexEmpty(ns: seq<CacheNode>)
    ensures IndexOf(ns) == map[] <==> EntriesOf(ns) == []
  {
    if ns != [] {
      assert ns[|ns| - 1].identifier in IndexOf(ns);
    }
  }

  lemma DistinctInit(ns: seq<CacheNode>)
    requires DistinctKeys(EntriesOf(ns)) && ns != []
    ensures var m := |ns| - 1; DistinctKeys(EntriesOf(ns[..m])) && ns[m].identifier !in IndexOf(ns[..m])
  {
    var m := |ns| - 1;
    IndexKeys(ns[..m], ns[m].identifier);
    DistinctAppend(EntriesOf(ns[..m]), EntryOf(ns[m]));
  }

  lemma {:induction false} IndexAt(ns: seq<CacheNode>, k: nat)
    requires DistinctKeys(EntriesOf(ns)) && k < |ns|
    ensures ns[k].identifier in IndexOf(ns) && IndexOf(ns)[ns[k].identifier] == ns[k]
  {
    var m := |ns| - 1;
    if k < m {
      DistinctInit(ns);
      IndexAt(ns[..m], k);
    }
  }

  /** Taking a node out of the list takes its key out of the map. */
  lemma {:induction false} IndexCut(ns: seq<CacheNode>, k: nat)
    requires DistinctKeys(EntriesOf(ns)) && k < |ns|
    ensures IndexOf(Drop(ns, k)) == IndexOf(ns) - {ns[k].identifier}
  {
    var m := |ns| - 1;
    DistinctInit(ns);
    if k == m {
      assert Drop(ns, k) == ns[..m];
    } else {
      IndexAt(ns[..m], k);
      IndexCut(ns[..m], k);
      assert Drop(ns, k) == Drop(ns[..m], k) + [ns[m]];
      AppendNode(Drop(ns[..m], k), ns[m]);
    }
  }

  lemma {:induction false} SortedCut(stamps: seq<nat>, clock: nat, k: nat)
    requires Sorted(stamps, clock) && k < |stamps|
    ensures Sorted(Drop(stamps, k), clock)
  {
    var m := |stamps| - 1;
    if k == m {
      assert Drop(stamps, k) == stamps[..m];
      SortedLater(stamps[..m], stamps[m], clock);
    } else {
      SortedCut(stamps[..m], stamps[m], k);
      assert Drop(stamps, k)[..m - 1] == Drop(stamps[..m], k);
    }
  }

  lemma SortedLater(stamps: seq<nat>, clock: nat, later: nat)
    requires Sorted(stamps, clock) && clock <= later
    ensures Sorted(stamps, later)
  {
  }

  lemma SortedMeans(stamps: seq<nat>, clock: nat, i: nat, j: nat)
    requires Sorted(stamps, clock) && i <= j < |stamps|
    ensures stamps[i] <= stamps[j] <= clock
    decreases |stamps|
  {
    var m := |stamps| - 1;
    if j < m {
      SortedMeans(stamps[..m], stamps[m], i, j);
    } else if i < m {
      SortedMeans(stamps[..m], stamps[m], i, m - 1);
    }
  }

  // ---- the cache itself ----

  ghost function Between(chain: seq<CacheNode>): seq<CacheNode>
    requires 2 <= |chain|
  {
    chain[1..|chain| - 1]
  }

  /** Everything that hangs on the list of nodes, told by that list. */
  ghost predicate Kept(inner: seq<CacheNode>, m: map<string, CacheNode>, es: seq<Entry>, stamps: seq<nat>, clock: nat) {
    m == IndexOf(inner) && es == EntriesOf(inner) && DistinctKeys(es) && Sorted(stamps, clock)
  }

  lemma KeptCut(inner: seq<CacheNode>, m: map<string, CacheNode>, es: seq<Entry>, stamps: seq<nat>, clock: nat, k: nat)
    requires Kept(inner, m, es, stamps, clock) && |stamps| == |inner| && k < |inner|
    ensures |es| == |inner|
    ensures Kept(Drop(inner, k), m - {inner[k].identifier}, Drop(es, k), Drop(stamps, k), clock)
    ensures es[k] == EntryOf(inner[k])
    ensures inner[k].identifier in m && m[inner[k].identifier] == inner[k]
  {
    EntriesCut(inner, k);
    IndexCut(inner, k);
    SortedCut(stamps, clock, k);
    EntriesAt(inner, k);
    IndexAt(inner, k);
  }

  lemma KeptAppend(inner: seq<CacheNode>, m: map<string, CacheNode>, es: seq<Entry>, stamps: seq<nat>, clock: nat,
                   n: CacheNode, now: nat)
    requires Kept(inner, m, es, stamps, clock) && clock <= now && n.identifier !in m
    ensures Kept(inner + [n], m[n.identifier := n], es + [EntryOf(n)], stamps + [now], now)
  {
    AppendNode(inner, n);
    IndexKeys(inner, n.identifier);
    DistinctAppend(es, EntryOf(n));
    SortedLater(stamps, clock, now);
    assert (stamps + [now])[..|stamps|] == stamps;
  }

  /** Moving a node to the end moves its entry, and leaves the map as it was. */
  lemma KeptMove(inner: seq<CacheNode>, m: map<string, CacheNode>, es: seq<Entry>, stamps: seq<nat>, clock: nat,
                 k: nat, now: nat)
    requires Kept(inner, m, es, stamps, clock) && |stamps| == |inner| && k < |inner| && clock <= now
    ensures |es| == |inner|
    ensures Kept(Drop(inner, k) + [inner[k]], m, Drop(es, k) + [es[k]], Drop(stamps, k) + [now], now)
  {
    KeptCut(inner, m, es, stamps, clock, k);
    var n := inner[k];
    KeptAppend(Drop(inner, k), m - {n.identifier}, Drop(es, k), Drop(stamps, k), clock, n, now);
    assert (m - {n.identifier})[n.identifier := n] == m;
  }

  /** The node of a key that the map knows. */
  lemma NodeOf(inner: seq<CacheNode>, m: map<string, CacheNode>, es: seq<Entry>, stamps: seq<nat>, clock: nat, key: string)
    returns (k: nat)
    requires Kept(inner, m, es, stamps, clock) && key in m
    ensures k < |inner| == |es| && m[key] == inner[k] && es[k] == Entry(key, inner[k].data)
  {
    IndexKeys(inner, key);
    EntriesLength(inner);
    k := Locate(es, key);
    EntriesAt(inner, k);
    IndexAt(inner, k);
  }

  lemma BetweenCut(chain: seq<CacheNode>, k: nat)
    requires k + 2 < |chain|
    ensures Between(Drop(chain, k + 1)) == Drop(Between(chain), k)
  {
  }

  lemma BetweenAppend(chain: seq<CacheNode>, n: CacheNode, t: CacheNode)
    requires 2 <= |chain|
    ensures Between(chain[..|chain| - 1] + [n, t]) == Between(chain) + [n]
  {
  }

  lemma BetweenMove(chain: seq<CacheNode>, k: nat)
    requires k + 2 < |chain|
    ensures var rest := Drop(chain, k + 1);
            Between(rest[..|rest| - 1] + [chain[k + 1], chain[|chain| - 1]]) == Drop(Between(chain), k) + [Between(chain)[k]]
  {
    BetweenCut(chain, k);
    BetweenAppend(Drop(chain, k + 1), chain[k + 1], chain[|chain| - 1]);
  }

  class Cache {
    const capacity: nat
    var mapping: map<string, CacheNode>
    var occupancy: nat
    const header: CacheNode
    const tailer: CacheNode
    ghost var nodes: set<CacheNode>  // every node ever linked in
    ghost var chain: seq<CacheNode>  // the nodes from the header to the tailer
    ghost var entries: seq<Entry>    // what they hold, least recent first
    ghost var stamps: seq<nat>       // when each was last used
    ghost var clock: nat             // the latest time stamped so far

    /** The links run both ways along a chain of distinct nodes from sentinel to sentinel. */
    ghost predicate Shape()
      reads this`chain, this`stamps, this`nodes, nodes
    {
      && 2 <= |chain| && chain[0] == header && chain[|chain| - 1] == tailer
      && (forall i :: 0 <= i < |chain| ==> chain[i] in nodes)
      && (forall i, j :: 0 <= i < j < |chain| ==> chain[i] != chain[j])
      && (forall i :: 0 <= i < |chain| - 1 ==> chain[i].next == chain[i + 1])
      && (forall i :: 0 < i < |chain| ==> chain[i].prev == chain[i - 1])
      && |stamps| == |chain| - 2
      && (forall i :: 0 < i < |chain| - 1 ==> chain[i].lastAccess == stamps[i - 1])
    }

    ghost predicate Valid()
      reads this, nodes
    {
      && Shape() && Kept(Between(chain), mapping, entries, stamps, clock)
      && occupancy == Total(entries) <= capacity < SIZE_MODULUS
    }

    constructor (capacity: nat, now: nat)
      requires capacity < SIZE_MODULUS
      ensures Valid() && fresh(nodes) && entries == [] && this.capacity == capacity && clock == now
    {
      this.capacity := capacity;
      mapping, occupancy := map[], 0;
      var h := new CacheNode("", "", now);
      var t := new CacheNode("", "", now);
      h.next, t.prev := t, h;
      header, tailer := h, t;
      nodes, chain, entries, stamps, clock := {h, t}, [h, t], [], [], now;
    }

    /** Rewires the neighbours of a node to each other. */
    method RemoveFromList(node: CacheNode, ghost k: nat)
      requires Shape() && k < |stamps| && chain[k + 1] == node
      modifies this`chain, this`stamps, nodes
      ensures Shape() && chain == old(Drop(chain, k + 1)) && stamps == old(Drop(stamps, k))
    {
      var nodePrev := node.prev;
      var nodeNext := node.next;
      assert nodePrev == chain[k] && nodeNext == chain[k + 2];
      nodePrev.next := nodeNext;
      nodeNext.prev := nodePrev;
      chain := Drop(chain, k + 1);
      stamps := Drop(stamps, k);
    }

    /** Links a node in before the tailer. */
    method AppendToListTail(node: CacheNode)
      requires Shape() && node !in chain
      modifies this`chain, this`stamps, this`nodes, nodes, node
      ensures Shape() && chain == old(chain[..|chain| - 1]) + [node, tailer]
      ensures stamps == old(stamps) + [node.lastAccess] && node.lastAccess == old(node.lastAccess)
      ensures nodes == old(nodes) + {node}
    {
      var nodePrev := tailer.prev;
      assert nodePrev == chain[|chain| - 2];
      nodePrev.next := node;
      tailer.prev := node;
      node.prev := nodePrev;
      node.next := tailer;
      nodes := nodes + {node};
      chain := chain[..|chain| - 1] + [node, tailer];
      stamps := stamps + [node.lastAccess];
    }

    method UpdateTimestamp(node: CacheNode, now: nat)
      requires Shape() && stamps != [] && chain[|chain| - 2] == node
      modifies this`stamps, node`lastAccess
      ensures Shape() && stamps == old(stamps)[..|stamps| - 1] + [now]
    {
      node.lastAccess := now;
      stamps := stamps[..|stamps| - 1] + [now];
    }

    /** Unlinks the node at `k` and erases it from the map. */
    method Forget(node: CacheNode, ghost k: nat)
      requires Shape() && Kept(Between(chain), mapping, entries, stamps, clock)
      requires k < |stamps| && chain[k + 1] == node
      modifies this`chain, this`stamps, this`entries, this`mapping, nodes
      ensures Shape() && chain == old(Drop(chain, k + 1))
      ensures k < |old(entries)| && entries == Drop(old(entries), k)
      ensures Kept(Between(chain), mapping, entries, stamps, clock) && mapping == old(mapping) - {node.identifier}
    {
      KeptCut(Between(chain), mapping, entries, stamps, clock, k);
      BetweenCut(chain, k);
      RemoveFromList(node, k);
      mapping, entries := mapping - {node.identifier}, Drop(entries, k);
    }

    /** The first inner node is the one whose entry is least recent. */
    lemma FirstNode()
      requires Shape() && Kept(Between(chain), mapping, entries, stamps, clock) && entries != []
      ensures 2 < |chain| && header.next == chain[1] && EntryOf(chain[1]) == entries[0]
      ensures entries[0].key in mapping && mapping[entries[0].key] == chain[1]
    {
      EntriesLength(Between(chain));
      EntriesAt(Between(chain), 0);
      IndexAt(Between(chain), 0);
    }

    /** The least recently used entry goes. */
    method EvictOne()
      requires Valid() && entries != []
      modifies this`chain, this`stamps, this`entries, this`mapping, this`occupancy, nodes
      ensures Valid() && entries == old(entries)[1..]
      ensures mapping.Keys <= old(mapping.Keys)
    {
      FirstNode();
      var firstNode := header.next;
      var resourceSize := |firstNode.data|;
      NoWrap(occupancy, resourceSize);
      assert Drop(entries, 0) == entries[1..];
      Forget(mapping[firstNode.identifier], 0);
      occupancy := Minus(occupancy, resourceSize);
    }

    /** Relinks the node at `k` before the tailer. */
    method MoveToTail(node: CacheNode, now: nat, ghost k: nat)
      requires Shape() && k < |stamps| && chain[k + 1] == node
      modifies this`chain, this`stamps, this`nodes, nodes
      ensures Shape() && stamps == old(Drop(stamps, k)) + [now]
      ensures Between(chain) == old(Drop(Between(chain), k)) + [node] && nodes == old(nodes)
    {
      BetweenMove(chain, k);
      RemoveFromList(node, k);
      AppendToListTail(node);
      UpdateTimestamp(node, now);
    }

    lemma TotalKept(k: nat)
      requires k < |entries|
      ensures Total(Drop(entries, k) + [entries[k]]) == Total(entries)
    {
      TotalMoved(entries[..k], entries[k], entries[k + 1..]);
      assert entries == entries[..k] + ([entries[k]] + entries[k + 1..]);
    }

    /** The node at `k` becomes the most recent one. */
    method Touch(node: CacheNode, now: nat, ghost k: nat)
      requires Valid() && clock <= now && k < |Between(chain)| == |entries| && Between(chain)[k] == node
      modifies this`chain, this`stamps, this`nodes, this`entries, this`clock, nodes
      ensures Valid() && entries == old(Drop(entries, k) + [entries[k]]) && clock == now && nodes == old(nodes)
    {
      KeptMove(Between(chain), mapping, entries, stamps, clock, k, now);
      TotalKept(k);
      ghost var moved := Drop(entries, k) + [entries[k]];
      MoveToTail(node, now, k);
      assert Kept(Between(chain), mapping, moved, stamps, now);
      entries, clock := moved, now;
    }

    /** Appends the cached bytes to the destination and makes the entry the most recent one. */
    method TryLoad(resourceUrl: string, destination: string, now: nat) returns (found: bool, result: string)
      requires Valid() && clock <= now
      modifies this`chain, this`stamps, this`nodes, this`entries, this`clock, nodes
      ensures Valid() && entries == Loaded(old(entries), resourceUrl) && clock <= now && nodes == old(nodes)
      ensures found == Lookup(old(entries), resourceUrl).Some? && (!found ==> entries == old(entries))
      ensures result == destination + if found then Lookup(old(entries), resourceUrl).value else ""
    {
      if resourceUrl in mapping {
        var node := mapping[resourceUrl];
        ghost var k := NodeOf(Between(chain), mapping, entries, stamps, clock, resourceUrl);
        LoadedAt(entries, k);
        result := destination + node.data;
        Touch(node, now, k);
        return true, result;
      }
      IndexKeys(Between(chain), resourceUrl);
      return false, destination;
    }

    /** The eviction loop of TryInsert. */
    method MakeRoom(need: nat)
      requires Valid() && need <= capacity
      modifies this`chain, this`stamps, this`entries, this`mapping, this`occupancy, nodes
      ensures Valid() && entries == Evicted(old(entries), capacity, need) && Total(entries) + need <= capacity
      ensures mapping.Keys <= old(mapping.Keys)
    {
      IndexEmpty(Between(chain));
      NoWrap(capacity, occupancy);
      while mapping != map[] && Minus(capacity, occupancy) < need
        invariant Valid() && Evicted(entries, capacity, need) == Evicted(old(entries), capacity, need)
        invariant mapping == map[] <==> entries == []
        invariant Minus(capacity, occupancy) == capacity - occupancy
        invariant mapping.Keys <= old(mapping.Keys)
        decreases |entries|
      {
        EvictOne();
        IndexEmpty(Between(chain));
        NoWrap(capacity, occupancy);
      }
    }

    /** Links a new node in and enters it in the map. */
    method Enter(node: CacheNode)
      requires Shape() && Kept(Between(chain), mapping, entries, stamps, clock)
      requires node !in nodes && node.identifier !in mapping && clock <= node.lastAccess
      modifies this`chain, this`stamps, this`nodes, this`entries, this`mapping, this`clock, nodes, node
      ensures Shape() && Kept(Between(chain), mapping, entries, stamps, clock)
      ensures entries == old(entries) + [EntryOf(node)] && clock == old(node.lastAccess) && nodes == old(nodes) + {node}
    {
      KeptAppend(Between(chain), mapping, entries, stamps, clock, node, node.lastAccess);
      BetweenAppend(chain, node, tailer);
      AppendToListTail(node);
      mapping := mapping[node.identifier := node];
      entries, clock := entries + [EntryOf(node)], node.lastAccess;
    }

    /** A fresh node for the resource, linked in, with its bytes counted. */
    method Store(resourceUrl: string, source: string, now: nat)
      requires Valid() && clock <= now && resourceUrl !in mapping && Total(entries) + |source| <= capacity
      modifies this, nodes
      ensures Valid() && entries == old(entries) + [Entry(resourceUrl, source)] && clock == now
      ensures fresh(nodes - old(nodes))
    {
      var node := new CacheNode(resourceUrl, source, now);
      TotalAppend(entries, [EntryOf(node)]);
      NoWrap(occupancy, |source|);
      Enter(node);
      occupancy := Plus(occupancy, |source|);
    }

    /** Evicts as little as makes room, and stores; refuses what is there already or can never fit. */
    method TryInsert(resourceUrl: string, source: string, now: nat) returns (inserted: bool)
      requires Valid() && clock <= now
      modifies this, nodes
      ensures Valid() && entries == Inserted(old(entries), capacity, Entry(resourceUrl, source)) && clock <= now
      ensures inserted == (!Has(old(entries), resourceUrl) && |source| <= capacity) && (!inserted ==> entries == old(entries))
      ensures fresh(nodes - old(nodes))
    {
      IndexKeys(Between(chain), resourceUrl);
      if resourceUrl in mapping {
        return false;
      }
      if capacity < |source| {
        return false;
      }
      MakeRoom(|source|);
      Store(resourceUrl, source, now);
      return true;
    }

    method Clear()
      requires Valid()
      modifies this, nodes
      ensures Valid() && entries == [] && clock == old(clock) && nodes == old(nodes)
    {
      header.next := tailer;
      tailer.prev := header;
      mapping := map[];
      occupancy := 0;
      chain, entries, stamps := [header, tailer], [], [];
    }
  }
}
