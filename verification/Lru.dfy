/**
 * What the cache of src/core/cache.cpp means: a list of entries from least to most recently used, with a
 * byte budget. `LruCache` refines it; here are the laws over whole runs of accesses.
 */
module Lru {
  import opened Prelude

  datatype Entry = Entry(key: string, data: string)

  function Total(es: seq<Entry>): nat {
    if es == [] then 0 else |es[0].data| + Total(es[1..])
  }

  predicate DistinctKeys(es: seq<Entry>) {
    forall i, j :: 0 <= i < j < |es| ==> es[i].key != es[j].key
  }

  function Without(es: seq<Entry>, key: string): seq<Entry> {
    if es == [] then [] else (if es[0].key == key then [] else [es[0]]) + Without(es[1..], key)
  }

  function Lookup(es: seq<Entry>, key: string): Option<string> {
    if es == [] then None else if es[0].key == key then Some(es[0].data) else Lookup(es[1..], key)
  }

  predicate Has(es: seq<Entry>, key: string) {
    Lookup(es, key).Some?
  }

  /** A load moves the entry to the most recent end. */
  function Loaded(es: seq<Entry>, key: string): seq<Entry> {
    match Lookup(es, key) case None => es case Some(data) => Without(es, key) + [Entry(key, data)]
  }

  /** Least recent entries dropped, one at a time, until `need` more bytes fit. */
  function Evicted(es: seq<Entry>, capacity: nat, need: nat): seq<Entry> {
    if es == [] || Total(es) + need <= capacity then es else Evicted(es[1..], capacity, need)
  }

  function Inserted(es: seq<Entry>, capacity: nat, e: Entry): seq<Entry> {
    if Has(es, e.key) || capacity < |e.data| then es else Evicted(es, capacity, |e.data|) + [e]
  }

  /** What the server does with a resource: load it, or else insert what the file holds. */
  function Accessed(es: seq<Entry>, capacity: nat, content: string -> string, key: string): seq<Entry> {
    if Has(es, key) then Loaded(es, key) else Inserted(es, capacity, Entry(key, content(key)))
  }

  function Run(keys: seq<string>, capacity: nat, content: string -> string): seq<Entry> {
    if keys == [] then []
    else Accessed(Run(keys[..|keys| - 1], capacity, content), capacity, content, keys[|keys| - 1])
  }

  /** Every resource accessed so far that can fit at all, in order of its last access. */
  function History(keys: seq<string>, capacity: nat, content: string -> string): seq<Entry> {
    if keys == [] then []
    else
      var h := History(keys[..|keys| - 1], capacity, content);
      var k := keys[|keys| - 1];
      if capacity < |content(k)| then h else Without(h, k) + [Entry(k, content(k))]
  }

  /** The longest most recent part of a list that fits. */
  function Fitting(es: seq<Entry>, capacity: nat): seq<Entry> {
    Evicted(es, capacity, 0)
  }

  // ---- totals ----

  lemma {:induction false} TotalAppend(a: seq<Entry>, b: seq<Entry>)
    ensures Total(a + b) == Total(a) + Total(b)
  {
    if a == [] {
      assert a + b == b;
    } else {
      assert (a + b)[1..] == a[1..] + b;
      TotalAppend(a[1..], b);
    }
  }

  lemma TotalFrom(es: seq<Entry>, i: nat, j: nat)
    requires i <= j <= |es|
    ensures Total(es[j..]) <= Total(es[i..])
  {
    assert es[i..] == es[i..j] + es[j..];
    TotalAppend(es[i..j], es[j..]);
  }

  // ---- eviction is the shortest prefix that makes room ----

  /** `k` is the least number of entries to drop so that the rest leaves room. */
  ghost predicate LeastDrop(es: seq<Entry>, capacity: nat, need: nat, k: nat) {
    k <= |es| && (k == |es| || Total(es[k..]) + need <= capacity)
    && forall i :: 0 <= i < k ==> Total(es[i..]) + need > capacity
  }

  lemma {:induction false} EvictsShortestPrefix(es: seq<Entry>, capacity: nat, need: nat) returns (k: nat)
    ensures LeastDrop(es, capacity, need, k) && Evicted(es, capacity, need) == es[k..]
  {
    if es == [] || Total(es) + need <= capacity {
      k := 0;
      assert es[0..] == es;
    } else {
      k := EvictsShortestPrefix(es[1..], capacity, need);
      var n := k + 1;
      assert es[1..][k..] == es[n..];
      forall i | 0 <= i < n ensures Total(es[i..]) + need > capacity {
        if i == 0 {
          assert es[0..] == es;
        } else {
          assert es[i..] == es[1..][i - 1..];
        }
      }
      k := n;
    }
  }

  lemma LeastDropUnique(es: seq<Entry>, capacity: nat, need: nat, k: nat)
    requires LeastDrop(es, capacity, need, k)
    ensures Evicted(es, capacity, need) == es[k..]
  {
    var n := EvictsShortestPrefix(es, capacity, need);
    assert n == k;
  }

  /** It is enough to look at the last entry that is dropped. */
  lemma FittingIs(pre: seq<Entry>, c: seq<Entry>, capacity: nat)
    requires Total(c) <= capacity
    requires pre != [] ==> capacity < |pre[|pre| - 1].data| + Total(c)
    ensures Fitting(pre + c, capacity) == c
  {
    var es, k := pre + c, |pre|;
    assert es[k..] == c;
    forall i | 0 <= i < k ensures Total(es[i..]) > capacity {
      TotalFrom(es, i, k - 1);
      assert es[k - 1..][1..] == c;
    }
    LeastDropUnique(es, capacity, 0, k);
  }

  // ---- removal ----

  lemma {:induction false} WithoutAppend(a: seq<Entry>, b: seq<Entry>, key: string)
    ensures Without(a + b, key) == Without(a, key) + Without(b, key)
  {
    if a == [] {
      assert a + b == b;
    } else {
      assert (a + b)[1..] == a[1..] + b;
      WithoutAppend(a[1..], b, key);
    }
  }

  lemma {:induction false} WithoutAbsent(es: seq<Entry>, key: string)
    requires !Has(es, key)
    ensures Without(es, key) == es
  {
    if es != [] {
      WithoutAbsent(es[1..], key);
    }
  }

  lemma {:induction false} LookupSkips(a: seq<Entry>, b: seq<Entry>, key: string)
    requires !Has(a, key)
    ensures Lookup(a + b, key) == Lookup(b, key)
  {
    if a == [] {
      assert a + b == b;
    } else {
      assert (a + b)[1..] == a[1..] + b;
      LookupSkips(a[1..], b, key);
    }
  }

  lemma {:induction false} HasEither(a: seq<Entry>, b: seq<Entry>, key: string)
    ensures Has(a + b, key) <==> Has(a, key) || Has(b, key)
  {
    if a == [] {
      assert a + b == b;
    } else {
      assert (a + b)[1..] == a[1..] + b;
      HasEither(a[1..], b, key);
    }
  }

  lemma {:induction false} HasIff(es: seq<Entry>, key: string)
    ensures Has(es, key) <==> exists i :: 0 <= i < |es| && es[i].key == key
  {
    if es != [] {
      HasIff(es[1..], key);
      if Has(es[1..], key) {
        var i :| 0 <= i < |es[1..]| && es[1..][i].key == key;
        assert es[i + 1].key == key;
      }
      forall i | 0 < i < |es| ensures es[i] == es[1..][i - 1] {
      }
    }
  }

  lemma DistinctAppend(es: seq<Entry>, e: Entry)
    ensures DistinctKeys(es + [e]) <==> DistinctKeys(es) && !Has(es, e.key)
  {
    var all := es + [e];
    HasIff(es, e.key);
    if DistinctKeys(all) {
      forall i | 0 <= i < |es| ensures es[i].key != e.key {
        assert all[i].key != all[|es|].key;
      }
      forall i, j | 0 <= i < j < |es| ensures es[i].key != es[j].key {
        assert all[i].key != all[j].key;
      }
    }
  }

  /** Where a key is, and that with distinct keys it is nowhere else. */
  lemma Locate(es: seq<Entry>, key: string) returns (i: nat)
    requires Has(es, key) && DistinctKeys(es)
    ensures i < |es| && es[i].key == key && es == es[..i] + ([es[i]] + es[i + 1..])
    ensures !Has(es[..i], key) && !Has(es[i + 1..], key)
  {
    HasIff(es, key);
    i :| 0 <= i < |es| && es[i].key == key;
    HasIff(es[..i], key);
    HasIff(es[i + 1..], key);
  }

  /** An entry is removed by cutting it out. */
  lemma WithoutMiddle(pre: seq<Entry>, e: Entry, post: seq<Entry>)
    requires !Has(pre, e.key) && !Has(post, e.key)
    ensures Without(pre + ([e] + post), e.key) == pre + post
    ensures Lookup(pre + ([e] + post), e.key) == Some(e.data)
  {
    WithoutAppend(pre, [e] + post, e.key);
    WithoutAbsent(pre, e.key);
    WithoutAbsent(post, e.key);
    assert ([e] + post)[1..] == post;
    assert Without([e] + post, e.key) == post;
    LookupSkips(pre, [e] + post, e.key);
  }

  lemma LoadedMiddle(es: seq<Entry>, a: seq<Entry>, e: Entry, b: seq<Entry>)
    requires es == a + ([e] + b) && !Has(a, e.key) && !Has(b, e.key)
    ensures Lookup(es, e.key) == Some(e.data) && Loaded(es, e.key) == a + b + [e]
  {
    WithoutMiddle(a, e, b);
  }

  /** Loading the entry at `i` takes it out and puts it at the end. */
  lemma LoadedAt(es: seq<Entry>, i: nat)
    requires i < |es| && DistinctKeys(es)
    ensures Lookup(es, es[i].key) == Some(es[i].data)
    ensures Loaded(es, es[i].key) == es[..i] + es[i + 1..] + [es[i]]
  {
    HasIff(es, es[i].key);
    var j := Locate(es, es[i].key);
    LoadedMiddle(es, es[..j], es[j], es[j + 1..]);
  }

  // ---- one access, against the history ----

  lemma {:induction false} LookupIn(es: seq<Entry>, key: string)
    requires Has(es, key)
    ensures Entry(key, Lookup(es, key).value) in es
  {
    if es[0].key != key {
      LookupIn(es[1..], key);
    }
  }

  lemma {:induction false} WithoutSubset(es: seq<Entry>, key: string)
    ensures forall e :: e in Without(es, key) ==> e in es
  {
    if es != [] {
      WithoutSubset(es[1..], key);
    }
  }

  /** Neither a load nor an insertion brings in anything but the entry it is about. */
  lemma NothingElseComesIn(es: seq<Entry>, capacity: nat, e: Entry)
    ensures forall x :: x in Loaded(es, e.key) ==> x in es
    ensures forall x :: x in Inserted(es, capacity, e) ==> x in es || x == e
  {
    if Has(es, e.key) {
      LookupIn(es, e.key);
      WithoutSubset(es, e.key);
    }
    var k := EvictsShortestPrefix(es, capacity, |e.data|);
  }

  /** Entries with distinct keys, each holding its resource. */
  ghost predicate Faithful(es: seq<Entry>, content: string -> string) {
    DistinctKeys(es) && forall e :: e in es ==> e.data == content(e.key)
  }

  lemma MovedIsFaithful(es: seq<Entry>, content: string -> string, key: string)
    requires Faithful(es, content)
    ensures Faithful(Without(es, key) + [Entry(key, content(key))], content)
  {
    HasIff(es, key);
    if Has(es, key) {
      var i := Locate(es, key);
      WithoutMiddle(es[..i], es[i], es[i + 1..]);
    } else {
      WithoutAbsent(es, key);
    }
  }

  lemma TotalMoved(a: seq<Entry>, e: Entry, b: seq<Entry>)
    ensures Total(a + b + [e]) == Total(a + ([e] + b))
  {
    TotalAppend(a + b, [e]);
    TotalAppend(a, b);
    TotalAppend(a, [e] + b);
    TotalAppend([e], b);
  }

  /** Moving an entry of the fitting part to its end: the entries before that part are untouched. */
  lemma HitMove(pre: seq<Entry>, c: seq<Entry>, a: seq<Entry>, e: Entry, b: seq<Entry>, capacity: nat)
    requires c == a + ([e] + b) && !Has(pre, e.key) && !Has(a, e.key) && !Has(b, e.key)
    requires Total(c) <= capacity
    requires pre != [] ==> capacity < |pre[|pre| - 1].data| + Total(c)
    ensures Fitting(Without(pre + c, e.key) + [e], capacity) == Loaded(c, e.key)
  {
    WithoutMiddle(a, e, b);
    LookupSkips(pre, a, e.key);
    WithoutMiddle(pre + a, e, b);
    assert pre + a + ([e] + b) == pre + c;
    assert pre + a + b + [e] == pre + (a + b + [e]);
    TotalMoved(a, e, b);
    FittingIs(pre, a + b + [e], capacity);
  }

  /** A list cut where eviction stops. */
  lemma Cut(es: seq<Entry>, capacity: nat, need: nat) returns (pre: seq<Entry>, c: seq<Entry>)
    ensures es == pre + c && c == Evicted(es, capacity, need) && (c == [] || Total(c) + need <= capacity)
    ensures pre != [] ==> capacity < |pre[|pre| - 1].data| + Total(c) + need
  {
    var k := EvictsShortestPrefix(es, capacity, need);
    pre, c := es[..k], es[k..];
    if 0 < k {
      assert es[k - 1..][1..] == c;
      assert Total(es[k - 1..]) + need > capacity;
    }
  }

  /** A hit moves an entry of the fitting part; the part before it is untouched. */
  lemma HitStep(h: seq<Entry>, capacity: nat, content: string -> string, key: string)
    requires Faithful(h, content) && Has(Fitting(h, capacity), key)
    ensures Fitting(Without(h, key) + [Entry(key, content(key))], capacity) == Loaded(Fitting(h, capacity), key)
  {
    var pre, c := Cut(h, capacity, 0);
    FaithfulSuffix(pre, c, content, key);
    var i := Locate(c, key);
    assert c[i] in c;
    HitMove(pre, c, c[..i], c[i], c[i + 1..], capacity);
  }

  lemma FaithfulSuffix(pre: seq<Entry>, c: seq<Entry>, content: string -> string, key: string)
    requires Faithful(pre + c, content)
    ensures Faithful(c, content) && (Has(c, key) ==> !Has(pre, key))
  {
    var h := pre + c;
    assert forall i :: 0 <= i < |c| ==> c[i] == h[|pre| + i];
    assert forall i :: 0 <= i < |pre| ==> pre[i] == h[i];
    HasIff(c, key);
    HasIff(pre, key);
  }

  /** A miss appends: what stays of the fitting part is what leaves room for the newcomer. */
  lemma MissStep(h: seq<Entry>, capacity: nat, content: string -> string, key: string)
    requires Faithful(h, content) && !Has(Fitting(h, capacity), key) && |content(key)| <= capacity
    ensures var e := Entry(key, content(key));
            Fitting(Without(h, key) + [e], capacity) == Evicted(Fitting(h, capacity), capacity, |e.data|) + [e]
  {
    var e := Entry(key, content(key));
    var pre, c := Cut(h, capacity, 0);
    if pre != [] {
      assert pre[|pre| - 1] == h[|pre| - 1];
      assert pre[|pre| - 1] in h;
    }
    MissMove(pre, c, e, capacity);
  }

  lemma MissMove(pre: seq<Entry>, c: seq<Entry>, e: Entry, capacity: nat)
    requires !Has(c, e.key) && |e.data| <= capacity
    requires pre != [] ==> capacity < |pre[|pre| - 1].data| + Total(c)
    requires pre != [] && pre[|pre| - 1].key == e.key ==> pre[|pre| - 1] == e
    ensures Fitting(Without(pre + c, e.key) + [e], capacity) == Evicted(c, capacity, |e.data|) + [e]
  {
    WithoutAppend(pre, c, e.key);
    WithoutAbsent(c, e.key);
    var p := Without(pre, e.key);
    var a, b := Cut(c, capacity, |e.data|);
    assert p + a + b == p + c;
    if a == [] {
      assert b == c;
      LastDroppedStaysOut(pre, c, capacity, e);
    }
    AppendedFits(p + a, b, e, capacity);
  }

  lemma AppendedFits(p: seq<Entry>, c: seq<Entry>, e: Entry, capacity: nat)
    requires Total(c) + |e.data| <= capacity
    requires p != [] ==> capacity < |p[|p| - 1].data| + Total(c) + |e.data|
    ensures Fitting(p + c + [e], capacity) == c + [e]
  {
    TotalAppend(c, [e]);
    FittingIs(p, c + [e], capacity);
    assert p + (c + [e]) == p + c + [e];
  }

  /** With no eviction, the entry before the fitting part is not the newcomer: both beside that part do not fit. */
  lemma LastDroppedStaysOut(pre: seq<Entry>, c: seq<Entry>, capacity: nat, e: Entry)
    requires pre != [] ==> capacity < |pre[|pre| - 1].data| + Total(c)
    requires pre != [] && pre[|pre| - 1].key == e.key ==> pre[|pre| - 1] == e
    requires c == [] || Total(c) + |e.data| <= capacity
    requires |e.data| <= capacity
    ensures var p := Without(pre, e.key); p != [] ==> p[|p| - 1] == pre[|pre| - 1]
  {
    if pre != [] {
      var n := |pre| - 1;
      assert pre == pre[..n] + [pre[n]];
      WithoutAppend(pre[..n], [pre[n]], e.key);
      assert [pre[n]][1..] == [];
    }
  }

  // ---- whole runs ----

  /**
   * After any run of accesses the cache holds exactly the longest most recent part of the access history
   * that fits its capacity.
   */
  lemma {:induction false} RunIsFittingHistory(keys: seq<string>, capacity: nat, content: string -> string)
    ensures Faithful(History(keys, capacity, content), content)
    ensures Run(keys, capacity, content) == Fitting(History(keys, capacity, content), capacity)
  {
    if keys != [] {
      var before, key := keys[..|keys| - 1], keys[|keys| - 1];
      RunIsFittingHistory(before, capacity, content);
      var h := History(before, capacity, content);
      var c := Run(before, capacity, content);
      var k := EvictsShortestPrefix(h, capacity, 0);
      HistoryFits(before, capacity, content);
      if |content(key)| <= capacity {
        MovedIsFaithful(h, content, key);
        if Has(c, key) {
          HitStep(h, capacity, content, key);
        } else {
          MissStep(h, capacity, content, key);
        }
      } else {
        HasIff(c, key);
        forall i | 0 <= i < |c| ensures c[i].key != key {
          assert c[i] in h;
        }
      }
    }
  }

  lemma {:induction false} HistoryFits(keys: seq<string>, capacity: nat, content: string -> string)
    ensures forall e :: e in History(keys, capacity, content) ==> |e.data| <= capacity
  {
    if keys != [] {
      HistoryFits(keys[..|keys| - 1], capacity, content);
      WithoutSubset(History(keys[..|keys| - 1], capacity, content), keys[|keys| - 1]);
    }
  }

  lemma {:induction false} SameHistory(keys: seq<string>, small: nat, large: nat, content: string -> string)
    requires small <= large
    requires forall k :: k in keys ==> |content(k)| <= small || large < |content(k)|
    ensures History(keys, small, content) == History(keys, large, content)
  {
    if keys != [] {
      SameHistory(keys[..|keys| - 1], small, large, content);
    }
  }

  lemma HasInSuffix(es: seq<Entry>, n: nat, key: string)
    requires n <= |es| && Has(es[n..], key)
    ensures Has(es, key)
  {
    HasIff(es[n..], key);
    HasIff(es, key);
    var i :| 0 <= i < |es[n..]| && es[n..][i].key == key;
    assert es[n + i].key == key;
  }

  /**
   * Inclusion over whole runs: a larger cache holds all that a smaller one holds, in the same order, as its
   * most recent part; so it never misses where the smaller one hits. Resources too big for both do no harm.
   */
  lemma LargerCacheIncludesSmaller(keys: seq<string>, small: nat, large: nat, content: string -> string)
    requires small <= large
    requires forall k :: k in keys ==> |content(k)| <= small || large < |content(k)|
    ensures var s, l := Run(keys, small, content), Run(keys, large, content);
            |s| <= |l| && s == l[|l| - |s|..] && forall k :: Has(s, k) ==> Has(l, k)
  {
    RunIsFittingHistory(keys, small, content);
    RunIsFittingHistory(keys, large, content);
    SameHistory(keys, small, large, content);
    var h := History(keys, small, content);
    var i := EvictsShortestPrefix(h, small, 0);
    var j := EvictsShortestPrefix(h, large, 0);
    assert j <= i;
    var s, l := h[i..], h[j..];
    assert s == l[|l| - |s|..];
    forall k | Has(s, k) ensures Has(l, k) {
      HasInSuffix(l, |l| - |s|, k);
    }
  }

  /** A resource that only the larger cache can hold breaks the inclusion: it drives others out of that one alone. */
  lemma InclusionNeedsFittingSizes()
    ensures var content: string -> string := (k: string) => if k == "b" then "xx" else "x";
            Has(Run(["a", "b"], 1, content), "a") && !Has(Run(["a", "b"], 2, content), "a")
  {
    var content: string -> string := (k: string) => if k == "b" then "xx" else "x";
    var a, b := Entry("a", "x"), Entry("b", "xx");
    assert ["a", "b"][..1] == ["a"] && ["a"][..0] == [];
    assert "a" != "b" by {
      assert "a"[0] != "b"[0];
    }
    assert [a][1..] == [] && [b][1..] == [] && Total([a]) == 1;
    HasIff([a], "b");
    HasIff([b], "a");
    assert !Has([a], "b") && Has([a], "a") && !Has([b], "a");
    assert Run(["a"], 1, content) == [a] && Run(["a"], 2, content) == [a];
    assert Run(["a", "b"], 1, content) == Inserted([a], 1, b);
    assert Evicted([a], 2, 2) == [];
    assert Run(["a", "b"], 2, content) == [b];
  }
}
