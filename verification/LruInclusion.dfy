/**
 * When exactly a larger cache holds all that a smaller one holds, for resources of any size: with resources that fit
 * only the larger one, they may drive out of it what the smaller one keeps.
 */
module LruInclusion {
  import opened Lru

  /** The entries that fit a capacity at all. */
  function Fits(es: seq<Entry>, capacity: nat): seq<Entry> {
    if es == [] then [] else (if |es[0].data| <= capacity then [es[0]] else []) + Fits(es[1..], capacity)
  }

  /** The entries from that of `key` on. */
  function From(es: seq<Entry>, key: string): seq<Entry> {
    if es == [] || es[0].key == key then es else From(es[1..], key)
  }

  lemma {:induction false} FitsAppend(a: seq<Entry>, b: seq<Entry>, capacity: nat)
    ensures Fits(a + b, capacity) == Fits(a, capacity) + Fits(b, capacity)
  {
    if a == [] {
      assert a + b == b;
    } else {
      assert (a + b)[1..] == a[1..] + b;
      FitsAppend(a[1..], b, capacity);
    }
  }

  lemma {:induction false} FitsAreIn(es: seq<Entry>, capacity: nat)
    ensures forall e :: e in Fits(es, capacity) ==> e in es
  {
    if es != [] {
      FitsAreIn(es[1..], capacity);
    }
  }

  lemma {:induction false} FitsWithout(es: seq<Entry>, capacity: nat, key: string)
    ensures Fits(Without(es, key), capacity) == Without(Fits(es, capacity), key)
  {
    if es != [] {
      FitsWithout(es[1..], capacity, key);
      var first, rest := [es[0]], es[1..];
      FitsAppend(if es[0].key == key then [] else first, Without(rest, key), capacity);
      WithoutAppend(if |es[0].data| <= capacity then first else [], Fits(rest, capacity), key);
    }
  }

  lemma {:induction false} FitsWithoutBig(es: seq<Entry>, capacity: nat, key: string)
    requires forall e :: e in es && e.key == key ==> capacity < |e.data|
    ensures Fits(Without(es, key), capacity) == Fits(es, capacity)
  {
    if es != [] {
      assert es[0] in es && forall e :: e in es[1..] ==> e in es;
      FitsWithoutBig(es[1..], capacity, key);
      FitsAppend(if es[0].key == key then [] else [es[0]], Without(es[1..], key), capacity);
    }
  }

  /** The history of the smaller cache is that of the larger one without what does not fit the smaller. */
  lemma {:induction false} SmallHistory(keys: seq<string>, small: nat, large: nat, content: string -> string)
    requires small <= large
    ensures History(keys, small, content) == Fits(History(keys, large, content), small)
  {
    if keys != [] {
      var before, key := keys[..|keys| - 1], keys[|keys| - 1];
      SmallHistory(before, small, large, content);
      RunIsFittingHistory(before, large, content);
      var h, e := History(before, large, content), Entry(key, content(key));
      FitsAppend(Without(h, key), [e], small);
      if |e.data| <= small {
        FitsWithout(h, small, key);
      } else {
        FitsWithoutBig(h, small, key);
      }
    }
  }

  lemma {:induction false} FromIs(pre: seq<Entry>, e: Entry, post: seq<Entry>)
    requires !Has(pre, e.key)
    ensures From(pre + ([e] + post), e.key) == [e] + post
  {
    if pre == [] {
      assert pre + ([e] + post) == [e] + post;
    } else {
      assert (pre + ([e] + post))[1..] == pre[1..] + ([e] + post);
      FromIs(pre[1..], e, post);
    }
  }

  lemma {:induction false} SameIndex(es: seq<Entry>, i: nat, j: nat)
    requires DistinctKeys(es) && i < |es| && j < |es| && es[i].key == es[j].key
    ensures i == j
  {
  }

  /** A suffix of the entries that fit, cut at the first of them: it is what fits of the list from there on. */
  lemma {:induction false} FitsFrom(h: seq<Entry>, capacity: nat, m: nat, i: nat)
    requires DistinctKeys(Fits(h, capacity)) && m < |Fits(h, capacity)| && i < |h| && h[i] == Fits(h, capacity)[m]
    requires |h[i].data| <= capacity
    ensures Fits(h, capacity)[m..] == Fits(h[i..], capacity)
  {
    assert h == h[..i] + h[i..];
    FitsAppend(h[..i], h[i..], capacity);
    SameIndex(Fits(h, capacity), m, |Fits(h[..i], capacity)|);
  }

  lemma {:induction false} FitsHas(es: seq<Entry>, capacity: nat, key: string)
    requires Has(Fits(es, capacity), key)
    ensures Has(es, key)
  {
    LookupIn(Fits(es, capacity), key);
    FitsAreIn(es, capacity);
    HasIff(es, key);
  }

  /** A fitting part holds the entry at `i` exactly when all from there on fit together. */
  lemma {:induction false} FittingHolds(h: seq<Entry>, capacity: nat, i: nat)
    requires DistinctKeys(h) && i < |h|
    ensures Has(Fitting(h, capacity), h[i].key) <==> Total(h[i..]) <= capacity
    ensures Total(h[i..]) <= capacity ==> forall k :: Has(h[i..], k) ==> Has(Fitting(h, capacity), k)
  {
    var j := EvictsShortestPrefix(h, capacity, 0);
    var l := h[j..];
    HasIff(l, h[i].key);
    if j <= i {
      assert l[i - j] == h[i];
      TotalFrom(h, j, i);
      assert l[i - j..] == h[i..];
      forall k | Has(h[i..], k) ensures Has(l, k) {
        HasInSuffix(l, i - j, k);
      }
    } else {
      forall n | 0 <= n < |l| ensures l[n].key != h[i].key {
        assert l[n] == h[j + n];
      }
    }
  }

  lemma {:induction false} FitsAreSmall(es: seq<Entry>, capacity: nat)
    ensures forall e :: e in Fits(es, capacity) ==> |e.data| <= capacity
  {
    if es != [] {
      FitsAreSmall(es[1..], capacity);
    }
  }

  /**
   * Of an access history: the entries from the oldest that the smaller capacity has room for (beside all later ones
   * that can fit it) fit the larger capacity together, with those among them that can only fit the larger one.
   */
  ghost predicate RoomForBoth(h: seq<Entry>, small: nat, large: nat) {
    var f := Fits(h, small);
    exists m: nat :: LeastDrop(f, small, 0, m) && (m < |f| ==> Total(From(h, f[m].key)) <= large)
  }

  /**
   * After any run, with resources of any size, the larger cache holds all that the smaller one holds if and only if the
   * history of accesses leaves room for both.
   */
  lemma {:induction false} InclusionExactly(keys: seq<string>, small: nat, large: nat, content: string -> string)
    requires small <= large
    ensures var s, l := Run(keys, small, content), Run(keys, large, content);
            (forall k :: Has(s, k) ==> Has(l, k))
            <==> RoomForBoth(History(keys, large, content), small, large)
  {
    RunIsFittingHistory(keys, small, content);
    RunIsFittingHistory(keys, large, content);
    SmallHistory(keys, small, large, content);
    var h := History(keys, large, content);
    var f := Fits(h, small);
    var m := EvictsShortestPrefix(f, small, 0);
    OldestIsOne(h, small, large, m);
    if m < |f| {
      OldestDecides(h, small, large, m);
    } else {
      assert f[m..] == [];
    }
  }

  lemma {:induction false} OldestIsOne(h: seq<Entry>, small: nat, large: nat, m: nat)
    requires LeastDrop(Fits(h, small), small, 0, m)
    ensures RoomForBoth(h, small, large) <==> (m < |Fits(h, small)| ==> Total(From(h, Fits(h, small)[m].key)) <= large)
  {
    assert forall n: nat :: LeastDrop(Fits(h, small), small, 0, n) ==> n == m;
  }

  lemma {:induction false} OldestDecides(h: seq<Entry>, small: nat, large: nat, m: nat)
    requires DistinctKeys(h) && DistinctKeys(Fits(h, small)) && m < |Fits(h, small)|
    ensures var s, l := Fits(h, small)[m..], Fitting(h, large);
            (forall k :: Has(s, k) ==> Has(l, k)) <==> Total(From(h, s[0].key)) <= large
  {
    var s, l := Fits(h, small)[m..], Fitting(h, large);
    FitsAreIn(h, small);
    FitsAreSmall(h, small);
    var e := Fits(h, small)[m];
    assert e in Fits(h, small);
    HasIff(h, e.key);
    var i := Locate(h, e.key);
    var n :| 0 <= n < |h| && h[n] == e;
    SameIndex(h, i, n);
    FromIs(h[..i], h[i], h[i + 1..]);
    assert h[i..] == [h[i]] + h[i + 1..];
    FitsFrom(h, small, m, i);
    FittingHolds(h, large, i);
    HasIff(s, e.key);
    assert s[0] == e;
    forall k | Has(s, k) ensures Has(h[i..], k) {
      FitsHas(h[i..], small, k);
    }
  }
}
