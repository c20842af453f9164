/**
 * The timer of src/core/timer.cpp: a queue ordered by expiry alone, the cached next expiry, and the deadline armed
 * in the timer descriptor. Times are milliseconds since the epoch, without wrap-around.
 */
module Timers {
  import opened Prelude

  /**
   * A timer object. `id` tells apart objects with the same contents; `fd` is what its callback captured; `gen` is
   * the generation of the connection it was armed for, which no code reads.
   */
  datatype SingleTimer = SingleTimer(id: nat, expiry: nat, fd: int, gen: nat)

  // ---- the ordered map, keyed by expiry ----

  ghost predicate Sorted(q: seq<SingleTimer>) {
    forall i, j :: 0 <= i < j < |q| ==> q[i].expiry < q[j].expiry
  }

  /** std::map::find with the comparator: any timer of that expiry is a match. */
  function Lookup(q: seq<SingleTimer>, expiry: nat): Option<SingleTimer> {
    if q == [] then None else if q[0].expiry == expiry then Some(q[0]) else Lookup(q[1..], expiry)
  }

  /** std::map::emplace: a timer whose expiry is taken is not inserted. */
  function Emplace(q: seq<SingleTimer>, t: SingleTimer): seq<SingleTimer> {
    if q == [] || t.expiry < q[0].expiry then [t] + q
    else if t.expiry == q[0].expiry then q
    else [q[0]] + Emplace(q[1..], t)
  }

  function Erase(q: seq<SingleTimer>, expiry: nat): seq<SingleTimer> {
    if q == [] then [] else if q[0].expiry == expiry then q[1..] else [q[0]] + Erase(q[1..], expiry)
  }

  /** The earliest expiry, and 0 for an empty queue. */
  function NextExpire(q: seq<SingleTimer>): nat {
    if q == [] then 0 else q[0].expiry
  }

  ghost predicate Taken(q: seq<SingleTimer>, expiry: nat) {
    exists t :: t in q && t.expiry == expiry
  }

  lemma SortedTail(q: seq<SingleTimer>)
    requires Sorted(q) && q != []
    ensures Sorted(q[1..]) && forall t :: t in q[1..] ==> q[0].expiry < t.expiry
  {
  }

  lemma SortedCons(t: SingleTimer, q: seq<SingleTimer>)
    requires Sorted(q) && forall x :: x in q ==> t.expiry < x.expiry
    ensures Sorted([t] + q)
  {
    var s := [t] + q;
    forall i, j | 0 <= i < j < |s| ensures s[i].expiry < s[j].expiry {
      assert s[j] == q[j - 1] && s[j] in q;
      if i > 0 {
        assert s[i] == q[i - 1];
      }
    }
  }

  lemma {:induction false} LookupMeaning(q: seq<SingleTimer>, expiry: nat)
    ensures Lookup(q, expiry).Some? <==> Taken(q, expiry)
    ensures Lookup(q, expiry).Some? ==> Lookup(q, expiry).value in q && Lookup(q, expiry).value.expiry == expiry
  {
    if q != [] {
      LookupMeaning(q[1..], expiry);
      assert q == [q[0]] + q[1..];
    }
  }

  /** In a sorted queue a timer is found by its own expiry. */
  lemma LookupOwn(q: seq<SingleTimer>, t: SingleTimer)
    requires Sorted(q) && t in q
    ensures Lookup(q, t.expiry) == Some(t)
  {
    LookupMeaning(q, t.expiry);
    var u := Lookup(q, t.expiry).value;
    var i :| 0 <= i < |q| && q[i] == t;
    var j :| 0 <= j < |q| && q[j] == u;
    assert i == j;
  }

  lemma {:induction false} EmplaceMeaning(q: seq<SingleTimer>, t: SingleTimer)
    requires Sorted(q)
    ensures Sorted(Emplace(q, t))
    ensures if Taken(q, t.expiry) then Emplace(q, t) == q
            else forall x :: x in Emplace(q, t) <==> x in q || x == t
  {
    if q != [] {
      SortedTail(q);
      assert q == [q[0]] + q[1..];
      if t.expiry < q[0].expiry {
        SortedCons(t, q);
      } else if t.expiry == q[0].expiry {
        assert q[0] in q;
      } else {
        EmplaceMeaning(q[1..], t);
        SortedCons(q[0], Emplace(q[1..], t));
      }
    }
  }

  lemma {:induction false} EraseMeaning(q: seq<SingleTimer>, expiry: nat)
    requires Sorted(q)
    ensures Sorted(Erase(q, expiry))
    ensures forall x :: x in Erase(q, expiry) <==> x in q && x.expiry != expiry
    ensures !Taken(q, expiry) ==> Erase(q, expiry) == q
  {
    if q != [] {
      SortedTail(q);
      assert q == [q[0]] + q[1..];
      EraseMeaning(q[1..], expiry);
      if q[0].expiry != expiry {
        SortedCons(q[0], Erase(q[1..], expiry));
      }
    }
  }

  lemma NextExpireIsLeast(q: seq<SingleTimer>)
    requires Sorted(q)
    ensures q == [] ==> NextExpire(q) == 0
    ensures q != [] ==> (exists t :: t in q && t.expiry == NextExpire(q)) && forall t :: t in q ==> NextExpire(q) <= t.expiry
  {
    if q != [] {
      assert q[0] in q;
    }
  }

  // ---- the clock ----

  function FromNow(timestamp: nat, now: nat): nat {
    if timestamp >= now then timestamp - now else 0
  }

  datatype TimeSpec = TimeSpec(sec: nat, nsec: nat)

  function FromNowInTimeSpec(timestamp: nat, now: nat): TimeSpec {
    var ms := FromNow(timestamp, now);
    TimeSpec(ms / 1000, ms % 1000 * 1_000_000)
  }

  /** The deadline that a relative timespec arms at time `now`; a zero timespec disarms. */
  function Deadline(ts: TimeSpec, now: nat): Option<nat> {
    if ts.sec == 0 && ts.nsec == 0 then None else Some(now + ts.sec * 1000 + ts.nsec / 1_000_000)
  }

  /** Armed at exactly the requested time, if that is still to come; otherwise disarmed. */
  lemma DeadlineExact(timestamp: nat, now: nat)
    ensures Deadline(FromNowInTimeSpec(timestamp, now), now) == if now < timestamp then Some(timestamp) else None
    ensures FromNowInTimeSpec(timestamp, now).nsec < 1_000_000_000
  {
  }

  // ---- pruning ----

  /** How many timers from the front are found expired when the i-th is checked at `readings[i]`. */
  function DueCount(q: seq<SingleTimer>, readings: seq<nat>): (k: nat)
    requires |q| <= |readings|
    ensures k <= |q|
  {
    if q == [] || readings[0] < q[0].expiry then 0 else 1 + DueCount(q[1..], readings[1..])
  }

  ghost predicate Advancing(readings: seq<nat>) {
    forall i, j :: 0 <= i < j < |readings| ==> readings[i] <= readings[j]
  }

  lemma {:induction false} DueCountMeaning(q: seq<SingleTimer>, readings: seq<nat>)
    requires |q| <= |readings|
    ensures forall i :: 0 <= i < DueCount(q, readings) ==> q[i].expiry <= readings[i]
    ensures DueCount(q, readings) < |q| ==> readings[DueCount(q, readings)] < q[DueCount(q, readings)].expiry
  {
    if q != [] && q[0].expiry <= readings[0] {
      DueCountMeaning(q[1..], readings[1..]);
      var k := DueCount(q[1..], readings[1..]);
      forall i | 0 <= i < k + 1 ensures q[i].expiry <= readings[i] {
        if i > 0 {
          assert q[i] == q[1..][i - 1] && readings[i] == readings[1..][i - 1];
        }
      }
    }
  }

  /** Under an advancing clock, pruning takes every timer due at entry and none that was not due when checked. */
  lemma {:induction false} PruneExact(q: seq<SingleTimer>, readings: seq<nat>)
    requires Sorted(q) && |q| < |readings| && Advancing(readings)
    ensures var k := DueCount(q, readings);
            && (forall t :: t in q && t.expiry <= readings[0] ==> t in q[..k])
            && (forall i :: 0 <= i < k ==> q[i].expiry <= readings[i])
            && (forall t :: t in q[k..] ==> t !in q[..k])
  {
    var k := DueCount(q, readings);
    DueCountMeaning(q, readings);
    assert k < |q| ==> readings[0] <= readings[k] < q[k].expiry;
    forall t | t in q && t.expiry <= readings[0] ensures t in q[..k] {
      var i :| 0 <= i < |q| && q[i] == t;
      assert i < k;
      assert q[..k][i] == t;
    }
    SortedApart(q, k);
  }

  lemma {:induction false} SortedApart(q: seq<SingleTimer>, k: nat)
    requires Sorted(q) && k <= |q|
    ensures forall t :: t in q[k..] ==> t !in q[..k]
  {
    forall t | t in q[k..] ensures t !in q[..k] {
      var j :| 0 <= j < |q[k..]| && q[k..][j] == t;
      forall i | 0 <= i < k ensures q[..k][i] != t {
        assert q[i].expiry < q[k + j].expiry;
      }
    }
  }

  lemma SortedSuffix(q: seq<SingleTimer>, k: nat)
    requires Sorted(q) && k <= |q|
    ensures Sorted(q[k..]) && forall t :: t in q[k..] ==> t in q
  {
  }

  /** One turn of the pruning scan. */
  lemma DueCountStep(q: seq<SingleTimer>, readings: seq<nat>, i: nat)
    requires |q| <= |readings| && i < |q| && q[i].expiry <= readings[i]
    ensures DueCount(q[i..], readings[i..]) == 1 + DueCount(q[i + 1..], readings[i + 1..])
  {
    assert q[i..][1..] == q[i + 1..] && readings[i..][1..] == readings[i + 1..];
  }

  /** The first loop of PruneExpiredTimer: the clock is read anew for every timer checked. */
  method ScanDue(q: seq<SingleTimer>, readings: seq<nat>) returns (it: nat)
    requires |q| < |readings|
    ensures it == DueCount(q, readings)
  {
    it := 0;
    while it < |q| && q[it].expiry <= readings[it]
      invariant it <= |q| && DueCount(q, readings) == it + DueCount(q[it..], readings[it..])
    {
      DueCountStep(q, readings, it);
      it := it + 1;
    }
  }

  class Timer {
    var queue: seq<SingleTimer>
    var nextExpire: nat
    var armed: Option<nat>   // the deadline in the timer descriptor
    var nextId: nat
    ghost var setAt: nat     // when the descriptor was last set

    /** The cached expiry is the least, and the descriptor is armed at it exactly if it was in the future when set. */
    ghost predicate Valid()
      reads this
    {
      && Sorted(queue) && (forall t :: t in queue ==> 0 < t.expiry && t.id < nextId)
      && nextExpire == NextExpire(queue)
      && armed == if setAt < nextExpire then Some(nextExpire) else None
    }

    constructor ()
      ensures Valid() && queue == []
    {
      queue, nextExpire, armed, nextId, setAt := [], 0, None, 0, 0;
    }

    /** What every operation ends with: if the earliest expiry has changed, the descriptor is set anew. */
    method Rearm(now: nat)
      requires Sorted(queue) && forall t :: t in queue ==> 0 < t.expiry && t.id < nextId
      requires armed == if setAt < nextExpire then Some(nextExpire) else None
      modifies this`nextExpire, this`armed, this`setAt
      ensures Valid()
      ensures nextExpire != old(nextExpire) ==> setAt == now
    {
      var newNextExpire := NextExpire(queue);
      if newNextExpire != nextExpire {
        nextExpire := newNextExpire;
        armed := Deadline(FromNowInTimeSpec(newNextExpire, now), now);
        setAt := now;
        DeadlineExact(newNextExpire, now);
      }
    }

    /** The queue takes the new timer unless its expiry is taken; the caller gets it either way. */
    method AddSingleTimer(expireFromNow: nat, fd: int, gen: nat, now: nat, setTime: nat) returns (t: SingleTimer)
      requires Valid() && 0 < now + expireFromNow
      modifies this
      ensures Valid() && t == SingleTimer(old(nextId), now + expireFromNow, fd, gen)
      ensures queue == Emplace(old(queue), t) && nextId == old(nextId) + 1
    {
      t := SingleTimer(nextId, now + expireFromNow, fd, gen);
      nextId := nextId + 1;
      EmplaceMeaning(queue, t);
      queue := Emplace(queue, t);
      Rearm(setTime);
    }

    method RemoveSingleTimer(t: SingleTimer, setTime: nat) returns (found: bool)
      requires Valid()
      modifies this`queue, this`nextExpire, this`armed, this`setAt
      ensures Valid() && queue == Erase(old(queue), t.expiry) && found == Taken(old(queue), t.expiry)
    {
      LookupMeaning(queue, t.expiry);
      EraseMeaning(queue, t.expiry);
      if Lookup(queue, t.expiry).Some? {
        queue := Erase(queue, t.expiry);
        Rearm(setTime);
        return true;
      }
      return false;
    }

    /** The timer found by expiry is replaced by a later one with its callback. */
    method RefreshSingleTimer(t: SingleTimer, expireFromNow: nat, now: nat, setTime: nat) returns (r: Option<SingleTimer>)
      requires Valid() && 0 < now + expireFromNow
      modifies this
      ensures Valid()
      ensures match Lookup(old(queue), t.expiry)
              case None => r == None && queue == old(queue) && nextId == old(nextId)
              case Some(u) =>
                && r == Some(SingleTimer(old(nextId), now + expireFromNow, u.fd, u.gen))
                && queue == Emplace(Erase(old(queue), t.expiry), r.value) && nextId == old(nextId) + 1
    {
      var it := Lookup(queue, t.expiry);
      if it.None? {
        return None;
      }
      var newTimer := SingleTimer(nextId, now + expireFromNow, it.value.fd, it.value.gen);
      nextId := nextId + 1;
      EraseMeaning(queue, t.expiry);
      queue := Erase(queue, t.expiry);
      EmplaceMeaning(queue, newTimer);
      queue := Emplace(queue, newTimer);
      Rearm(setTime);
      return Some(newTimer);
    }

    /** The timers found due leave the queue, in order. */
    method PruneExpiredTimer(readings: seq<nat>, setTime: nat) returns (expired: seq<SingleTimer>)
      requires Valid() && |queue| < |readings|
      modifies this`queue, this`nextExpire, this`armed, this`setAt
      ensures Valid() && expired == old(queue)[..DueCount(old(queue), readings)]
      ensures expired + queue == old(queue)
    {
      var it := ScanDue(queue, readings);
      SortedSuffix(queue, it);
      expired := queue[..it];
      queue := queue[it..];
      Rearm(setTime);
    }
  }
}
