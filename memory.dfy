/** The memory tier (internal/cache/memory.go): a bounded key/value store with
    least-recently-used eviction. The Go type keeps a map from key to list
    element and a doubly linked recency list; here the map holds the values
    directly and the list is the sequence `order`, most recently used first,
    so that the tail `Last(order)` is the next eviction candidate. */
module Cache {
  import opened Base
  import opened Seqs

  /** The abstract state of a MemoryCache: the lookup index and the recency list. */
  datatype CacheState<V> = CacheState(store: map<string, V>, order: seq<string>)

  /** The most entries a cache of this configured capacity ever holds: a
      capacity of zero or less still admits the one entry just inserted,
      because evicting from an empty list does nothing. */
  function Bound(capacity: int): (b: int)
    ensures b >= 1 && b >= capacity
    ensures capacity >= 1 ==> b == capacity
    ensures capacity < 1 ==> b == 1
  {
    if capacity < 1 then 1 else capacity
  }

  /** The invariant of the two structures: no key twice in the list, the list
      and the index hold the same keys, and the size stays within the bound. */
  ghost predicate Wf<V>(c: CacheState<V>, capacity: int) {
    && NoDup(c.order)
    && (forall k :: k in c.store <==> k in c.order)
    && |c.order| <= Bound(capacity)
  }

  /** What Get returns: the stored value, or None for (nil, false). */
  function Lookup<V>(c: CacheState<V>, k: string): (r: Option<V>)
    ensures r.Some? <==> k in c.store
    ensures r.Some? ==> r.value == c.store[k]
  {
    if k in c.store then Some(c.store[k]) else None
  }

  /** list.MoveToFront on the element of `k`. */
  function Promote<V>(c: CacheState<V>, k: string): (r: CacheState<V>)
    ensures r.store == c.store
    ensures r.order != [] && r.order[0] == k
    ensures forall j :: j in r.order <==> j == k || j in c.order
  {
    CacheState(c.store, [k] + Except(c.order, {k}))
  }

  /** The effect of Get on the state: a hit promotes, a miss changes nothing. */
  function Touch<V>(c: CacheState<V>, k: string): (r: CacheState<V>)
    ensures r.store == c.store
    ensures k in c.store ==> r.order != [] && r.order[0] == k
    ensures k !in c.store ==> r == c
    ensures forall j :: j in c.order ==> j in r.order
  {
    if k in c.store then Promote(c, k) else c
  }

  /** removeElement: delete from the index, remove from the list. */
  function Unlink<V>(c: CacheState<V>, k: string): (r: CacheState<V>)
    ensures k !in r.store && k !in r.order
    ensures forall j :: j != k ==> Lookup(r, j) == Lookup(c, j)
    ensures forall j :: j != k ==> (j in r.order <==> j in c.order)
  {
    CacheState(c.store - {k}, Except(c.order, {k}))
  }

  /** removeOldest: unlink the back of the list, if there is one. */
  function Evict<V>(c: CacheState<V>): (r: CacheState<V>)
    ensures c.order == [] ==> r == c
    ensures c.order != [] ==> Last(c.order) !in r.store && Last(c.order) !in r.order
    ensures forall j :: j in r.store ==> j in c.store && r.store[j] == c.store[j]
  {
    if c.order == [] then c else Unlink(c, Last(c.order))
  }

  /** The effect of Delete. */
  function Remove<V>(c: CacheState<V>, k: string): (r: CacheState<V>)
    ensures k !in r.store
    ensures k !in c.store ==> r == c
    ensures forall j :: j != k ==> Lookup(r, j) == Lookup(c, j)
  {
    if k in c.store then Unlink(c, k) else c
  }

  /** The effect of Set. */
  function Put<V>(c: CacheState<V>, capacity: int, k: string, v: V): (r: CacheState<V>)
    ensures Lookup(r, k) == Some(v)
    ensures forall j :: j != k && j in r.store ==> j in c.store && r.store[j] == c.store[j]
  {
    if k in c.store then
      var p := Promote(c, k);
      CacheState(p.store[k := v], p.order)
    else
      var d := if |c.order| >= capacity then Evict(c) else c;
      CacheState(d.store[k := v], [k] + d.order)
  }

  class MemoryCache<V> {
    var store: map<string, V>
    var order: seq<string>
    const capacity: int

    function State(): CacheState<V>
      reads this
    {
      CacheState(store, order)
    }

    ghost predicate Valid()
      reads this
    {
      Wf(State(), capacity)
    }

    /** NewMemoryCache. */
    constructor (capacity: int)
      ensures Valid() && this.capacity == capacity
      ensures State() == CacheState(map[], [])
    {
      store := map[];
      order := [];
      this.capacity := capacity;
    }

    method Set(key: string, value: V)
      requires Valid()
      modifies this
      ensures Valid()
      ensures State() == Put(old(State()), capacity, key, value)
    {
      ghost var before := State();
      PutWf(before, capacity, key, value);
      if key in store {
        order := [key] + Except(order, {key});
        store := store[key := value];
        return;
      }
      if |order| >= capacity {
        RemoveOldest();
      }
      order := [key] + order;
      store := store[key := value];
    }

    method Get(key: string) returns (r: Option<V>)
      requires Valid()
      modifies this
      ensures Valid()
      ensures r == Lookup(old(State()), key)
      ensures State() == Touch(old(State()), key)
    {
      if key in store {
        PromoteWf(State(), capacity, key);
        order := [key] + Except(order, {key});
        return Some(store[key]);
      }
      return None;
    }

    method Delete(key: string)
      requires Valid()
      modifies this
      ensures Valid()
      ensures State() == Remove(old(State()), key)
    {
      if key in store {
        RemoveElement(key);
      }
    }

    method RemoveOldest()
      requires Valid()
      modifies this
      ensures Valid()
      ensures State() == Evict(old(State()))
    {
      if order != [] {
        RemoveElement(Last(order));
      }
    }

    method RemoveElement(key: string)
      requires Valid() && key in store
      modifies this
      ensures Valid()
      ensures State() == Unlink(old(State()), key)
    {
      UnlinkWf(State(), capacity, key);
      store := store - {key};
      order := Except(order, {key});
    }
  }

  // ---------------------------------------------------------------------
  // One operation at a time

  lemma UnlinkWf<V>(c: CacheState<V>, capacity: int, k: string)
    requires Wf(c, capacity)
    ensures Wf(Unlink(c, k), capacity)
  {
    ExceptNoDup(c.order, {k});
  }

  lemma PromoteWf<V>(c: CacheState<V>, capacity: int, k: string)
    requires Wf(c, capacity) && k in c.store
    ensures Wf(Promote(c, k), capacity)
  {
    ExceptNoDup(c.order, {k});
    ExceptOneLength(c.order, k);
    NoDupConcat([k], Except(c.order, {k}));
  }

  /** removeOldest drops exactly the back of the list, the least recently
      used key, and nothing else. */
  lemma EvictBack<V>(c: CacheState<V>, capacity: int)
    requires Wf(c, capacity) && c.order != []
    ensures Evict(c) == CacheState(c.store - {Last(c.order)}, c.order[..|c.order| - 1])
  {
    ExceptAt(c.order, |c.order| - 1);
  }

  /** Set keeps the invariant; in particular the size never exceeds
      max(capacity, 1). */
  lemma PutWf<V>(c: CacheState<V>, capacity: int, k: string, v: V)
    requires Wf(c, capacity)
    ensures Wf(Put(c, capacity, k, v), capacity)
  {
    if k in c.store {
      PromoteWf(c, capacity, k);
    } else {
      var d := if |c.order| >= capacity then Evict(c) else c;
      if |c.order| >= capacity && c.order != [] {
        EvictBack(c, capacity);
      }
      assert Wf(d, capacity);
      NoDupConcat([k], d.order);
    }
  }

  /** Set of a new key: the key goes in front of the list, cut to the bound. */
  lemma PutOrderNew<V>(c: CacheState<V>, capacity: int, k: string, v: V)
    requires Wf(c, capacity) && k !in c.store
    ensures Put(c, capacity, k, v).order == Take([k] + c.order, Bound(capacity))
  {
    var b := Bound(capacity);
    var l := [k] + c.order;
    if |c.order| >= capacity && c.order != [] {
      EvictBack(c, capacity);
      assert |c.order| == b;
      assert l[..b] == [k] + c.order[..|c.order| - 1];
    }
  }

  /** Set in one formula: the key goes to the front of what remains of the
      list, cut to the bound. */
  lemma PutOrder<V>(c: CacheState<V>, capacity: int, k: string, v: V)
    requires Wf(c, capacity)
    ensures Put(c, capacity, k, v).order == Take([k] + Except(c.order, {k}), Bound(capacity))
  {
    if k in c.store {
      ExceptOneLength(c.order, k);
    } else {
      ExceptDisjoint(c.order, {k});
      PutOrderNew(c, capacity, k, v);
    }
  }

  /** Set on a resident key replaces its value and rotates it to the front:
      the same keys stay resident, the others keep their relative order and
      nothing is evicted. */
  lemma PutResident<V>(c: CacheState<V>, capacity: int, v: V, p: nat)
    requires Wf(c, capacity) && p < |c.order|
    ensures var k := c.order[p];
      var r := Put(c, capacity, k, v);
      && r.store == c.store[k := v]
      && r.order == [k] + c.order[..p] + c.order[p + 1..]
      && |r.order| == |c.order|
  {
    ExceptAt(c.order, p);
  }

  /** Set on a new key when the cache is full evicts exactly the back entry
      and puts the new key in front; the size stays the same. */
  lemma PutEvicts<V>(c: CacheState<V>, capacity: int, k: string, v: V)
    requires Wf(c, capacity) && k !in c.store
    requires |c.order| >= capacity && c.order != []
    ensures var r := Put(c, capacity, k, v);
      && r.store == (c.store - {Last(c.order)})[k := v]
      && r.order == [k] + c.order[..|c.order| - 1]
      && |r.order| == |c.order|
  {
    EvictBack(c, capacity);
  }

  /** Set on a new key when there is room evicts nothing. */
  lemma PutInserts<V>(c: CacheState<V>, capacity: int, k: string, v: V)
    requires Wf(c, capacity) && k !in c.store && |c.order| < capacity
    ensures var r := Put(c, capacity, k, v);
      r.store == c.store[k := v] && r.order == [k] + c.order && |r.order| == |c.order| + 1
  {
  }

  /** With a capacity of zero or less the cache holds exactly the entry of the
      latest Set. */
  lemma PutWithoutCapacity<V>(c: CacheState<V>, capacity: int, k: string, v: V)
    requires Wf(c, capacity) && capacity <= 0
    ensures Put(c, capacity, k, v) == CacheState(map[k := v], [k])
  {
    var r := Put(c, capacity, k, v);
    PutWf(c, capacity, k, v);
    PutOrder(c, capacity, k, v);
    assert r.order == [k];
    assert r.store.Keys == {k};
  }

  /** Get on a hit returns the stored value and rotates the key to the front,
      the other keys keeping their relative order and every value unchanged. */
  lemma TouchHit<V>(c: CacheState<V>, capacity: int, p: nat)
    requires Wf(c, capacity) && p < |c.order|
    ensures var k := c.order[p];
      && Lookup(c, k) == Some(c.store[k])
      && Touch(c, k) == CacheState(c.store, [k] + c.order[..p] + c.order[p + 1..])
      && Wf(Touch(c, k), capacity)
  {
    ExceptAt(c.order, p);
    PromoteWf(c, capacity, c.order[p]);
  }

  lemma TouchWf<V>(c: CacheState<V>, capacity: int, k: string)
    requires Wf(c, capacity)
    ensures Wf(Touch(c, k), capacity)
  {
    if k in c.store {
      PromoteWf(c, capacity, k);
    }
  }

  /** Delete of the key at position `p` removes it from the index and the list
      and leaves every other entry, and the order of the others, as it was. */
  lemma RemoveAt<V>(c: CacheState<V>, capacity: int, p: nat)
    requires Wf(c, capacity) && p < |c.order|
    ensures var k := c.order[p];
      var r := Remove(c, k);
      && Wf(r, capacity)
      && k !in r.store && k !in r.order
      && r.order == c.order[..p] + c.order[p + 1..]
      && forall j :: j != k ==> Lookup(r, j) == Lookup(c, j)
  {
    ExceptAt(c.order, p);
    UnlinkWf(c, capacity, c.order[p]);
  }

  /** Delete of an absent key changes nothing. */
  lemma RemoveAbsent<V>(c: CacheState<V>, capacity: int, k: string)
    requires Wf(c, capacity) && k !in c.order
    ensures Remove(c, k) == c
  {
  }

  // ---------------------------------------------------------------------
  // Sequences of Set calls

  /** The distinct keys of a history of touches (oldest first), most recently
      touched first. */
  function MostRecentFirst(h: seq<string>): (r: seq<string>)
    ensures NoDup(r)
    ensures forall x :: x in r <==> x in h
  {
    if h == [] then []
    else
      var rest := MostRecentFirst(h[..|h| - 1]);
      ExceptNoDup(rest, {Last(h)});
      NoDupConcat([Last(h)], Except(rest, {Last(h)}));
      [Last(h)] + Except(rest, {Last(h)})
  }

  function Keys<V>(e: seq<(string, V)>): (ks: seq<string>)
    ensures |ks| == |e|
    ensures forall i :: 0 <= i < |e| ==> ks[i] == e[i].0
  {
    seq(|e|, i requires 0 <= i < |e| => e[i].0)
  }

  /** The value of the latest entry for `k`. */
  function LastValue<V>(e: seq<(string, V)>, k: string): V
    requires k in Keys(e)
  {
    var n := |e| - 1;
    if e[n].0 == k then e[n].1
    else
      assert Keys(e) == Keys(e[..n]) + [e[n].0];
      LastValue(e[..n], k)
  }

  /** The state after a series of Set calls, in order. */
  function PutMany<V>(c: CacheState<V>, capacity: int, e: seq<(string, V)>): CacheState<V> {
    if e == [] then c
    else
      var n := |e| - 1;
      Put(PutMany(c, capacity, e[..n]), capacity, e[n].0, e[n].1)
  }

  /** One more Set after a series of them. */
  lemma PutManySnoc<V>(c: CacheState<V>, capacity: int, e: seq<(string, V)>, k: string, v: V)
    ensures PutMany(c, capacity, e + [(k, v)]) == Put(PutMany(c, capacity, e), capacity, k, v)
  {
    assert (e + [(k, v)])[..|e|] == e;
  }

  /** When every entry for `k` carries `v`, the latest one does. */
  lemma {:induction false} LastValueAgrees<V>(e: seq<(string, V)>, k: string, v: V)
    requires k in Keys(e)
    requires forall i :: 0 <= i < |e| && e[i].0 == k ==> e[i].1 == v
    ensures LastValue(e, k) == v
    decreases |e|
  {
    var n := |e| - 1;
    if e[n].0 != k {
      assert Keys(e) == Keys(e[..n]) + [e[n].0];
      LastValueAgrees(e[..n], k, v);
    }
  }

  lemma {:induction false} PutManyWf<V>(c: CacheState<V>, capacity: int, e: seq<(string, V)>)
    requires Wf(c, capacity)
    ensures Wf(PutMany(c, capacity, e), capacity)
  {
    if e != [] {
      var n := |e| - 1;
      PutManyWf(c, capacity, e[..n]);
      PutWf(PutMany(c, capacity, e[..n]), capacity, e[n].0, e[n].1);
    }
  }

  lemma TakeExceptTake(l: seq<string>, k: string, b: int)
    requires NoDup(l) && b >= 1
    ensures Take([k] + Except(Take(l, b), {k}), b) == Take([k] + Except(l, {k}), b)
  {
    if b < |l| {
      assert l == l[..b] + l[b..];
      ExceptConcat(l[..b], l[b..], {k});
      assert NoDup(l[..b]);
      if k in l[..b] {
        ExceptOneLength(l[..b], k);
      } else {
        ExceptDisjoint(l[..b], {k});
      }
      var x := Except(l[..b], {k});
      assert [k] + Except(l, {k}) == ([k] + x) + Except(l[b..], {k});
      TakeConcat([k] + x, Except(l[b..], {k}), b);
    }
  }

  lemma MostRecentFirstSnoc(ks: seq<string>, k: string)
    ensures MostRecentFirst(ks + [k]) == [k] + Except(MostRecentFirst(ks), {k})
    ensures Elems(ks + [k]) == Elems(ks) + {k}
  {
    var h := ks + [k];
    assert h[..|h| - 1] == ks && Last(h) == k;
  }

  /** One more write of `k` after the history `ks`: the list formula of
      PutManyOrder with `k` moved to the front. */
  lemma RecencyStep(ks: seq<string>, k: string, old_order: seq<string>)
    ensures var l := MostRecentFirst(ks) + Except(old_order, Elems(ks));
      [k] + Except(l, {k}) == MostRecentFirst(ks + [k]) + Except(old_order, Elems(ks + [k]))
  {
    var m := MostRecentFirst(ks);
    var rest := Except(old_order, Elems(ks));
    var a := Except(m, {k});
    var b := Except(rest, {k});
    assert [k] + a == MostRecentFirst(ks + [k]) by {
      MostRecentFirstSnoc(ks, k);
    }
    assert b == Except(old_order, Elems(ks + [k])) by {
      MostRecentFirstSnoc(ks, k);
      ExceptTwice(old_order, Elems(ks), {k});
    }
    assert Except(m + rest, {k}) == a + b by {
      ExceptConcat(m, rest, {k});
    }
    assert [k] + (a + b) == ([k] + a) + b;
  }

  /** The recency list after a series of Set calls: the distinct keys written,
      most recent first, then the keys that were resident before and not
      written, in their old order, cut to the bound. */
  lemma {:induction false} PutManyOrder<V>(c: CacheState<V>, capacity: int, e: seq<(string, V)>)
    requires Wf(c, capacity)
    ensures PutMany(c, capacity, e).order
         == Take(MostRecentFirst(Keys(e)) + Except(c.order, Elems(Keys(e))), Bound(capacity))
  {
    var b := Bound(capacity);
    if e == [] {
      ExceptDisjoint(c.order, {});
      assert Elems(Keys(e)) == {};
      assert Keys(e) == [];
    } else {
      var n := |e| - 1;
      var k := e[n].0;
      var ks := Keys(e[..n]);
      assert Keys(e) == ks + [k];
      var prev := PutMany(c, capacity, e[..n]);
      PutManyOrder(c, capacity, e[..n]);
      PutManyWf(c, capacity, e[..n]);
      PutOrder(prev, capacity, k, e[n].1);
      var m := MostRecentFirst(ks);
      var rest := Except(c.order, Elems(ks));
      var l := m + rest;
      assert prev.order == Take(l, b);
      ExceptNoDup(c.order, Elems(ks));
      NoDupConcat(m, rest);
      TakeExceptTake(l, k, b);
      RecencyStep(ks, k, c.order);
    }
  }

  /** After a series of Set calls every resident key holds the value of its
      latest Set, or its old value if it was not written. */
  lemma {:induction false} PutManyValues<V>(c: CacheState<V>, capacity: int, e: seq<(string, V)>)
    ensures var r := PutMany(c, capacity, e);
      forall j :: j in r.store ==>
        if j in Keys(e) then r.store[j] == LastValue(e, j)
        else j in c.store && r.store[j] == c.store[j]
  {
    if e != [] {
      var n := |e| - 1;
      PutManyValues(c, capacity, e[..n]);
      assert Keys(e) == Keys(e[..n]) + [e[n].0];
    }
  }

  /** When the keys written are no more than the capacity, all of them are
      resident afterwards with the value of their latest Set. */
  lemma PutManyResident<V>(c: CacheState<V>, capacity: int, e: seq<(string, V)>)
    requires Wf(c, capacity)
    requires |Elems(Keys(e))| <= capacity
    ensures forall j :: j in Keys(e) ==> Lookup(PutMany(c, capacity, e), j) == Some(LastValue(e, j))
  {
    var r := PutMany(c, capacity, e);
    var m := MostRecentFirst(Keys(e));
    PutManyOrder(c, capacity, e);
    PutManyWf(c, capacity, e);
    PutManyValues(c, capacity, e);
    NoDupCard(m);
    assert Elems(m) == Elems(Keys(e));
    forall j | j in Keys(e) ensures j in r.store {
      var i :| 0 <= i < |m| && m[i] == j;
      assert r.order[i] == j;
    }
  }

  /** The capacity invariant of a cache that starts empty: after any series of
      Set calls it holds exactly the max(capacity, 1) most recently written
      keys, most recent first. */
  lemma FreshCacheKeepsMostRecent<V>(capacity: int, e: seq<(string, V)>)
    ensures PutMany(CacheState(map[], []), capacity, e).order == Take(MostRecentFirst(Keys(e)), Bound(capacity))
  {
    PutManyOrder(CacheState(map[], []), capacity, e);
    assert Except([], Elems(Keys(e))) == [];
    assert MostRecentFirst(Keys(e)) + [] == MostRecentFirst(Keys(e));
  }

  /** The recency list is a fixed point of replaying the same Set calls. */
  lemma PutManyOrderIdempotent<V>(c: CacheState<V>, capacity: int, e: seq<(string, V)>)
    requires Wf(c, capacity)
    ensures PutMany(PutMany(c, capacity, e), capacity, e).order == PutMany(c, capacity, e).order
  {
    var ks := Elems(Keys(e));
    var m := MostRecentFirst(Keys(e));
    var rest := Except(c.order, ks);
    PutManyWf(c, capacity, e);
    PutManyOrder(c, capacity, e);
    PutManyOrder(PutMany(c, capacity, e), capacity, e);
    TakeExceptFixpoint(m, rest, ks, Bound(capacity));
  }

  /** Replaying the same series of Set calls a second time changes nothing. */
  lemma PutManyIdempotent<V>(c: CacheState<V>, capacity: int, e: seq<(string, V)>)
    requires Wf(c, capacity)
    ensures PutMany(PutMany(c, capacity, e), capacity, e) == PutMany(c, capacity, e)
  {
    var c1 := PutMany(c, capacity, e);
    var c2 := PutMany(c1, capacity, e);
    PutManyWf(c, capacity, e);
    PutManyWf(c1, capacity, e);
    PutManyOrderIdempotent(c, capacity, e);
    assert c2.store.Keys == c1.store.Keys;
    PutManyValues(c, capacity, e);
    PutManyValues(c1, capacity, e);
    assert c2.store == c1.store;
  }

  /** The first two steps of the least-recently-used example: two Sets of
      distinct keys into an empty cache of capacity 2 leave the second key the
      more recent. */
  lemma EvictionFirstTwo<V>(a: string, b: string, va: V, vb: V)
    requires a != b
    ensures Put(Put(CacheState(map[], []), 2, a, va), 2, b, vb) == CacheState(map[a := va, b := vb], [b, a])
    ensures Wf(CacheState(map[a := va, b := vb], [b, a]), 2)
  {
    var c0: CacheState<V> := CacheState(map[], []);
    PutInserts(c0, 2, a, va);
    PutWf(c0, 2, a, va);
    PutInserts(Put(c0, 2, a, va), 2, b, vb);
    PutWf(Put(c0, 2, a, va), 2, b, vb);
  }

  /** The least-recently-used example: with capacity 2, Set a, Set b, Get a,
      Set c evicts b, the least recently used key, and keeps a and c. */
  lemma EvictionTrace<V>(a: string, b: string, c: string, va: V, vb: V, vc: V)
    requires a != b && b != c && a != c
    ensures var s := Put(Touch(Put(Put(CacheState(map[], []), 2, a, va), 2, b, vb), a), 2, c, vc);
      && Lookup(s, a) == Some(va) && Lookup(s, b) == None && Lookup(s, c) == Some(vc)
      && s.order == [c, a]
  {
    EvictionFirstTwo(a, b, va, vb);
    var c2 := CacheState(map[a := va, b := vb], [b, a]);
    TouchHit(c2, 2, 1);
    var c3 := CacheState(c2.store, [a, b]);
    assert Touch(c2, a) == c3 by {
      assert [c2.order[1]] + c2.order[..1] + c2.order[2..] == [a, b];
    }
    PutEvicts(c3, 2, c, vc);
    assert [c] + c3.order[..1] == [c, a];
  }

  /** The same example run on a MemoryCache. */
  method EvictionExample() returns (a: Option<int>, b: Option<int>, c: Option<int>)
    ensures a == Some(1) && b == None && c == Some(3)
  {
    var m := new MemoryCache<int>(2);
    m.Set("a", 1);
    m.Set("b", 2);
    var _ := m.Get("a");
    m.Set("c", 3);
    EvictionTrace("a", "b", "c", 1, 2, 3);
    c := m.Get("c");
    b := m.Get("b");
    a := m.Get("a");
  }
}
