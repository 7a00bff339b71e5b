/** The reconciliation sweep (internal/syncer/syncer.go): scan the remote
    keys, fetch each one and write what was fetched into the memory tier. */
module Syncer {
  import opened Base
  import opened Seqs
  import opened Cache
  import opened Redis
  import opened Values

  /** The retried GETs of a sweep: one reply per key, the data afterwards and
      every attempt sent. */
  datatype Fetch = Fetch(replies: seq<Result<Reply>>, data: map<string, seq<byte>>, sent: seq<Request>)

  /** One more retried GET, of `key`, after those of `f`, the server having
      logged `log` before the first of them. */
  function FetchStep(exec: Exec, links: Links, log: seq<Request>, f: Fetch, key: string): (g: Fetch)
    ensures |g.replies| == |f.replies| + 1
  {
    var req := GetReq(key);
    var run := WithRetrySpec(exec, links, f.data, |log + f.sent|, req);
    Fetch(f.replies + [run.result], run.data, f.sent + Repeat(req, run.calls))
  }

  /** Retried GETs of `keys` in order against a server holding `data` that
      has logged `log`. */
  function FetchAll(exec: Exec, links: Links, data: map<string, seq<byte>>, log: seq<Request>, keys: seq<string>): (f: Fetch)
    ensures |f.replies| == |keys|
    decreases |keys|
  {
    if keys == [] then Fetch([], data, [])
    else FetchStep(exec, links, log, FetchAll(exec, links, data, log, keys[..|keys| - 1]), Last(keys))
  }

  /** A GET that answered with stored bytes. */
  predicate Answered(reply: Result<Reply>) {
    reply.Success? && reply.value.Bulk?
  }

  /** What a fetched reply puts into memory: the raw bytes of an answered GET,
      nothing for a failed one. */
  function Entry(key: string, reply: Result<Reply>): (e: seq<(string, Value)>)
    ensures |e| <= 1
    ensures e != [] <==> Answered(reply)
    ensures e != [] ==> e[0] == (key, Bytes(reply.value.bytes))
  {
    if Answered(reply) then [(key, Bytes(reply.value.bytes))] else []
  }

  /** The positions of the answered GETs, in increasing order. */
  function Positions(replies: seq<Result<Reply>>): (p: seq<nat>)
    ensures forall i :: 0 <= i < |p| ==> p[i] < |replies| && Answered(replies[p[i]])
    ensures forall i, j :: 0 <= i < j < |p| ==> p[i] < p[j]
    ensures forall j :: 0 <= j < |replies| && Answered(replies[j]) ==> j in p
    decreases |replies|
  {
    if replies == [] then []
    else
      var n := |replies| - 1;
      var q := Positions(replies[..n]);
      assert forall j :: 0 <= j < n ==> replies[..n][j] == replies[j];
      q + (if Answered(replies[n]) then [n] else [])
  }

  /** The Set calls of the sweep, in scan order. */
  function Loaded(keys: seq<string>, replies: seq<Result<Reply>>): (e: seq<(string, Value)>)
    requires |keys| == |replies|
    ensures |e| <= |keys|
    ensures forall i :: 0 <= i < |e| ==> e[i].0 in keys && e[i].1.Bytes?
    decreases |keys|
  {
    if keys == [] then []
    else
      var n := |keys| - 1;
      Loaded(keys[..n], replies[..n]) + Entry(keys[n], replies[n])
  }

  /** The Set calls of a sweep are exactly one per answered GET, in scan
      order, each of its own key and the bytes that GET returned. */
  lemma {:induction false} LoadedAt(keys: seq<string>, replies: seq<Result<Reply>>)
    requires |keys| == |replies|
    ensures var e := Loaded(keys, replies);
      var p := Positions(replies);
      && |e| == |p|
      && forall i :: 0 <= i < |e| ==> e[i] == (keys[p[i]], Bytes(replies[p[i]].value.bytes))
    decreases |keys|
  {
    if keys != [] {
      var n := |keys| - 1;
      LoadedAt(keys[..n], replies[..n]);
      var e0 := Loaded(keys[..n], replies[..n]);
      var p0 := Positions(replies[..n]);
      var e := Loaded(keys, replies);
      var p := Positions(replies);
      assert p == p0 + (if Answered(replies[n]) then [n] else []);
      forall i | 0 <= i < |e|
        ensures e[i] == (keys[p[i]], Bytes(replies[p[i]].value.bytes))
      {
        if i < |e0| {
          assert e[i] == e0[i] && p[i] == p0[i];
          assert keys[..n][p0[i]] == keys[p0[i]] && replies[..n][p0[i]] == replies[p0[i]];
        }
      }
    }
  }

  /** Every request of `sent` is a GET of one of `keys`. */
  predicate GetsOf(sent: seq<Request>, keys: seq<string>) {
    forall i :: 0 <= i < |sent| ==> sent[i].GetReq? && sent[i].key in keys
  }

  /** Every attempt of the retried GETs is a GET of one of the keys. */
  lemma {:induction false} FetchSends(exec: Exec, links: Links, data: map<string, seq<byte>>, log: seq<Request>, keys: seq<string>)
    ensures GetsOf(FetchAll(exec, links, data, log, keys).sent, keys)
    decreases |keys|
  {
    if keys != [] {
      var n := |keys| - 1;
      var f0 := FetchAll(exec, links, data, log, keys[..n]);
      FetchSends(exec, links, data, log, keys[..n]);
      var run := WithRetrySpec(exec, links, f0.data, |log + f0.sent|, GetReq(keys[n]));
      var f := FetchAll(exec, links, data, log, keys);
      assert f.sent == f0.sent + Repeat(GetReq(keys[n]), run.calls);
      forall i | 0 <= i < |f.sent|
        ensures f.sent[i].GetReq? && f.sent[i].key in keys
      {
        if i < |f0.sent| {
          assert f.sent[i] == f0.sent[i];
          assert f0.sent[i].key in keys[..n];
        } else {
          assert f.sent[i] == GetReq(keys[n]);
        }
      }
    }
  }

  /** The memory state, remote data and attempts of one sweep. */
  datatype Sweep = Sweep(cache: CacheState<Value>, data: map<string, seq<byte>>, sent: seq<Request>)

  /** The rest of a sweep once its scan has run, the server having logged
      `log` before it: nothing more when the scan failed, otherwise the
      retried GETs of the scanned keys and the Set of every answered one. */
  function SweepAfter(c: CacheState<Value>, capacity: int, exec: Exec, links: Links,
                      data: map<string, seq<byte>>, log: seq<Request>, scan: ScanRun): (s: Sweep)
    ensures scan.result.Failure? ==> s == Sweep(c, data, scan.sent)
    ensures |scan.sent| <= |s.sent| && s.sent[..|scan.sent|] == scan.sent
  {
    if scan.result.Failure? then Sweep(c, data, scan.sent)
    else
      var keys := scan.result.value;
      var f := FetchAll(exec, links, data, log + scan.sent, keys);
      var e := Loaded(keys, f.replies);
      assert (scan.sent + f.sent)[..|scan.sent|] == scan.sent;
      Sweep(PutMany(c, capacity, e), f.data, scan.sent + f.sent)
  }

  /** After a successful scan, every request the sweep sends is a GET of a
      scanned key. */
  lemma SweepAfterSends(c: CacheState<Value>, capacity: int, exec: Exec, links: Links,
                        data: map<string, seq<byte>>, log: seq<Request>, scan: ScanRun)
    requires scan.result.Success?
    ensures var s := SweepAfter(c, capacity, exec, links, data, log, scan);
      GetsOf(s.sent[|scan.sent|..], scan.result.value)
  {
    var f := FetchAll(exec, links, data, log + scan.sent, scan.result.value);
    FetchSends(exec, links, data, log + scan.sent, scan.result.value);
    assert (scan.sent + f.sent)[|scan.sent|..] == f.sent;
  }

  /** One SyncFromRedis from memory state `c` against a server holding `data`
      that has logged `log`. */
  function SweepSpec(c: CacheState<Value>, capacity: int, exec: Exec, pages: Pages, links: Links,
                     data: map<string, seq<byte>>, log: seq<Request>, pattern: string, depth: nat): (s: Sweep)
    requires Ends(pages, pattern, 0, depth)
    ensures s.sent != [] && s.sent[0] == ScanReq(0, pattern)
    ensures ScanFrom(pages, links, |log|, pattern, 0, [], depth).result.Failure? ==> s.cache == c && s.data == data
  {
    SweepAfter(c, capacity, exec, links, data, log, ScanFrom(pages, links, |log|, pattern, 0, [], depth))
  }

  lemma FetchSnoc(exec: Exec, links: Links, data: map<string, seq<byte>>, log: seq<Request>, keys: seq<string>, k: string)
    ensures FetchAll(exec, links, data, log, keys + [k]) == FetchStep(exec, links, log, FetchAll(exec, links, data, log, keys), k)
  {
    assert (keys + [k])[..|keys|] == keys;
  }

  lemma LoadedSnoc(keys: seq<string>, replies: seq<Result<Reply>>, k: string, r: Result<Reply>)
    requires |keys| == |replies|
    ensures Loaded(keys + [k], replies + [r]) == Loaded(keys, replies) + Entry(k, r)
  {
    assert (keys + [k])[..|keys|] == keys;
    assert (replies + [r])[..|replies|] == replies;
  }

  /** Proof helper: concatenation of request logs is associative. */
  lemma AppendAssoc(a: seq<Request>, b: seq<Request>, c: seq<Request>)
    ensures (a + b) + c == a + (b + c)
  {
  }

  /** No attempt from number `n` on meets a fault. */
  ghost predicate Healthy(links: Links, n: nat) {
    forall i :: n <= i ==> LinkAt(links, i) == Up
  }

  /** What a GET of `key` answers when it reaches the server. */
  function Fetched(data: map<string, seq<byte>>, key: string): (r: Result<Reply>)
    ensures r.Success? <==> key in data
  {
    if key in data then Success(Bulk(data[key])) else Failure(NotFound)
  }

  /** The stored keys among `keys`, in order, each with its bytes: the Set
      calls of a sweep that meets no fault. */
  function Present(data: map<string, seq<byte>>, keys: seq<string>): (e: seq<(string, Value)>)
    decreases |keys|
  {
    if keys == [] then []
    else
      var n := |keys| - 1;
      Present(data, keys[..n]) + (if keys[n] in data then [(keys[n], Bytes(data[keys[n]]))] else [])
  }

  /** Over a healthy network the GETs of a sweep change nothing and each
      reports exactly what the server holds for its key. */
  lemma {:induction false} FetchHealthy(exec: Exec, pages: Pages, links: Links, data: map<string, seq<byte>>,
                                        log: seq<Request>, keys: seq<string>)
    requires IsRedis(exec, pages) && Healthy(links, |log|)
    ensures var f := FetchAll(exec, links, data, log, keys);
      && f.data == data
      && forall i :: 0 <= i < |keys| ==> f.replies[i] == Fetched(data, keys[i])
    decreases |keys|
  {
    if keys != [] {
      var n := |keys| - 1;
      var prev := FetchAll(exec, links, data, log, keys[..n]);
      FetchHealthy(exec, pages, links, data, log, keys[..n]);
      var m := |log + prev.sent|;
      assert exec(data, GetReq(keys[n])) == Execute(data, pages, GetReq(keys[n]));
      RetryHealthy(exec, links, data, m, GetReq(keys[n]), MaxAttempts, None);
      var f := FetchAll(exec, links, data, log, keys);
      assert f.replies == prev.replies + [Fetched(data, keys[n])];
      forall i | 0 <= i < |keys|
        ensures f.replies[i] == Fetched(data, keys[i])
      {
        if i < n {
          assert keys[..n][i] == keys[i];
        }
      }
    }
  }

  /** What the Set calls of a sweep hold when every GET reported the stored
      bytes or a miss. */
  lemma {:induction false} LoadedPresent(data: map<string, seq<byte>>, keys: seq<string>, replies: seq<Result<Reply>>)
    requires |keys| == |replies|
    requires forall i :: 0 <= i < |keys| ==> replies[i] == Fetched(data, keys[i])
    ensures Loaded(keys, replies) == Present(data, keys)
    decreases |keys|
  {
    if keys != [] {
      var n := |keys| - 1;
      forall i | 0 <= i < n
        ensures replies[..n][i] == Fetched(data, keys[..n][i])
      {
        assert replies[..n][i] == replies[i];
      }
      LoadedPresent(data, keys[..n], replies[..n]);
    }
  }

  /** Every entry of `Present` is a stored key among `keys` with its bytes,
      and every stored key among `keys` has one. */
  lemma {:induction false} PresentEntries(data: map<string, seq<byte>>, keys: seq<string>)
    ensures forall i :: 0 <= i < |Present(data, keys)| ==>
      var (k, v) := Present(data, keys)[i];
      k in keys && k in data && v == Bytes(data[k])
    ensures forall k :: k in keys && k in data ==> k in Keys(Present(data, keys))
    ensures Elems(Keys(Present(data, keys))) <= Elems(keys)
    decreases |keys|
  {
    if keys != [] {
      var n := |keys| - 1;
      PresentEntries(data, keys[..n]);
      var e := Present(data, keys);
      var init := Present(data, keys[..n]);
      assert keys == keys[..n] + [keys[n]];
      forall i | 0 <= i < |e|
        ensures var (k, v) := e[i]; k in keys && k in data && v == Bytes(data[k])
      {
        if i < |init| {
          assert e[i] == init[i];
        }
      }
      forall k | k in keys && k in data
        ensures k in Keys(e)
      {
        if k != keys[n] {
          var j :| 0 <= j < |init| && Keys(init)[j] == k;
          assert Keys(e)[j] == k;
        } else {
          assert Keys(e)[|e| - 1] == k;
        }
      }
      forall k | k in Elems(Keys(e))
        ensures k in Elems(keys)
      {
        var j :| 0 <= j < |e| && Keys(e)[j] == k;
        assert e[j].0 in keys;
      }
    }
  }

  /** A sweep over a healthy network loads exactly the stored keys among
      those the SCAN iteration visits, and leaves the data as it was. */
  lemma SweepHealthy(c: CacheState<Value>, capacity: int, exec: Exec, pages: Pages, links: Links,
                     data: map<string, seq<byte>>, log: seq<Request>, pattern: string, depth: nat)
    requires IsRedis(exec, pages) && Ends(pages, pattern, 0, depth) && Healthy(links, |log|)
    ensures var s := SweepSpec(c, capacity, exec, pages, links, data, log, pattern, depth);
      && s.cache == PutMany(c, capacity, Present(data, Collect(pages, pattern, 0, depth)))
      && s.data == data
  {
    var scan := ScanFrom(pages, links, |log|, pattern, 0, [], depth);
    ScanHealthy(pages, links, |log|, pattern, 0, [], depth);
    var keys := Collect(pages, pattern, 0, depth);
    assert scan.result == Success(keys) by {
      assert [] + keys == keys;
    }
    SweepAfterHealthy(c, capacity, exec, pages, links, data, log, scan, keys);
  }

  /** The fetch-and-load half of a healthy sweep whose scan found `keys`. */
  lemma SweepAfterHealthy(c: CacheState<Value>, capacity: int, exec: Exec, pages: Pages, links: Links,
                          data: map<string, seq<byte>>, log: seq<Request>, scan: ScanRun, keys: seq<string>)
    requires IsRedis(exec, pages) && Healthy(links, |log|) && scan.result == Success(keys)
    ensures var s := SweepAfter(c, capacity, exec, links, data, log, scan);
      && s.cache == PutMany(c, capacity, Present(data, keys))
      && s.data == data
  {
    var f := FetchAll(exec, links, data, log + scan.sent, keys);
    assert Healthy(links, |log + scan.sent|);
    FetchHealthy(exec, pages, links, data, log + scan.sent, keys);
    LoadedPresent(data, keys, f.replies);
  }

  lemma {:induction false} SubsetCard(a: set<string>, b: set<string>)
    requires a <= b
    ensures |a| <= |b|
  {
    assert b == a + (b - a);
  }

  /** Setting the stored keys among `keys` one after the other leaves each
      of them in memory with its bytes, as long as `keys` has no more
      distinct keys than the memory tier holds. */
  lemma PresentResident(c: CacheState<Value>, capacity: int, data: map<string, seq<byte>>, keys: seq<string>)
    requires Wf(c, capacity) && |Elems(keys)| <= capacity
    ensures forall k :: k in keys && k in data ==>
      Lookup(PutMany(c, capacity, Present(data, keys)), k) == Some(Bytes(data[k]))
  {
    var e := Present(data, keys);
    PresentEntries(data, keys);
    SubsetCard(Elems(Keys(e)), Elems(keys));
    PutManyResident(c, capacity, e);
    forall k | k in keys && k in data
      ensures LastValue(e, k) == Bytes(data[k])
    {
      LastValueAgrees(e, k, Bytes(data[k]));
    }
  }

  /** After a sweep over a healthy network that visits no more distinct keys
      than the memory tier holds, every visited key that the server stores
      is in memory with the server's bytes. */
  lemma SweepLoadsStored(c: CacheState<Value>, capacity: int, exec: Exec, pages: Pages, links: Links,
                         data: map<string, seq<byte>>, log: seq<Request>, pattern: string, depth: nat)
    requires IsRedis(exec, pages) && Ends(pages, pattern, 0, depth) && Healthy(links, |log|)
    requires Wf(c, capacity) && |Elems(Collect(pages, pattern, 0, depth))| <= capacity
    ensures var s := SweepSpec(c, capacity, exec, pages, links, data, log, pattern, depth);
      forall k :: k in Collect(pages, pattern, 0, depth) && k in data ==> Lookup(s.cache, k) == Some(Bytes(data[k]))
  {
    SweepHealthy(c, capacity, exec, pages, links, data, log, pattern, depth);
    PresentResident(c, capacity, data, Collect(pages, pattern, 0, depth));
  }

  /** Over a healthy network a second sweep finds nothing to change: the
      memory tier and the data stay as the first sweep left them. */
  lemma SweepTwice(c: CacheState<Value>, capacity: int, exec: Exec, pages: Pages, links: Links,
                   data: map<string, seq<byte>>, log: seq<Request>, pattern: string, depth: nat)
    requires IsRedis(exec, pages) && Ends(pages, pattern, 0, depth) && Healthy(links, |log|)
    requires Wf(c, capacity)
    ensures var s1 := SweepSpec(c, capacity, exec, pages, links, data, log, pattern, depth);
      var s2 := SweepSpec(s1.cache, capacity, exec, pages, links, s1.data, log + s1.sent, pattern, depth);
      s2.cache == s1.cache && s2.data == s1.data
  {
    var s1 := SweepSpec(c, capacity, exec, pages, links, data, log, pattern, depth);
    SweepHealthy(c, capacity, exec, pages, links, data, log, pattern, depth);
    SweepHealthy(s1.cache, capacity, exec, pages, links, data, log + s1.sent, pattern, depth);
    PutManyIdempotent(c, capacity, Present(data, Collect(pages, pattern, 0, depth)));
  }

  /** The fetches of a prefix of `ks` extended by one key. */
  lemma FetchNext(exec: Exec, links: Links, data: map<string, seq<byte>>, log: seq<Request>, ks: seq<string>, i: nat,
                  prev: Fetch)
    requires i < |ks| && prev == FetchAll(exec, links, data, log, ks[..i])
    ensures var run := WithRetrySpec(exec, links, prev.data, |log + prev.sent|, GetReq(ks[i]));
      && FetchAll(exec, links, data, log, ks[..i + 1])
           == Fetch(prev.replies + [run.result], run.data, prev.sent + Repeat(GetReq(ks[i]), run.calls))
      && Loaded(ks[..i + 1], prev.replies + [run.result]) == Loaded(ks[..i], prev.replies) + Entry(ks[i], run.result)
  {
    var run := WithRetrySpec(exec, links, prev.data, |log + prev.sent|, GetReq(ks[i]));
    assert ks[..i + 1] == ks[..i] + [ks[i]];
    FetchSnoc(exec, links, data, log, ks[..i], ks[i]);
    LoadedSnoc(ks[..i], prev.replies, ks[i], run.result);
  }

  /** SyncFromRedis: nothing changes in memory when the scan fails;
      otherwise each scanned key gets a retried GET, a failed one is
      skipped, and each fetched value is written to memory as raw bytes, in
      scan order. */
  method SyncFromRedis(rdb: RedisClient, mem: MemoryCache<Value>, pattern: string)
    requires rdb.server.Redis() && Ends(rdb.server.pages, pattern, 0, rdb.server.depth)
    requires mem.Valid()
    modifies rdb.server, mem
    ensures mem.Valid()
    ensures var s := old(SweepSpec(mem.State(), mem.capacity, rdb.server.exec, rdb.server.pages, rdb.server.links,
                                   rdb.server.data, rdb.server.log, pattern, rdb.server.depth));
      && mem.State() == s.cache
      && rdb.server.data == s.data
      && rdb.server.log == old(rdb.server.log) + s.sent
  {
    ghost var server := rdb.server;
    ghost var scan := rdb.UpcomingScan(pattern);
    var keys := rdb.ScanKeys(pattern);
    if keys.Failure? {
      return;
    }
    var ks := keys.value;
    ghost var c0 := mem.State();
    ghost var d0 := server.data;
    ghost var log0 := server.log;
    ghost var f := Fetch([], d0, []);
    var i := 0;
    while i < |ks|
      invariant 0 <= i <= |ks|
      invariant mem.Valid()
      invariant f == FetchAll(server.exec, server.links, d0, log0, ks[..i])
      invariant mem.State() == PutMany(c0, mem.capacity, Loaded(ks[..i], f.replies))
      invariant server.data == f.data && server.log == log0 + f.sent
    {
      var key := ks[i];
      ghost var prev := f;
      ghost var run := rdb.Upcoming(GetReq(key));
      FetchNext(server.exec, server.links, d0, log0, ks, i, prev);
      var data := rdb.Get(key);
      f := FetchAll(server.exec, server.links, d0, log0, ks[..i + 1]);
      AppendAssoc(log0, prev.sent, Repeat(GetReq(key), run.calls));
      ghost var loaded := Loaded(ks[..i], prev.replies);
      if data.Failure? {
        assert Entry(key, run.result) == [];
        assert loaded + [] == loaded;
        i := i + 1;
        continue;
      }
      assert Entry(key, run.result) == [(key, Bytes(data.value))];
      mem.Set(key, Bytes(data.value));
      PutManySnoc(c0, mem.capacity, loaded, key, Bytes(data.value));
      i := i + 1;
    }
    assert ks[..i] == ks;
    AppendAssoc(old(rdb.server.log), scan.sent, f.sent);
  }
}
