/** The FluxCache facade (pkg/fluxcache/fluxcache.go): which tier each
    operation touches, in which order, and what the memory tier holds when
    the remote tier fails. */
module Flux {
  import opened Base
  import opened Decimal
  import opened Cache
  import opened Redis
  import opened Values

  class FluxCache {
    const mem: MemoryCache<Value>
    const rdb: RedisClient

    constructor (mem: MemoryCache<Value>, rdb: RedisClient)
      ensures this.mem == mem && this.rdb == rdb
    {
      this.mem := mem;
      this.rdb := rdb;
    }

    /** Set: the value goes into memory first and stays there whatever
        happens next; then its encoding is written to the remote tier, which
        an encoding failure never reaches. */
    method Set(key: string, value: Value) returns (err: Option<Error>)
      requires mem.Valid()
      modifies mem, rdb.server
      ensures mem.Valid()
      ensures mem.State() == Put(old(mem.State()), mem.capacity, key, value)
      ensures Encode(value).Failure? ==> err == Some(Unencodable) && unchanged(rdb.server)
      ensures Encode(value).Success? ==>
        var req := SetReq(key, Encode(value).value);
        var run := old(rdb.Upcoming(req));
        && err == ErrorOf(run.result)
        && rdb.server.data == run.data
        && rdb.server.log == old(rdb.server.log) + Repeat(req, run.calls)
    {
      mem.Set(key, value);
      var payload := Encode(value);
      if payload.Failure? {
        return Some(payload.error);
      }
      err := rdb.Set(key, payload.value);
    }

    /** Get: a memory hit is returned without asking the remote tier; a miss
        asks it, and stores the raw bytes in memory only when it answers. */
    method Get(key: string) returns (r: Result<Value>)
      requires mem.Valid() && rdb.server.Redis()
      modifies mem, rdb.server
      ensures mem.Valid()
      ensures var hit := Lookup(old(mem.State()), key);
        hit.Some? ==>
          && r == Success(hit.value)
          && mem.State() == Touch(old(mem.State()), key)
          && unchanged(rdb.server)
      ensures Lookup(old(mem.State()), key).None? ==>
        var run := old(rdb.Upcoming(GetReq(key)));
        && rdb.server.data == old(rdb.server.data)
        && rdb.server.log == old(rdb.server.log) + Repeat(GetReq(key), run.calls)
        && (run.result.Failure? ==> r == Failure(run.result.error) && mem.State() == old(mem.State()))
        && (run.result.Success? ==>
              && key in old(rdb.server.data)
              && r == Success(Bytes(old(rdb.server.data)[key]))
              && mem.State() == Put(old(mem.State()), mem.capacity, key, r.value))
      ensures r.Failure? ==> r.error == NotFound || r.error.Unavailable?
    {
      var val := mem.Get(key);
      if val.Some? {
        return Success(val.value);
      }
      var b := rdb.Get(key);
      if b.Failure? {
        return Failure(b.error);
      }
      mem.Set(key, Bytes(b.value));
      return Success(Bytes(b.value));
    }

    /** IncrInt: the remote counter first; memory gets the new integer only
        when the remote tier answers, and stays as it was otherwise. */
    method IncrInt(key: string, delta: int64) returns (r: Result<int64>)
      requires mem.Valid() && rdb.server.Redis()
      modifies mem, rdb.server
      ensures mem.Valid()
      ensures var run := old(rdb.Upcoming(IncrByReq(key, delta)));
        && rdb.server.data == run.data
        && rdb.server.log == old(rdb.server.log) + Repeat(IncrByReq(key, delta), run.calls)
        && (run.result.Failure? ==> r == Failure(run.result.error) && mem.State() == old(mem.State()))
        && (run.result.Success? ==>
              && run.result.value.Number?
              && r == Success(run.result.value.n)
              && mem.State() == Put(old(mem.State()), mem.capacity, key, Int(r.value)))
    {
      var newVal := rdb.IncrBy(key, delta);
      if newVal.Failure? {
        return Failure(newVal.error);
      }
      mem.Set(key, Int(newVal.value));
      return Success(newVal.value);
    }

    /** SetProto, from the outcome of marshalling the message on: a failed
        marshal touches neither tier, a successful one is a Set of bytes. */
    method SetProto(key: string, marshalled: Result<seq<byte>>) returns (err: Option<Error>)
      requires mem.Valid()
      modifies mem, rdb.server
      ensures mem.Valid()
      ensures marshalled.Failure? ==>
        err == Some(marshalled.error) && unchanged(mem) && unchanged(rdb.server)
      ensures marshalled.Success? ==>
        var req := SetReq(key, marshalled.value);
        var run := old(rdb.Upcoming(req));
        && mem.State() == Put(old(mem.State()), mem.capacity, key, Bytes(marshalled.value))
        && err == ErrorOf(run.result)
        && rdb.server.data == run.data
        && rdb.server.log == old(rdb.server.log) + Repeat(req, run.calls)
    {
      if marshalled.Failure? {
        return Some(marshalled.error);
      }
      err := Set(key, Bytes(marshalled.value));
    }

    /** GetProto up to the unmarshalling: the bytes to decode, or an error.
        The value-is-not-bytes error comes exactly from a memory hit on a
        value that was not stored as bytes. */
    method GetProto(key: string) returns (r: Result<seq<byte>>)
      requires mem.Valid() && rdb.server.Redis()
      modifies mem, rdb.server
      ensures mem.Valid()
      ensures var hit := Lookup(old(mem.State()), key);
        hit.Some? ==>
          && r == (if hit.value.Bytes? then Success(hit.value.bytes) else Failure(NotBytes))
          && mem.State() == Touch(old(mem.State()), key)
          && unchanged(rdb.server)
      ensures Lookup(old(mem.State()), key).None? ==>
        var run := old(rdb.Upcoming(GetReq(key)));
        && rdb.server.data == old(rdb.server.data)
        && rdb.server.log == old(rdb.server.log) + Repeat(GetReq(key), run.calls)
        && (run.result.Failure? ==> r == Failure(run.result.error) && mem.State() == old(mem.State()))
        && (run.result.Success? ==>
              && key in old(rdb.server.data)
              && r == Success(old(rdb.server.data)[key])
              && mem.State() == Put(old(mem.State()), mem.capacity, key, Bytes(r.value)))
      ensures r == Failure(NotBytes) <==>
        var hit := Lookup(old(mem.State()), key);
        hit.Some? && !hit.value.Bytes?
    {
      var val := Get(key);
      if val.Failure? {
        return Failure(val.error);
      }
      if !val.value.Bytes? {
        return Failure(NotBytes);
      }
      return Success(val.value.bytes);
    }

    /** Delete: the key leaves memory whatever the remote tier answers, and
        the remote error is returned. */
    method Delete(key: string) returns (err: Option<Error>)
      requires mem.Valid()
      modifies mem, rdb.server
      ensures mem.Valid()
      ensures mem.State() == Remove(old(mem.State()), key)
      ensures var run := old(rdb.Upcoming(DelReq(key)));
        && err == ErrorOf(run.result)
        && rdb.server.data == run.data
        && rdb.server.log == old(rdb.server.log) + Repeat(DelReq(key), run.calls)
    {
      mem.Delete(key);
      err := rdb.Delete(key);
    }
  }

  /** The remote text of a stored value as INCRBY reads it: an Int is its own
      counter, a Bool counts 0 or 1, a Uint above the int64 range is not a
      counter at all. */
  lemma CounterOfEncoded(data: map<string, seq<byte>>, key: string, v: Value)
    requires Encode(v).Success?
    ensures var c := Counter(data[key := Encode(v).value], key);
      && (v.Int? ==> c == Some(v.i))
      && (v.Uint? ==> c == if InInt64(v.u) then Some(v.u) else None)
      && (v.Bool? ==> c == Some(if v.b then 1 else 0))
  {
    if v.Bool? {
      assert Denotes([ZERO + 1]) == 1 by {
        assert [ZERO + 1][..0] == [];
      }
      assert Denotes([ZERO]) == 0 by {
        assert [ZERO][..0] == [];
      }
    }
  }
}
