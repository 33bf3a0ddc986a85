/** The promise-based Redis wrapper of the cache module
    (src/cache/redis-cache.service.ts), over the abstract server of `Redis`. */
module CacheRedis {
  import opened Outcomes
  import opened Redis

  const DefaultTtl: int := 60
  const SetRejection: string := "Error while setting the record in redis database"

  /** Fault inputs of a write that issues `HMSET` and then `EXPIRE`. */
  datatype HashWriteFaults = HashWriteFaults(hmset: bool, expire: bool)

  /** `recordExists(key)`: the truthiness of `EXISTS`; a client error is not caught. */
  function RecordExistsOutcome(s: RedisState, key: string, fail: bool): Settled<bool>
  {
    match ExistsOp(s, key, fail)
    case Ok(n) => Resolved(n != 0)
    case Failed => Rejected(ClientFailure)
  }

  /** `getRecord(key)`: the reply of `GET`, `null` when the call fails. */
  function GetRecordOutcome(s: RedisState, key: string, fail: bool): Settled<Option<string>>
  {
    match GetOp(s, key, fail)
    case Ok(v) => Resolved(v)
    case Failed => Resolved(None)
  }

  /** `setRecord(key, value, ttl)`: `SET key value EX ttl`, then true; a client
      error becomes a rejection. */
  function SetRecordOutcome(s: RedisState, key: string, value: string, ttl: int, fail: bool)
    : Effect<Settled<bool>, RedisState>
  {
    var written := SetOp(s, key, value, Some(ttl), fail);
    if written.reply.Failed? then Effect(Rejected(Message(SetRejection)), s)
    else Effect(Resolved(true), written.state)
  }

  /** `setHash(key, value, ttl)`: `HMSET` of the flattened entries, then
      `EXPIRE key ttl`, then true; a failure of either call rejects, and a
      failed `EXPIRE` leaves the fields written. */
  function SetHashOutcome(s: RedisState, key: string, entries: Entries, ttl: int, faults: HashWriteFaults)
    : Effect<Settled<bool>, RedisState>
  {
    var hm := HmSetOp(s, key, Flatten(entries), faults.hmset);
    if hm.reply.Failed? then Effect(Rejected(Message(SetRejection)), s)
    else
      var ex := ExpireOp(hm.state, key, ttl, faults.expire);
      if ex.reply.Failed? then Effect(Rejected(Message(SetRejection)), hm.state)
      else Effect(Resolved(true), ex.state)
  }

  /** `getHash(key)`: the reply of `HGETALL`, `null` when the call fails. */
  function GetHashOutcome(s: RedisState, key: string, fail: bool): Settled<Option<map<string, string>>>
  {
    match HGetAllOp(s, key, fail)
    case Ok(f) => Resolved(Some(f))
    case Failed => Resolved(None)
  }

  /** `recordExists` answers whether the key is stored, and rejects exactly when the client fails. */
  lemma RecordExistsMeaning(s: RedisState, key: string, fail: bool)
    ensures RecordExistsOutcome(s, key, fail) == if fail then Rejected(ClientFailure) else Resolved(key in s.store)
  {
  }

  /** `getRecord` never rejects; it yields a value exactly when the key holds
      that string and the call succeeds. */
  lemma GetRecordMeaning(s: RedisState, key: string, fail: bool)
    ensures GetRecordOutcome(s, key, fail).Resolved?
    ensures forall v :: GetRecordOutcome(s, key, fail) == Resolved(Some(v)) <==>
      (!fail && key in s.store && s.store[key] == Str(v))
  {
  }

  /** `setRecord` settles with true or a rejection, never false; on success the
      key holds the value with expiry `ttl`, on failure nothing changed. */
  lemma SetRecordMeaning(s: RedisState, key: string, value: string, ttl: int, fail: bool)
    ensures var e := SetRecordOutcome(s, key, value, ttl, fail);
      && (e.result == Resolved(true) || e.result == Rejected(Message(SetRejection)))
      && (e.result == Resolved(true) <==> !fail && ttl > 0)
      && (e.result.Resolved? ==>
            e.state.store == s.store[key := Str(value)] && e.state.ttl == s.ttl[key := ttl])
      && (e.result.Rejected? ==> e.state == s)
  {
  }

  /** `setHash` with a positive expiry (60 seconds by default): when both calls
      succeed on a key that holds no string, the key holds a hash updated by the
      entries and expires after `ttl`; every other key is untouched. */
  lemma SetHashSuccess(s: RedisState, key: string, entries: Entries, ttl: int)
    requires |entries| > 0 && ttl > 0
    requires key !in s.store || s.store[key].Hash?
    ensures var e := SetHashOutcome(s, key, entries, ttl, HashWriteFaults(false, false));
      var old_fields := if key in s.store then s.store[key].fields else map[];
      && e.result == Resolved(true)
      && e.state.store == s.store[key := Hash(old_fields + ToMap(entries))]
      && e.state.ttl == s.ttl[key := ttl]
  {
    HmSetEntries(s, key, entries);
  }

  /** `setHash` settles with true or a rejection, never false; a rejection
      after a successful `HMSET` keeps the written fields (no rollback), and a
      failed `HMSET` changes nothing. */
  lemma SetHashFailures(s: RedisState, key: string, entries: Entries, ttl: int, faults: HashWriteFaults)
    ensures var e := SetHashOutcome(s, key, entries, ttl, faults);
      && (e.result == Resolved(true) || e.result == Rejected(Message(SetRejection)))
      && (faults.hmset ==> e.result.Rejected? && e.state == s)
      && (!faults.hmset && faults.expire ==> e.result.Rejected? && e.state == HmSetOp(s, key, Flatten(entries), false).state)
  {
  }

  /** `getHash` never rejects; it yields the stored fields of a hash, `{}` for a
      missing key, and `null` for a string key or a failed call. */
  lemma GetHashMeaning(s: RedisState, key: string, fail: bool)
    ensures var r := GetHashOutcome(s, key, fail);
      && r.Resolved?
      && (r.value.Some? <==> !fail && (key !in s.store || s.store[key].Hash?))
      && (r.value.Some? && key in s.store ==> r.value.value == s.store[key].fields)
      && (r.value.Some? && key !in s.store ==> r.value.value == map[])
  {
  }

  class RedisCacheService {
    const client: RedisClient

    constructor (client: RedisClient)
      ensures this.client == client
    {
      this.client := client;
    }

    method RecordExists(key: string, fail: bool) returns (r: Settled<bool>)
      ensures r == RecordExistsOutcome(client.state, key, fail)
    {
      var n := client.Exists(key, fail);
      if n.Failed? {
        r := Rejected(ClientFailure);
      } else {
        r := Resolved(n.value != 0);
      }
    }

    method GetRecord(key: string, fail: bool) returns (r: Settled<Option<string>>)
      ensures r == GetRecordOutcome(client.state, key, fail)
    {
      var v := client.Get(key, fail);
      if v.Failed? {
        r := Resolved(None);
      } else {
        r := Resolved(v.value);
      }
    }

    method SetRecord(key: string, value: string, ttl: int, fail: bool) returns (r: Settled<bool>)
      modifies client
      ensures Effect(r, client.state) == SetRecordOutcome(old(client.state), key, value, ttl, fail)
    {
      var ok := client.Set(key, value, Some(ttl), fail);
      if ok.Failed? {
        r := Rejected(Message(SetRejection));
      } else {
        r := Resolved(true);
      }
    }

    method SetHash(key: string, entries: Entries, ttl: int, faults: HashWriteFaults) returns (r: Settled<bool>)
      modifies client
      ensures Effect(r, client.state) == SetHashOutcome(old(client.state), key, entries, ttl, faults)
    {
      var flattened := Flatten(entries);
      var written := client.HmSet(key, flattened, faults.hmset);
      if written.Failed? {
        return Rejected(Message(SetRejection));
      }
      var expired := client.Expire(key, ttl, faults.expire);
      if expired.Failed? {
        return Rejected(Message(SetRejection));
      }
      r := Resolved(true);
    }

    method GetHash(key: string, fail: bool) returns (r: Settled<Option<map<string, string>>>)
      ensures r == GetHashOutcome(client.state, key, fail)
    {
      var fields := client.HGetAll(key, fail);
      if fields.Failed? {
        r := Resolved(None);
      } else {
        r := Resolved(Some(fields.value));
      }
    }
  }
}
