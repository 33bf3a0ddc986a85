/** The cache facade of the storage module (src/storage/redis-cache.service.ts),
    built on `RedisStorageService` and on the same Redis client. Expiry calls
    issued from `tap` are not awaited: their replies are ignored, and only
    their effect on the server is kept. */
module StorageCache {
  import opened Outcomes
  import opened Redis
  import StorageRedis

  const DefaultTtl: int := 60

  /** `getRecordFromCache(key, resetTtl, ttl)`: the record `getRecord` emits;
      when it is not `null` and `resetTtl` holds, `EXPIRE key ttl` is issued too. */
  function GetRecordFromCacheOutcome(s: RedisState, key: string, resetTtl: bool, ttl: int,
                                     getFail: bool, expireFail: bool): Effect<Settled<Option<string>>, RedisState>
  {
    var record := StorageRedis.GetRecordOutcome(s, key, getFail);
    if record.value.Some? && resetTtl then Effect(record, ExpireOp(s, key, ttl, expireFail).state)
    else Effect(record, s)
  }

  /** `getHashFromCache(key, resetTtl, ttl)` as written: it builds a pipeline
      but returns nothing, so the caller gets `undefined`; nobody subscribes,
      so no expiry is ever issued. */
  function GetHashFromCacheAsWritten(s: RedisState, key: string, resetTtl: bool, ttl: int)
    : Effect<Nullable<Settled<Option<map<string, string>>>>, RedisState>
  {
    Effect(Undefined, s)
  }

  /** `getHashFromCache` as evidently intended: like `getRecordFromCache`, the
      hash `getHash` emits, with the expiry reset when it is not `null`. */
  function GetHashFromCacheOutcome(s: RedisState, key: string, resetTtl: bool, ttl: int,
                                   getFail: bool, expireFail: bool): Effect<Settled<Option<map<string, string>>>, RedisState>
  {
    var record := StorageRedis.GetHashOutcome(s, key, getFail);
    if record.value.Some? && resetTtl then Effect(record, ExpireOp(s, key, ttl, expireFail).state)
    else Effect(record, s)
  }

  /** `setRecordInCache(key, value, ttl)` as written: `SET key value EX ttl`,
      true on success. The `catchError` selector calls `this.logger.error`,
      but this class never assigns `logger`, so on a failed `SET` the selector
      itself throws a TypeError and the observable errors with it. */
  function SetRecordInCacheOutcome(s: RedisState, key: string, value: string, ttl: int, fail: bool)
    : Effect<Settled<bool>, RedisState>
  {
    var written := SetOp(s, key, value, Some(ttl), fail);
    if written.reply.Ok? then Effect(Resolved(true), written.state)
    else Effect(Rejected(TypeError), s)
  }

  /** `setRecordInCache` as evidently intended, with a logger: false on error. */
  function SetRecordInCacheIntendedOutcome(s: RedisState, key: string, value: string, ttl: int, fail: bool)
    : Effect<Settled<bool>, RedisState>
  {
    var written := SetOp(s, key, value, Some(ttl), fail);
    Effect(Resolved(written.reply.Ok?), written.state)
  }

  /** `setHashInCache(key, value, ttl)`: what `setHash` emits; whatever it
      emits, `EXPIRE key ttl` is issued when `ttl` is not `null` (the default). */
  function SetHashInCacheOutcome(s: RedisState, key: string, entries: Entries, ttl: Option<int>,
                                 hmsetFail: bool, expireFail: bool): Effect<Settled<bool>, RedisState>
  {
    var written := StorageRedis.SetHashOutcome(s, key, entries, hmsetFail);
    if ttl.Some? then Effect(written.result, ExpireOp(written.state, key, ttl.value, expireFail).state)
    else written
  }

  /** `getRecordFromCache` emits exactly what `getRecord` emits, and never errors. */
  lemma GetRecordFromCacheResult(s: RedisState, key: string, resetTtl: bool, ttl: int, getFail: bool, expireFail: bool)
    ensures var e := GetRecordFromCacheOutcome(s, key, resetTtl, ttl, getFail, expireFail);
      && e.result == StorageRedis.GetRecordOutcome(s, key, getFail)
      && e.result.Resolved?
  {
  }

  /** A hit with `resetTtl` renews the key's expiry to `ttl`; a miss, a failed
      read or `resetTtl == false` leaves the server untouched. */
  lemma GetRecordFromCacheExpiry(s: RedisState, key: string, resetTtl: bool, ttl: int, getFail: bool, expireFail: bool)
    ensures var e := GetRecordFromCacheOutcome(s, key, resetTtl, ttl, getFail, expireFail);
      && (e.result.value.None? || !resetTtl ==> e.state == s)
      && (e.result.value.Some? && resetTtl && !expireFail && ttl > 0 ==>
            e.state.store == s.store && e.state.ttl == s.ttl[key := ttl])
  {
  }

  /** As written, `setRecordInCache` never emits false: it emits true exactly
      when the call succeeds with a positive expiry, and then the key holds the
      value and expires after `ttl`; otherwise it errors with a TypeError and
      nothing changed. */
  lemma SetRecordInCacheMeaning(s: RedisState, key: string, value: string, ttl: int, fail: bool)
    ensures var e := SetRecordInCacheOutcome(s, key, value, ttl, fail);
      && e.result == (if !fail && ttl > 0 then Resolved(true) else Rejected(TypeError))
      && (e.result.Resolved? ==> e.state.store == s.store[key := Str(value)] && e.state.ttl == s.ttl[key := ttl])
      && (e.result.Rejected? ==> e.state == s)
  {
  }

  /** As written, a `SET` with expiry 0 makes `setRecordInCache` error where
      the intended version emits false. */
  lemma SetRecordInCacheFailureErrors(s: RedisState, key: string, value: string)
    ensures SetRecordInCacheOutcome(s, key, value, 0, false) == Effect(Rejected(TypeError), s)
    ensures SetRecordInCacheIntendedOutcome(s, key, value, 0, false) == Effect(Resolved(false), s)
  {
  }

  /** The intended `setRecordInCache` never errors: true exactly when the call
      succeeds with a positive expiry, and then the key holds the value and
      expires after `ttl`; false means nothing changed. */
  lemma SetRecordInCacheIntendedMeaning(s: RedisState, key: string, value: string, ttl: int, fail: bool)
    ensures var e := SetRecordInCacheIntendedOutcome(s, key, value, ttl, fail);
      && e.result == Resolved(!fail && ttl > 0)
      && (e.result.value ==> e.state.store == s.store[key := Str(value)] && e.state.ttl == s.ttl[key := ttl])
      && (!e.result.value ==> e.state == s)
  {
  }

  /** `setHashInCache` emits what `setHash` emits; with the default `ttl` (null)
      no expiry is touched, so a new hash never expires. */
  lemma SetHashInCacheDefaultTtl(s: RedisState, key: string, entries: Entries, hmsetFail: bool, expireFail: bool)
    ensures var e := SetHashInCacheOutcome(s, key, entries, None, hmsetFail, expireFail);
      var w := StorageRedis.SetHashOutcome(s, key, entries, hmsetFail);
      && e.result == w.result
      && e.state.ttl == s.ttl
  {
    StorageRedis.SetHashMeaning(s, key, entries, hmsetFail);
  }

  /** With a positive `ttl` and successful calls, the key holds its old fields
      updated by the entries, every other key is untouched, and the hash
      expires after `ttl`. */
  lemma SetHashInCacheWithTtl(s: RedisState, key: string, entries: Entries, ttl: int)
    requires |entries| > 0 && ttl > 0
    requires key !in s.store || s.store[key].Hash?
    ensures var e := SetHashInCacheOutcome(s, key, entries, Some(ttl), false, false);
      var old_fields := if key in s.store then s.store[key].fields else map[];
      && e.result == Resolved(true)
      && e.state.store == s.store[key := Hash(old_fields + ToMap(entries))]
      && e.state.ttl == s.ttl[key := ttl]
  {
    StorageRedis.SetHashMeaning(s, key, entries, false);
  }

  /** The expiry is issued even when `setHash` emitted false: a failed write over
      a string key still renews that string's expiry. */
  lemma SetHashInCacheExpiresAfterFailure(s: RedisState, key: string, entries: Entries, ttl: int)
    requires key in s.store && s.store[key].Str? && ttl > 0
    ensures var e := SetHashInCacheOutcome(s, key, entries, Some(ttl), false, false);
      && e.result == Resolved(false)
      && e.state.store == s.store
      && e.state.ttl == s.ttl[key := ttl]
  {
  }

  /** As written, `getHashFromCache` yields `undefined` even for a stored hash,
      where the intended version yields the hash and renews its expiry. */
  lemma GetHashFromCacheDiscrepancy(s: RedisState, key: string, fields: map<string, string>)
    requires key in s.store && s.store[key] == Hash(fields)
    ensures GetHashFromCacheAsWritten(s, key, true, DefaultTtl).result == Undefined
    ensures GetHashFromCacheAsWritten(s, key, true, DefaultTtl).state == s
    ensures var e := GetHashFromCacheOutcome(s, key, true, DefaultTtl, false, false);
      e.result == Resolved(Some(fields)) && e.state.ttl == s.ttl[key := 60]
  {
  }

  /** The intended `getHashFromCache` emits what `getHash` emits and never
      errors; a hit with `resetTtl` renews the expiry, anything else changes nothing. */
  lemma GetHashFromCacheMeaning(s: RedisState, key: string, resetTtl: bool, ttl: int, getFail: bool, expireFail: bool)
    ensures var e := GetHashFromCacheOutcome(s, key, resetTtl, ttl, getFail, expireFail);
      && e.result == StorageRedis.GetHashOutcome(s, key, getFail)
      && e.result.Resolved?
      && (e.result.value.None? || !resetTtl ==> e.state == s)
      && (e.result.value.Some? && resetTtl && !expireFail && ttl > 0 && key in s.store ==>
            e.state.store == s.store && e.state.ttl == s.ttl[key := ttl])
  {
  }

  class RedisCacheService {
    const storage: StorageRedis.RedisStorageService

    constructor (storage: StorageRedis.RedisStorageService)
      ensures this.storage == storage
    {
      this.storage := storage;
    }

    method IsRecordInCache(key: string, fail: bool) returns (r: Settled<bool>)
      ensures r == StorageRedis.RecordExistsOutcome(storage.client.state, key, fail)
    {
      r := storage.RecordExists(key, fail);
    }

    method GetRecordFromCache(key: string, resetTtl: bool, ttl: int, getFail: bool, expireFail: bool)
      returns (r: Settled<Option<string>>)
      modifies storage.client
      ensures Effect(r, storage.client.state)
           == GetRecordFromCacheOutcome(old(storage.client.state), key, resetTtl, ttl, getFail, expireFail)
    {
      r := storage.GetRecord(key, getFail);
      if r.value.Some? && resetTtl {
        var _ := storage.client.Expire(key, ttl, expireFail);
      }
    }

    /** As written: the pipeline is built and dropped. */
    method GetHashFromCache(key: string, resetTtl: bool, ttl: int)
      returns (r: Nullable<Settled<Option<map<string, string>>>>)
      ensures Effect(r, storage.client.state) == GetHashFromCacheAsWritten(storage.client.state, key, resetTtl, ttl)
    {
      r := Undefined;
    }

    /** As evidently intended: the pipeline is returned and subscribed. */
    method GetHashFromCacheIntended(key: string, resetTtl: bool, ttl: int, getFail: bool, expireFail: bool)
      returns (r: Settled<Option<map<string, string>>>)
      modifies storage.client
      ensures Effect(r, storage.client.state)
           == GetHashFromCacheOutcome(old(storage.client.state), key, resetTtl, ttl, getFail, expireFail)
    {
      r := storage.GetHash(key, getFail);
      if r.value.Some? && resetTtl {
        var _ := storage.client.Expire(key, ttl, expireFail);
      }
    }

    /** As written: the error handler itself fails. */
    method SetRecordInCache(key: string, value: string, ttl: int, fail: bool) returns (r: Settled<bool>)
      modifies storage.client
      ensures Effect(r, storage.client.state) == SetRecordInCacheOutcome(old(storage.client.state), key, value, ttl, fail)
    {
      var written := storage.client.Set(key, value, Some(ttl), fail);
      r := if written.Ok? then Resolved(true) else Rejected(TypeError);
    }

    /** As evidently intended: an error becomes false. */
    method SetRecordInCacheIntended(key: string, value: string, ttl: int, fail: bool) returns (r: Settled<bool>)
      modifies storage.client
      ensures Effect(r, storage.client.state)
           == SetRecordInCacheIntendedOutcome(old(storage.client.state), key, value, ttl, fail)
    {
      var written := storage.client.Set(key, value, Some(ttl), fail);
      r := Resolved(written.Ok?);
    }

    method SetHashInCache(key: string, entries: Entries, ttl: Option<int>, hmsetFail: bool, expireFail: bool)
      returns (r: Settled<bool>)
      modifies storage.client
      ensures Effect(r, storage.client.state)
           == SetHashInCacheOutcome(old(storage.client.state), key, entries, ttl, hmsetFail, expireFail)
    {
      r := storage.SetHash(key, entries, hmsetFail);
      if ttl.Some? {
        var _ := storage.client.Expire(key, ttl.value, expireFail);
      }
    }
  }
}
