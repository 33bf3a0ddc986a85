/** The observable-based Redis wrapper of the storage module
    (src/storage/redis-storage.service.ts). An observable here emits once;
    its emission is modelled as a settled value. */
module StorageRedis {
  import opened Outcomes
  import opened Redis

  /** `recordExists(key)`: `EXISTS` mapped through `Boolean`; a client error
      reaches the subscriber as an error. */
  function RecordExistsOutcome(s: RedisState, key: string, fail: bool): Settled<bool>
  {
    match ExistsOp(s, key, fail)
    case Ok(n) => Resolved(n != 0)
    case Failed => Rejected(ClientFailure)
  }

  /** `getRecord(key)`: a truthy stored string, otherwise `null`; errors become `null`. */
  function GetRecordOutcome(s: RedisState, key: string, fail: bool): Settled<Option<string>>
  {
    match GetOp(s, key, fail)
    case Ok(Some(v)) => if v != "" then Resolved(Some(v)) else Resolved(None)
    case Ok(None) => Resolved(None)
    case Failed => Resolved(None)
  }

  /** `getHash(key)`: the reply of `HGETALL` (an object, hence always truthy);
      errors become `null`. */
  function GetHashOutcome(s: RedisState, key: string, fail: bool): Settled<Option<map<string, string>>>
  {
    match HGetAllOp(s, key, fail)
    case Ok(f) => Resolved(Some(f))
    case Failed => Resolved(None)
  }

  /** `setRecord(key, value)`: a plain `SET` (so any expiry is dropped); true on
      success, false on error. */
  function SetRecordOutcome(s: RedisState, key: string, value: string, fail: bool): Effect<Settled<bool>, RedisState>
  {
    var written := SetOp(s, key, value, None, fail);
    Effect(Resolved(written.reply.Ok?), written.state)
  }

  /** `setHash(key, value)`: `HMSET` of the flattened entries, no expiry; true
      on success, false on error. */
  function SetHashOutcome(s: RedisState, key: string, entries: Entries, fail: bool): Effect<Settled<bool>, RedisState>
  {
    var written := HmSetOp(s, key, Flatten(entries), fail);
    Effect(Resolved(written.reply.Ok?), written.state)
  }

  lemma RecordExistsMeaning(s: RedisState, key: string, fail: bool)
    ensures RecordExistsOutcome(s, key, fail) == if fail then Rejected(ClientFailure) else Resolved(key in s.store)
  {
  }

  /** `getRecord` never errors; it emits a value exactly when the key holds that
      non-empty string and the call succeeds. */
  lemma GetRecordMeaning(s: RedisState, key: string, fail: bool)
    ensures GetRecordOutcome(s, key, fail).Resolved?
    ensures forall v :: GetRecordOutcome(s, key, fail) == Resolved(Some(v)) <==>
      (!fail && key in s.store && s.store[key] == Str(v) && v != "")
  {
  }

  /** `getHash` never errors; it emits the fields of a hash, `{}` for a missing
      key, and `null` for a string key or a failed call. */
  lemma GetHashMeaning(s: RedisState, key: string, fail: bool)
    ensures var r := GetHashOutcome(s, key, fail);
      && r.Resolved?
      && (r.value.Some? <==> !fail && (key !in s.store || s.store[key].Hash?))
      && (r.value.Some? && key in s.store ==> r.value.value == s.store[key].fields)
      && (r.value.Some? && key !in s.store ==> r.value.value == map[])
  {
  }

  /** `setRecord` never errors: true exactly when the call succeeds, and then
      the key holds the value with no expiry; false leaves the server as it was. */
  lemma SetRecordMeaning(s: RedisState, key: string, value: string, fail: bool)
    ensures var e := SetRecordOutcome(s, key, value, fail);
      && e.result == Resolved(!fail)
      && (!fail ==> e.state.store == s.store[key := Str(value)] && e.state.ttl == s.ttl - {key})
      && (fail ==> e.state == s)
  {
  }

  /** `setHash` never errors: with entries and a key that holds no string, a
      successful call writes the entries' fields and leaves every expiry as it
      was; otherwise false and no change. */
  lemma SetHashMeaning(s: RedisState, key: string, entries: Entries, fail: bool)
    ensures var e := SetHashOutcome(s, key, entries, fail);
      var writable := |entries| > 0 && (key !in s.store || s.store[key].Hash?);
      var old_fields := if key in s.store && s.store[key].Hash? then s.store[key].fields else map[];
      && e.result == Resolved(!fail && writable)
      && e.state.ttl == s.ttl
      && (!fail && writable ==> e.state.store == s.store[key := Hash(old_fields + ToMap(entries))])
      && (fail || !writable ==> e.state == s)
  {
    FlattenLayout(entries);
    if !fail && |entries| > 0 && (key !in s.store || s.store[key].Hash?) {
      HmSetEntries(s, key, entries);
    }
  }

  class RedisStorageService {
    const client: RedisClient

    constructor (client: RedisClient)
      ensures this.client == client
    {
      this.client := client;
    }

    method RecordExists(key: string, fail: bool) returns (r: Settled<bool>)
      ensures r == RecordExistsOutcome(client.state, key, fail)
    {
      var n := client.Exists(key, fail);
      r := if n.Failed? then Rejected(ClientFailure) else Resolved(n.value != 0);
    }

    method GetRecord(key: string, fail: bool) returns (r: Settled<Option<string>>)
      ensures r == GetRecordOutcome(client.state, key, fail)
    {
      var record := client.Get(key, fail);
      if record.Failed? {
        r := Resolved(None);
      } else if record.value.Some? && record.value.value != "" {
        r := Resolved(record.value);
      } else {
        r := Resolved(None);
      }
    }

    method GetHash(key: string, fail: bool) returns (r: Settled<Option<map<string, string>>>)
      ensures r == GetHashOutcome(client.state, key, fail)
    {
      var record := client.HGetAll(key, fail);
      r := if record.Failed? then Resolved(None) else Resolved(Some(record.value));
    }

    method SetRecord(key: string, value: string, fail: bool) returns (r: Settled<bool>)
      modifies client
      ensures Effect(r, client.state) == SetRecordOutcome(old(client.state), key, value, fail)
    {
      var written := client.Set(key, value, None, fail);
      r := Resolved(written.Ok?);
    }

    method SetHash(key: string, entries: Entries, fail: bool) returns (r: Settled<bool>)
      modifies client
      ensures Effect(r, client.state) == SetHashOutcome(old(client.state), key, entries, fail)
    {
      var flattened := Flatten(entries);
      var written := client.HmSet(key, flattened, fail);
      r := Resolved(written.Ok?);
    }
  }
}
