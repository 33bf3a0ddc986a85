/** An abstract Redis server as the services see it through their client: a
    key space of strings and hashes, and the expiry last set on each key.
    The clock is not modelled: a key keeps the number of seconds it was given.
    Every client call takes a `fail` flag; when it is set the call fails (lost
    connection, server error) and changes nothing. */
module Redis {
  import opened Outcomes

  datatype Entry = Str(value: string) | Hash(fields: map<string, string>)

  datatype RedisState = RedisState(store: map<string, Entry>, ttl: map<string, int>)

  /** Only stored keys carry an expiry. */
  predicate WellFormed(s: RedisState)
  {
    s.ttl.Keys <= s.store.Keys
  }

  /** A client call's reply together with the server state after it. */
  datatype Step<+T> = Step(reply: Reply<T>, state: RedisState)

  // ---------------------------------------------------------------------------
  // Field lists

  /** The fields of an object in `Object.entries` order, each value already
      written as the string the client sends. */
  type Entries = seq<(string, string)>

  /** `Object.entries(value).reduce((acc, curr) => acc.concat(curr), [])`,
      the left fold that appends each `[field, value]` pair to the accumulator.
      It is the interleaving: each field immediately followed by its value. */
  function Flatten(entries: Entries): (flat: seq<string>)
    ensures flat == Interleave(entries)
  {
    FlattenOntoIsInterleave([], entries);
    FlattenOnto([], entries)
  }

  function FlattenOnto(acc: seq<string>, entries: Entries): seq<string>
    decreases |entries|
  {
    if |entries| == 0 then acc
    else FlattenOnto(acc + [entries[0].0, entries[0].1], entries[1..])
  }

  /** The pairwise interleaving `[k1, v1, k2, v2, ...]`, defined directly. */
  function Interleave(entries: Entries): (flat: seq<string>)
    decreases |entries|
  {
    if |entries| == 0 then [] else [entries[0].0, entries[0].1] + Interleave(entries[1..])
  }

  lemma {:induction false} FlattenOntoIsInterleave(acc: seq<string>, entries: Entries)
    ensures FlattenOnto(acc, entries) == acc + Interleave(entries)
    decreases |entries|
  {
    if |entries| > 0 {
      FlattenOntoIsInterleave(acc + [entries[0].0, entries[0].1], entries[1..]);
    }
  }

  /** The flattened list is twice as long as the entry list and keeps its order:
      field i sits at position 2i and its value at 2i + 1. */
  lemma {:induction false} FlattenLayout(entries: Entries)
    ensures |Flatten(entries)| == 2 * |entries|
    ensures forall i :: 0 <= i < |entries| ==>
      Flatten(entries)[2 * i] == entries[i].0 && Flatten(entries)[2 * i + 1] == entries[i].1
  {
    InterleaveLayout(entries);
  }

  lemma {:induction false} InterleaveLayout(entries: Entries)
    ensures |Interleave(entries)| == 2 * |entries|
    ensures forall i :: 0 <= i < |entries| ==>
      Interleave(entries)[2 * i] == entries[i].0 && Interleave(entries)[2 * i + 1] == entries[i].1
    decreases |entries|
  {
    if |entries| > 0 {
      InterleaveLayout(entries[1..]);
      forall i | 1 <= i < |entries|
        ensures Interleave(entries)[2 * i] == entries[i].0 && Interleave(entries)[2 * i + 1] == entries[i].1
      {
        assert entries[1..][i - 1] == entries[i];
      }
    }
  }

  /** Reading a flattened list back two by two gives the entries again. */
  function Pairs(flat: seq<string>): Entries
    requires |flat| % 2 == 0
    decreases |flat|
  {
    if |flat| == 0 then [] else [(flat[0], flat[1])] + Pairs(flat[2..])
  }

  lemma {:induction false} PairsOfFlatten(entries: Entries)
    ensures |Flatten(entries)| % 2 == 0
    ensures Pairs(Flatten(entries)) == entries
  {
    PairsOfInterleave(entries);
  }

  lemma {:induction false} PairsOfInterleave(entries: Entries)
    ensures |Interleave(entries)| % 2 == 0
    ensures Pairs(Interleave(entries)) == entries
    decreases |entries|
  {
    if |entries| > 0 {
      PairsOfInterleave(entries[1..]);
      var flat := Interleave(entries);
      assert flat[2..] == Interleave(entries[1..]);
      assert [entries[0]] + entries[1..] == entries;
    }
  }

  /** The field map an entry list describes; a later entry wins over an earlier one. */
  function ToMap(entries: Entries): map<string, string>
    decreases |entries|
  {
    if |entries| == 0 then map[] else map[entries[0].0 := entries[0].1] + ToMap(entries[1..])
  }

  predicate DistinctFields(entries: Entries)
  {
    forall i, j :: 0 <= i < j < |entries| ==> entries[i].0 != entries[j].0
  }

  /** With distinct fields, every field maps to its own value and to nothing else. */
  lemma {:induction false} ToMapLookup(entries: Entries)
    requires DistinctFields(entries)
    ensures forall i :: 0 <= i < |entries| ==>
      entries[i].0 in ToMap(entries) && ToMap(entries)[entries[i].0] == entries[i].1
    ensures forall f :: f in ToMap(entries) ==> exists i :: 0 <= i < |entries| && entries[i].0 == f
    decreases |entries|
  {
    if |entries| > 0 {
      var rest := entries[1..];
      assert DistinctFields(rest) by {
        forall i, j | 0 <= i < j < |rest| ensures rest[i].0 != rest[j].0 {
          assert rest[i] == entries[i + 1] && rest[j] == entries[j + 1];
        }
      }
      ToMapLookup(rest);
      assert ToMap(entries) == map[entries[0].0 := entries[0].1] + ToMap(rest);
      forall i | 1 <= i < |entries|
        ensures entries[i].0 in ToMap(entries) && ToMap(entries)[entries[i].0] == entries[i].1
      {
        assert rest[i - 1] == entries[i];
      }
      forall f | f in ToMap(entries) ensures exists i :: 0 <= i < |entries| && entries[i].0 == f {
        if f != entries[0].0 {
          assert f in ToMap(rest);
          var k :| 0 <= k < |rest| && rest[k].0 == f;
          assert entries[k + 1].0 == f;
        }
      }
    }
  }

  // ---------------------------------------------------------------------------
  // How the client writes a number argument

  function DigitChar(d: nat): char
    requires d < 10
  {
    "0123456789"[d]
  }

  /** `String(n)` for a non-negative integer: its decimal digits, no leading zero. */
  function DecimalString(n: nat): (s: string)
    ensures |s| > 0
    ensures forall i :: 0 <= i < |s| ==> '0' <= s[i] <= '9'
    ensures s[0] == '0' ==> n == 0
    decreases n
  {
    if n < 10 then [DigitChar(n)] else DecimalString(n / 10) + [DigitChar(n % 10)]
  }

  function DecimalValue(s: string): nat
    requires forall i :: 0 <= i < |s| ==> '0' <= s[i] <= '9'
    decreases |s|
  {
    if |s| == 0 then 0 else 10 * DecimalValue(s[..|s| - 1]) + ((s[|s| - 1] as int) - ('0' as int))
  }

  /** The decimal text of a number reads back as that number. */
  lemma {:induction false} DecimalRoundTrip(n: nat)
    ensures DecimalValue(DecimalString(n)) == n
    decreases n
  {
    if n >= 10 {
      DecimalRoundTrip(n / 10);
      var s := DecimalString(n);
      assert s[..|s| - 1] == DecimalString(n / 10);
    }
  }

  // ---------------------------------------------------------------------------
  // Client calls

  /** `EXISTS key`: 1 when the key is stored, 0 otherwise. */
  function ExistsOp(s: RedisState, key: string, fail: bool): Reply<nat>
  {
    if fail then Failed else Ok(if key in s.store then 1 else 0)
  }

  /** `GET key`: the string, `null` for a missing key, an error for a hash. */
  function GetOp(s: RedisState, key: string, fail: bool): Reply<Option<string>>
  {
    if fail then Failed
    else if key !in s.store then Ok(None)
    else match s.store[key]
      case Str(v) => Ok(Some(v))
      case Hash(_) => Failed
  }

  /** `HGETALL key`: the fields, `{}` for a missing key, an error for a string. */
  function HGetAllOp(s: RedisState, key: string, fail: bool): Reply<map<string, string>>
  {
    if fail then Failed
    else if key !in s.store then Ok(map[])
    else match s.store[key]
      case Hash(f) => Ok(f)
      case Str(_) => Failed
  }

  /** `SET key value [EX seconds]`: replaces whatever the key held; with `EX`
      the key gets that expiry (which must be positive), without it any
      previous expiry is discarded. */
  function SetOp(s: RedisState, key: string, value: string, ex: Option<int>, fail: bool): (r: Step<()>)
    ensures WellFormed(s) ==> WellFormed(r.state)
  {
    if fail || (ex.Some? && ex.value <= 0) then Step(Failed, s)
    else
      var ttl := if ex.Some? then s.ttl[key := ex.value] else s.ttl - {key};
      Step(Ok(()), RedisState(s.store[key := Str(value)], ttl))
  }

  /** The hash fields after `HMSET` assigns the `[field, value, ...]` list in order. */
  function AssignFields(fields: map<string, string>, flat: seq<string>): map<string, string>
    requires |flat| % 2 == 0
    decreases |flat|
  {
    if |flat| == 0 then fields else AssignFields(fields[flat[0] := flat[1]], flat[2..])
  }

  /** `HMSET key f1 v1 f2 v2 ...`: sets the fields of the hash at `key`
      (creating it), keeps its other fields and its expiry; an error for a
      string key and for an empty or odd argument list. */
  function HmSetOp(s: RedisState, key: string, flat: seq<string>, fail: bool): (r: Step<()>)
    ensures WellFormed(s) ==> WellFormed(r.state)
  {
    if fail || |flat| == 0 || |flat| % 2 == 1 || (key in s.store && s.store[key].Str?) then Step(Failed, s)
    else
      var old_fields := if key in s.store then s.store[key].fields else map[];
      Step(Ok(()), RedisState(s.store[key := Hash(AssignFields(old_fields, flat))], s.ttl))
  }

  /** `EXPIRE key seconds`: 0 and no change for a missing key; otherwise 1, and
      the key gets the expiry, or is deleted at once when it is not positive. */
  function ExpireOp(s: RedisState, key: string, seconds: int, fail: bool): (r: Step<nat>)
    ensures WellFormed(s) ==> WellFormed(r.state)
  {
    if fail then Step(Failed, s)
    else if key !in s.store then Step(Ok(0), s)
    else if seconds <= 0 then Step(Ok(1), RedisState(s.store - {key}, s.ttl - {key}))
    else Step(Ok(1), RedisState(s.store, s.ttl[key := seconds]))
  }

  /** Writing a flattened entry list into a hash sets exactly those fields. */
  lemma {:induction false} AssignFlattened(fields: map<string, string>, entries: Entries)
    ensures |Flatten(entries)| % 2 == 0
    ensures AssignFields(fields, Flatten(entries)) == fields + ToMap(entries)
  {
    AssignInterleaved(fields, entries);
  }

  lemma {:induction false} AssignInterleaved(fields: map<string, string>, entries: Entries)
    ensures |Interleave(entries)| % 2 == 0
    ensures AssignFields(fields, Interleave(entries)) == fields + ToMap(entries)
    decreases |entries|
  {
    InterleaveLayout(entries);
    if |entries| > 0 {
      var k, v := entries[0].0, entries[0].1;
      var flat := Interleave(entries);
      assert flat[2..] == Interleave(entries[1..]);
      AssignInterleaved(fields[k := v], entries[1..]);
      assert fields[k := v] + ToMap(entries[1..]) == fields + (map[k := v] + ToMap(entries[1..]));
    }
  }

  /** After a successful `HMSET` of a flattened entry list on a key that held no
      string, the key holds a hash whose fields are the old ones updated by the
      entries; the expiry is untouched. */
  lemma HmSetEntries(s: RedisState, key: string, entries: Entries)
    requires |entries| > 0
    requires key !in s.store || s.store[key].Hash?
    ensures var r := HmSetOp(s, key, Flatten(entries), false);
      var old_fields := if key in s.store then s.store[key].fields else map[];
      && r.reply == Ok(())
      && r.state.store == s.store[key := Hash(old_fields + ToMap(entries))]
      && r.state.ttl == s.ttl
  {
    FlattenLayout(entries);
    var old_fields := if key in s.store then s.store[key].fields else map[];
    AssignFlattened(old_fields, entries);
  }

  /** The server as one object the services share. */
  class RedisClient {
    var state: RedisState

    constructor (initial: RedisState)
      ensures state == initial
    {
      state := initial;
    }

    method Exists(key: string, fail: bool) returns (r: Reply<nat>)
      ensures r == ExistsOp(state, key, fail)
    {
      if fail {
        r := Failed;
      } else {
        r := Ok(if key in state.store then 1 else 0);
      }
    }

    method Get(key: string, fail: bool) returns (r: Reply<Option<string>>)
      ensures r == GetOp(state, key, fail)
    {
      r := GetOp(state, key, fail);
    }

    method HGetAll(key: string, fail: bool) returns (r: Reply<map<string, string>>)
      ensures r == HGetAllOp(state, key, fail)
    {
      r := HGetAllOp(state, key, fail);
    }

    method Set(key: string, value: string, ex: Option<int>, fail: bool) returns (r: Reply<()>)
      modifies this
      ensures Step(r, state) == SetOp(old(state), key, value, ex, fail)
    {
      var step := SetOp(state, key, value, ex, fail);
      r, state := step.reply, step.state;
    }

    method HmSet(key: string, flat: seq<string>, fail: bool) returns (r: Reply<()>)
      modifies this
      ensures Step(r, state) == HmSetOp(old(state), key, flat, fail)
    {
      var step := HmSetOp(state, key, flat, fail);
      r, state := step.reply, step.state;
    }

    method Expire(key: string, seconds: int, fail: bool) returns (r: Reply<nat>)
      modifies this
      ensures Step(r, state) == ExpireOp(old(state), key, seconds, fail)
    {
      var step := ExpireOp(state, key, seconds, fail);
      r, state := step.reply, step.state;
    }
  }
}
