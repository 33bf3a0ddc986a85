/** The upload orchestration of src/file-transfer/file-transfer.service.ts:
    look the file up in the Redis cache under its content identifier; on a
    miss, put it to MinIO and write it into the cache, then read it back. */
module FileTransfer {
  import opened Outcomes
  import opened FileModel
  import opened RedisKeys
  import CacheKeys
  import opened FileUtils
  import opened Redis
  import opened Minio
  import CacheRedis

  /** The computations the service delegates to Node and to the Redis client,
      given as parameters: SHA-1, the string the client sends for a Buffer
      argument, `Buffer.from(s, 'base64')`, and the string it sends for a Date. */
  datatype Primitives = Primitives(
    sha1: string -> Digest,
    renderBuffer: Bytes -> string,
    fromBase64: string -> Bytes,
    renderDate: Timestamp -> string)

  const GetRejection: string := "error in getFileFromCache"
  const SetRejection: string := "error in setFileInCache"
  const UploadRejection: string := "error in uploadToMinio"

  /** The headers `uploadToMinio` puts every object with. */
  const OctetStreamMetadata: map<string, string> :=
    map["Content-Type" := "application/octet-stream", "X-Amz-Meta-Testing" := "1234"]

  /** A cached file as `getFileFromCache` returns it: the hash's fields as
      stored, with `file` taken out and decoded from base64. */
  datatype CachedFile = CachedFile(fields: map<string, string>, file: Bytes)

  /** Fault inputs of a cache read (`EXISTS`, then `HGETALL`). */
  datatype ReadFaults = ReadFaults(recordExists: bool, hgetall: bool)

  /** Fault inputs of `checkBucket` (`bucketExists`, then maybe `makeBucket`). */
  datatype BucketFaults = BucketFaults(bucketExists: bool, makeBucket: bool)

  /** Fault inputs of `uploadToMinio`; `etag` is the etag `putObject` replies with. */
  datatype MinioFaults = MinioFaults(bucket: BucketFaults, put: bool, etag: string)

  /** Fault inputs of every call `uploadFile` may issue. */
  datatype UploadFaults = UploadFaults(lookup: ReadFaults, minio: MinioFaults,
                                       cacheWrite: CacheRedis.HashWriteFaults, reread: ReadFaults)

  /** `rk(rCachedImgsKey, getHashedFileName(file))`: where a file is cached,
      `file-transfer:cache:images:` followed by the digest of the original name
      and the name's extension. */
  function UploadKey(sha1: string -> Digest, file: BufferedFile): (key: string)
    ensures key == "file-transfer:cache:images:" + sha1(file.originalname) + ExtName(file.originalname)
  {
    CacheKeys.ImageKeyLayout(HashedFileName(sha1, file.originalname));
    Rk([CacheKeys.CachedImgsKey, HashedFileName(sha1, file.originalname)])
  }

  /** The record `uploadFile` caches: the identifier, the bytes and the
      original metadata; it has no `updatedAt` and no `fileSrc`. */
  function FileToCache(file: BufferedFile, hashedFileName: string): (f: StoredFile)
    ensures f.id == hashedFileName && f.file == file.buffer && f.name == file.originalname
    ensures f.encoding == file.encoding && f.mimetype == file.mimetype && f.size == file.size
    ensures f.updatedAt.None? && f.fileSrc.None?
  {
    var m := GetOriginalFileMetadata(file);
    StoredFile(hashedFileName, file.buffer, m.name, m.encoding, m.mimetype, m.size, m.updatedAt, m.fileSrc)
  }

  /** `Object.entries` of a stored file, each value as the client sends it, in
      the order of the object `uploadFile` builds: six fields, then `updatedAt`
      and `fileSrc` when present, no field twice. */
  function CacheEntries(prims: Primitives, f: StoredFile): (entries: Entries)
    ensures |entries| == 6 + (if f.updatedAt.Some? then 1 else 0) + (if f.fileSrc.Some? then 1 else 0)
    ensures entries[0] == ("id", f.id) && entries[1] == ("file", prims.renderBuffer(f.file))
    ensures DistinctFields(entries)
  {
    [("id", f.id), ("file", prims.renderBuffer(f.file)), ("encoding", f.encoding),
     ("mimetype", MimeString(f.mimetype)), ("size", DecimalString(f.size)), ("name", f.name)]
    + (if f.updatedAt.Some? then [("updatedAt", prims.renderDate(f.updatedAt.value))] else [])
    + (if f.fileSrc.Some? then [("fileSrc", f.fileSrc.value)] else [])
  }

  /** The hash fields `uploadFile` writes for a file. */
  function UploadFields(prims: Primitives, file: BufferedFile, hashedFileName: string): map<string, string>
  {
    map["id" := hashedFileName]
    + (map["file" := prims.renderBuffer(file.buffer)]
    + (map["encoding" := file.encoding]
    + (map["mimetype" := MimeString(file.mimetype)]
    + (map["size" := DecimalString(file.size)]
    + map["name" := file.originalname]))))
  }

  // ---------------------------------------------------------------------------
  // getFileFromCache

  /** `getFileFromCache(file, fileKey)`; an empty `fileKey` stands for a missing
      one, which falls back to the file's upload key. A missing key gives
      `null`; a failed `EXISTS`, a `null` hash and a hash without `file` (on
      which `Buffer.from` throws) all reject with the service's message. */
  function GetFileFromCacheOutcome(s: RedisState, prims: Primitives, file: BufferedFile, fileKey: string,
                                   faults: ReadFaults): Settled<Option<CachedFile>>
  {
    var key := if fileKey != "" then fileKey else UploadKey(prims.sha1, file);
    match CacheRedis.RecordExistsOutcome(s, key, faults.recordExists)
    case Rejected(_) => Rejected(Message(GetRejection))
    case Resolved(present) =>
      if !present then Resolved(None)
      else
        var cached := CacheRedis.GetHashOutcome(s, key, faults.hgetall).value;
        if cached.None? || "file" !in cached.value then Rejected(Message(GetRejection))
        else Resolved(Some(CachedFile(cached.value - {"file"}, prims.fromBase64(cached.value["file"]))))
  }

  // ---------------------------------------------------------------------------
  // setFileInCache

  /** `setFileInCache(file, fileKey)` as written. A missing key falls back to
      `getHashedFileName(file)`, which reads `file.originalname`: a stored file
      has none, so hashing `undefined` throws a TypeError before the `try`.
      Otherwise `setHash(key, file)` with the default expiry, its rejection
      replaced by the service's message. */
  function SetFileInCacheOutcome(s: RedisState, prims: Primitives, f: StoredFile, fileKey: string,
                                 faults: CacheRedis.HashWriteFaults): Effect<Settled<bool>, RedisState>
  {
    if fileKey == "" then Effect(Rejected(TypeError), s)
    else
      var w := CacheRedis.SetHashOutcome(s, fileKey, CacheEntries(prims, f), CacheRedis.DefaultTtl, faults);
      Effect(if w.result.Rejected? then Rejected(Message(SetRejection)) else w.result, w.state)
  }

  /** The key the fallback evidently means: the stored file's identifier
      derived from its `name`, the original file name. */
  function FallbackKey(prims: Primitives, f: StoredFile): string
  {
    Rk([CacheKeys.CachedImgsKey, HashedFileName(prims.sha1, f.name)])
  }

  /** `setFileInCache` as evidently intended: a missing key falls back to `FallbackKey`. */
  function SetFileInCacheIntendedOutcome(s: RedisState, prims: Primitives, f: StoredFile, fileKey: string,
                                         faults: CacheRedis.HashWriteFaults): Effect<Settled<bool>, RedisState>
  {
    var key := if fileKey != "" then fileKey else FallbackKey(prims, f);
    var w := CacheRedis.SetHashOutcome(s, key, CacheEntries(prims, f), CacheRedis.DefaultTtl, faults);
    Effect(if w.result.Rejected? then Rejected(Message(SetRejection)) else w.result, w.state)
  }

  // ---------------------------------------------------------------------------
  // checkBucket and uploadToMinio

  /** `checkBucket(bucket, makeBucket)`: creates a missing bucket when asked;
      every error, including the one it throws for a missing bucket it may not
      create, is logged and swallowed, so only the state tells what happened. */
  function CheckBucketOutcome(s: MinioState, bucket: string, makeBucket: bool, faults: BucketFaults): MinioState
  {
    match BucketExistsOp(s, bucket, faults.bucketExists)
    case Failed => s
    case Ok(present) =>
      if !present && makeBucket then MakeBucketOp(s, bucket, faults.makeBucket, false).state else s
  }

  /** `uploadToMinio(baseBucket, destination, hashedFileName, file)`: the bucket
      check, then `putObject` of the bytes under `destination/hashedFileName`
      whatever the check found; a failed put or an empty etag rejects. */
  function UploadToMinioOutcome(s: MinioState, bucket: string, destination: string, hashedFileName: string,
                                file: BufferedFile, faults: MinioFaults): Effect<Settled<bool>, MinioState>
  {
    var checked := CheckBucketOutcome(s, bucket, true, faults.bucket);
    var put := PutObjectOp(checked, bucket, ObjectName(destination, hashedFileName), file.buffer,
                           OctetStreamMetadata, faults.put, faults.etag);
    if put.reply.Failed? || put.reply.value == "" then Effect(Rejected(Message(UploadRejection)), put.state)
    else Effect(Resolved(true), put.state)
  }

  // ---------------------------------------------------------------------------
  // uploadFile

  /** What `uploadFile` resolves with (`undefined` after any caught error,
      `null` or a record from the final cache read), and both servers after it. */
  datatype UploadEffect = UploadEffect(result: Nullable<CachedFile>, redis: RedisState, minio: MinioState)

  /** `uploadFile(file, destination)`: a cached copy is returned as is;
      otherwise the MinIO upload and the cache write both run to completion
      (neither is undone when the other fails), and only when both resolve
      true is the cache read again and its answer returned. */
  function UploadFileOutcome(redis: RedisState, minio: MinioState, prims: Primitives, baseBucket: string,
                             file: BufferedFile, destination: string, faults: UploadFaults): UploadEffect
  {
    var hashedFileName := HashedFileName(prims.sha1, file.originalname);
    var key := UploadKey(prims.sha1, file);
    var up := UploadToMinioOutcome(minio, baseBucket, destination, hashedFileName, file, faults.minio);
    var cw := SetFileInCacheOutcome(redis, prims, FileToCache(file, hashedFileName), key, faults.cacheWrite);
    UploadSteps(redis, minio, GetFileFromCacheOutcome(redis, prims, file, key, faults.lookup), up, cw,
                GetFileFromCacheOutcome(cw.state, prims, file, key, faults.reread))
  }

  /** How `uploadFile` combines its steps: the `lookup`, the MinIO upload
      `up`, the cache write `cw` and the `reread` of the cache after it. The
      writes only count on a miss, and the reread only after both writes
      resolved true. */
  function UploadSteps(redis: RedisState, minio: MinioState, lookup: Settled<Option<CachedFile>>,
                       up: Effect<Settled<bool>, MinioState>, cw: Effect<Settled<bool>, RedisState>,
                       reread: Settled<Option<CachedFile>>): UploadEffect
  {
    match lookup
    case Rejected(_) => UploadEffect(Undefined, redis, minio)
    case Resolved(cached) =>
      if cached.Some? then UploadEffect(Value(cached.value), redis, minio)
      else if up.result.Rejected? || cw.result.Rejected? then UploadEffect(Undefined, cw.state, up.state)
      else if !(up.result.value && cw.result.value) then UploadEffect(Undefined, cw.state, up.state)
      else match reread
        case Rejected(_) => UploadEffect(Undefined, cw.state, up.state)
        case Resolved(None) => UploadEffect(Null, cw.state, up.state)
        case Resolved(Some(c)) => UploadEffect(Value(c), cw.state, up.state)
  }

  // ---------------------------------------------------------------------------
  // Properties

  /** Files with the same original name share their cache key. */
  lemma UploadKeyByName(sha1: string -> Digest, a: BufferedFile, b: BufferedFile)
    requires a.originalname == b.originalname
    ensures UploadKey(sha1, a) == UploadKey(sha1, b)
  {
  }

  lemma UnionWithEmpty(m: map<string, string>)
    ensures map[] + m == m
  {
  }

  /** One step of `ToMap`: the first entry, overridden by the rest. */
  lemma ToMapCons(entry: (string, string), rest: Entries)
    ensures ToMap([entry] + rest) == map[entry.0 := entry.1] + ToMap(rest)
  {
    assert ([entry] + rest)[1..] == rest;
  }

  /** The entries of an upload's record describe exactly its six fields. */
  lemma UploadEntries(prims: Primitives, file: BufferedFile, hashedFileName: string)
    ensures var entries := CacheEntries(prims, FileToCache(file, hashedFileName));
      && |entries| == 6
      && ToMap(entries) == UploadFields(prims, file, hashedFileName)
  {
    var f := FileToCache(file, hashedFileName);
    var e1 := [("name", f.name)];
    var e2 := [("size", DecimalString(f.size))] + e1;
    var e3 := [("mimetype", MimeString(f.mimetype))] + e2;
    var e4 := [("encoding", f.encoding)] + e3;
    var e5 := [("file", prims.renderBuffer(f.file))] + e4;
    var e6 := [("id", f.id)] + e5;
    ToMapCons(("name", f.name), []);
    assert ToMap([]) == map[];
    assert map["name" := f.name] + map[] == map["name" := f.name];
    ToMapCons(("size", DecimalString(f.size)), e1);
    ToMapCons(("mimetype", MimeString(f.mimetype)), e2);
    ToMapCons(("encoding", f.encoding), e3);
    ToMapCons(("file", prims.renderBuffer(f.file)), e4);
    ToMapCons(("id", f.id), e5);
    assert e6 == CacheEntries(prims, f);
  }

  /** `getFileFromCache` answers `null` exactly for a missing key, a record
      exactly for a hash holding `file` read without failure, and rejects in
      every other case. */
  lemma GetFileFromCacheMeaning(s: RedisState, prims: Primitives, file: BufferedFile, fileKey: string,
                                faults: ReadFaults)
    ensures var key := if fileKey != "" then fileKey else UploadKey(prims.sha1, file);
      var r := GetFileFromCacheOutcome(s, prims, file, fileKey, faults);
      && (r == Resolved(None) <==> !faults.recordExists && key !in s.store)
      && (r.Resolved? && r.value.Some? <==>
            !faults.recordExists && !faults.hgetall && key in s.store && s.store[key].Hash? && "file" in s.store[key].fields)
      && (r.Resolved? && r.value.Some? ==>
            r.value.value == CachedFile(s.store[key].fields - {"file"}, prims.fromBase64(s.store[key].fields["file"])))
      && (r.Rejected? ==> r.reason == Message(GetRejection))
  {
  }

  /** `setFileInCache` with a key never resolves false: it resolves true after
      both calls succeed, and otherwise rejects with its message, leaving
      whatever `setHash` wrote. */
  lemma SetFileInCacheMeaning(s: RedisState, prims: Primitives, f: StoredFile, fileKey: string,
                              faults: CacheRedis.HashWriteFaults)
    requires fileKey != ""
    ensures var e := SetFileInCacheOutcome(s, prims, f, fileKey, faults);
      var w := CacheRedis.SetHashOutcome(s, fileKey, CacheEntries(prims, f), CacheRedis.DefaultTtl, faults);
      && (e.result == Resolved(true) || e.result == Rejected(Message(SetRejection)))
      && (e.result == Resolved(true) <==> w.result == Resolved(true))
      && e.state == w.state
  {
    CacheRedis.SetHashFailures(s, fileKey, CacheEntries(prims, f), CacheRedis.DefaultTtl, faults);
  }

  /** As written, `setFileInCache` without a key rejects with a TypeError and
      writes nothing, whatever the record. */
  lemma SetFileInCacheWithoutKeyFails(s: RedisState, prims: Primitives, f: StoredFile,
                                      faults: CacheRedis.HashWriteFaults)
    ensures SetFileInCacheOutcome(s, prims, f, "", faults) == Effect(Rejected(TypeError), s)
  {
  }

  /** The intended fallback caches the record under its name's key, where the
      written version fails; with a key both agree. */
  lemma SetFileInCacheIntendedFallback(s: RedisState, prims: Primitives, f: StoredFile, fileKey: string)
    requires FallbackKey(prims, f) !in s.store
    ensures var e := SetFileInCacheIntendedOutcome(s, prims, f, "", CacheRedis.HashWriteFaults(false, false));
      var key := FallbackKey(prims, f);
      && e.result == Resolved(true)
      && key in e.state.store && e.state.store[key] == Hash(ToMap(CacheEntries(prims, f)))
      && e.state.ttl == s.ttl[key := 60]
    ensures fileKey != "" ==> forall faults :: SetFileInCacheIntendedOutcome(s, prims, f, fileKey, faults)
                                             == SetFileInCacheOutcome(s, prims, f, fileKey, faults)
  {
    var entries := CacheEntries(prims, f);
    assert |entries| > 0;
    CacheRedis.SetHashSuccess(s, FallbackKey(prims, f), entries, CacheRedis.DefaultTtl);
    UnionWithEmpty(ToMap(entries));
  }

  /** `checkBucket` never removes a bucket and never touches an object; with
      `makeBucket` and no failure the bucket exists afterwards. */
  lemma CheckBucketMeaning(s: MinioState, bucket: string, makeBucket: bool, faults: BucketFaults)
    ensures var t := CheckBucketOutcome(s, bucket, makeBucket, faults);
      && s.buckets <= t.buckets <= s.buckets + {bucket}
      && t.objects == s.objects
      && (makeBucket && !faults.bucketExists && !faults.makeBucket ==> bucket in t.buckets)
      && (bucket in t.buckets <==> bucket in s.buckets || (makeBucket && !faults.bucketExists && !faults.makeBucket))
  {
  }

  /** `uploadToMinio` never resolves false; it resolves true exactly when the
      put succeeds with a non-empty etag, and a successful put stores the
      bytes as `application/octet-stream` even when the empty etag then rejects. */
  lemma UploadToMinioMeaning(s: MinioState, bucket: string, destination: string, hashedFileName: string,
                             file: BufferedFile, faults: MinioFaults)
    ensures var e := UploadToMinioOutcome(s, bucket, destination, hashedFileName, file, faults);
      var checked := CheckBucketOutcome(s, bucket, true, faults.bucket);
      var ref := ObjectRef(bucket, ObjectName(destination, hashedFileName));
      && (e.result == Resolved(true) || e.result == Rejected(Message(UploadRejection)))
      && (e.result == Resolved(true) <==> !faults.put && bucket in checked.buckets && faults.etag != "")
      && (!faults.put && bucket in checked.buckets ==>
            ref in e.state.objects && e.state.objects[ref] == StoredObject(file.buffer, OctetStreamMetadata))
      && (faults.put || bucket !in checked.buckets ==> e.state == checked)
  {
  }

  /** A failed bucket check does not stop the upload: with the bucket already
      there, a failing `bucketExists` still ends in a stored object. */
  lemma UploadToMinioIgnoresBucketCheck(s: MinioState, bucket: string, destination: string, hashedFileName: string,
                                        file: BufferedFile, etag: string)
    requires bucket in s.buckets && etag != ""
    ensures var e := UploadToMinioOutcome(s, bucket, destination, hashedFileName, file,
                                          MinioFaults(BucketFaults(true, false), false, etag));
      e.result == Resolved(true) && ObjectRef(bucket, ObjectName(destination, hashedFileName)) in e.state.objects
  {
  }

  /** On a cache miss the servers end as the two writes leave them, and only
      two writes that both resolve true let the final read decide the result. */
  lemma UploadStepsOnMiss(redis: RedisState, minio: MinioState, up: Effect<Settled<bool>, MinioState>,
                          cw: Effect<Settled<bool>, RedisState>, reread: Settled<Option<CachedFile>>)
    ensures var e := UploadSteps(redis, minio, Resolved(None), up, cw, reread);
      && e.redis == cw.state && e.minio == up.state
      && (up.result != Resolved(true) || cw.result != Resolved(true) ==> e.result == Undefined)
      && (up.result == Resolved(true) && cw.result == Resolved(true) ==>
            && (reread.Rejected? ==> e.result == Undefined)
            && (reread == Resolved(None) ==> e.result == Null)
            && (reread.Resolved? && reread.value.Some? ==> e.result == Value(reread.value.value)))
  {
  }

  /** Fast path: a file found in the cache is returned without any write to
      either server. */
  lemma UploadServedFromCache(redis: RedisState, minio: MinioState, prims: Primitives, baseBucket: string,
                              file: BufferedFile, destination: string, faults: UploadFaults)
    requires var r := GetFileFromCacheOutcome(redis, prims, file, UploadKey(prims.sha1, file), faults.lookup);
      r.Resolved? && r.value.Some?
    ensures var e := UploadFileOutcome(redis, minio, prims, baseBucket, file, destination, faults);
      var r := GetFileFromCacheOutcome(redis, prims, file, UploadKey(prims.sha1, file), faults.lookup);
      e == UploadEffect(Value(r.value.value), redis, minio)
  {
  }

  /** A failing cache lookup resolves `undefined` and writes nothing. */
  lemma UploadLookupFailure(redis: RedisState, minio: MinioState, prims: Primitives, baseBucket: string,
                            file: BufferedFile, destination: string, faults: UploadFaults)
    requires GetFileFromCacheOutcome(redis, prims, file, UploadKey(prims.sha1, file), faults.lookup).Rejected?
    ensures UploadFileOutcome(redis, minio, prims, baseBucket, file, destination, faults)
         == UploadEffect(Undefined, redis, minio)
  {
  }

  /** On a cache miss both writes are issued, whatever happens to the other:
      the servers end as the MinIO upload and the cache write leave them, with
      no rollback of either. */
  lemma UploadIssuesBothWrites(redis: RedisState, minio: MinioState, prims: Primitives, baseBucket: string,
                               file: BufferedFile, destination: string, faults: UploadFaults)
    requires GetFileFromCacheOutcome(redis, prims, file, UploadKey(prims.sha1, file), faults.lookup) == Resolved(None)
    ensures var e := UploadFileOutcome(redis, minio, prims, baseBucket, file, destination, faults);
      var hashedFileName := HashedFileName(prims.sha1, file.originalname);
      && e.minio == UploadToMinioOutcome(minio, baseBucket, destination, hashedFileName, file, faults.minio).state
      && e.redis == SetFileInCacheOutcome(redis, prims, FileToCache(file, hashedFileName),
                                          UploadKey(prims.sha1, file), faults.cacheWrite).state
  {
    var hashedFileName := HashedFileName(prims.sha1, file.originalname);
    var key := UploadKey(prims.sha1, file);
    var up := UploadToMinioOutcome(minio, baseBucket, destination, hashedFileName, file, faults.minio);
    var cw := SetFileInCacheOutcome(redis, prims, FileToCache(file, hashedFileName), key, faults.cacheWrite);
    UploadStepsOnMiss(redis, minio, up, cw, GetFileFromCacheOutcome(cw.state, prims, file, key, faults.reread));
  }

  /** `uploadFile` never resolves `null`, and a record it resolves after a
      cache miss comes from a cache that both writes succeeded on: it is what
      a fault-free read of the new cache state gives. */
  lemma UploadResultMeaning(redis: RedisState, minio: MinioState, prims: Primitives, baseBucket: string,
                            file: BufferedFile, destination: string, faults: UploadFaults)
    requires GetFileFromCacheOutcome(redis, prims, file, UploadKey(prims.sha1, file), faults.lookup) == Resolved(None)
    ensures var e := UploadFileOutcome(redis, minio, prims, baseBucket, file, destination, faults);
      var hashedFileName := HashedFileName(prims.sha1, file.originalname);
      var key := UploadKey(prims.sha1, file);
      && e.result != Null
      && (e.result.Value? ==>
            && UploadToMinioOutcome(minio, baseBucket, destination, hashedFileName, file, faults.minio).result == Resolved(true)
            && SetFileInCacheOutcome(redis, prims, FileToCache(file, hashedFileName), key, faults.cacheWrite).result == Resolved(true)
            && GetFileFromCacheOutcome(e.redis, prims, file, key, ReadFaults(false, false)) == Resolved(Some(e.result.value)))
  {
    var hashedFileName := HashedFileName(prims.sha1, file.originalname);
    var key := UploadKey(prims.sha1, file);
    var f := FileToCache(file, hashedFileName);
    var cw := SetFileInCacheOutcome(redis, prims, f, key, faults.cacheWrite);
    var up := UploadToMinioOutcome(minio, baseBucket, destination, hashedFileName, file, faults.minio);
    var entries := CacheEntries(prims, f);
    UploadStepsOnMiss(redis, minio, up, cw, GetFileFromCacheOutcome(cw.state, prims, file, key, faults.reread));
    SetFileInCacheMeaning(redis, prims, f, key, faults.cacheWrite);
    if cw.result == Resolved(true) {
      var hm := HmSetOp(redis, key, Flatten(entries), faults.cacheWrite.hmset);
      assert key in hm.state.store;
      assert key in cw.state.store;
    }
  }

  /** A complete upload of a file not yet cached, into an existing bucket with
      no failure: the object is stored, the cache holds exactly the six fields
      for 60 seconds, and the record read back is returned. */
  lemma UploadFullSuccess(redis: RedisState, minio: MinioState, prims: Primitives, baseBucket: string,
                          file: BufferedFile, destination: string, etag: string)
    requires UploadKey(prims.sha1, file) !in redis.store
    requires baseBucket in minio.buckets && etag != ""
    ensures var faults := UploadFaults(ReadFaults(false, false), MinioFaults(BucketFaults(false, false), false, etag),
                                       CacheRedis.HashWriteFaults(false, false), ReadFaults(false, false));
      var e := UploadFileOutcome(redis, minio, prims, baseBucket, file, destination, faults);
      var hashedFileName := HashedFileName(prims.sha1, file.originalname);
      var key := UploadKey(prims.sha1, file);
      var fields := UploadFields(prims, file, hashedFileName);
      && e.result == Value(CachedFile(fields - {"file"}, prims.fromBase64(prims.renderBuffer(file.buffer))))
      && e.redis.store == redis.store[key := Hash(fields)]
      && e.redis.ttl == redis.ttl[key := 60]
      && e.minio.objects == minio.objects[ObjectRef(baseBucket, ObjectName(destination, hashedFileName))
                                          := StoredObject(file.buffer, OctetStreamMetadata)]
      && e.minio.buckets == minio.buckets
  {
    var hashedFileName := HashedFileName(prims.sha1, file.originalname);
    var key := UploadKey(prims.sha1, file);
    var f := FileToCache(file, hashedFileName);
    var fields := UploadFields(prims, file, hashedFileName);
    var faults := UploadFaults(ReadFaults(false, false), MinioFaults(BucketFaults(false, false), false, etag),
                               CacheRedis.HashWriteFaults(false, false), ReadFaults(false, false));
    GetFileFromCacheMeaning(redis, prims, file, key, faults.lookup);
    UploadToMinioMeaning(minio, baseBucket, destination, hashedFileName, file, faults.minio);
    UploadIssuesBothWrites(redis, minio, prims, baseBucket, file, destination, faults);
    CacheWriteSuccess(redis, prims, f, key);
    UploadEntries(prims, file, hashedFileName);
    UploadFieldsFile(prims, file, hashedFileName);
    var written := RedisState(redis.store[key := Hash(fields)], redis.ttl[key := 60]);
    GetFileFromCacheMeaning(written, prims, file, key, faults.reread);
    UploadAfterBothWrites(redis, minio, prims, baseBucket, file, destination, faults);
  }

  /** An upload's record holds its bytes, rendered, under `file`. */
  lemma UploadFieldsFile(prims: Primitives, file: BufferedFile, hashedFileName: string)
    ensures "file" in UploadFields(prims, file, hashedFileName)
    ensures UploadFields(prims, file, hashedFileName)["file"] == prims.renderBuffer(file.buffer)
  {
  }

  /** A fault-free cache write of a record under a fresh key stores exactly
      the record's fields there, expiring in 60 seconds. */
  lemma CacheWriteSuccess(redis: RedisState, prims: Primitives, f: StoredFile, key: string)
    requires key != "" && key !in redis.store
    ensures SetFileInCacheOutcome(redis, prims, f, key, CacheRedis.HashWriteFaults(false, false))
         == Effect(Resolved(true), RedisState(redis.store[key := Hash(ToMap(CacheEntries(prims, f)))], redis.ttl[key := 60]))
  {
    var entries := CacheEntries(prims, f);
    assert |entries| > 0;
    CacheRedis.SetHashSuccess(redis, key, entries, CacheRedis.DefaultTtl);
    UnionWithEmpty(ToMap(entries));
  }

  /** When the lookup misses and both writes resolve true, `uploadFile`
      resolves with what the final read of the cache gives. */
  lemma UploadAfterBothWrites(redis: RedisState, minio: MinioState, prims: Primitives, baseBucket: string,
                              file: BufferedFile, destination: string, faults: UploadFaults)
    requires GetFileFromCacheOutcome(redis, prims, file, UploadKey(prims.sha1, file), faults.lookup) == Resolved(None)
    requires UploadToMinioOutcome(minio, baseBucket, destination, HashedFileName(prims.sha1, file.originalname),
                                  file, faults.minio).result == Resolved(true)
    requires SetFileInCacheOutcome(redis, prims, FileToCache(file, HashedFileName(prims.sha1, file.originalname)),
                                   UploadKey(prims.sha1, file), faults.cacheWrite).result == Resolved(true)
    ensures var e := UploadFileOutcome(redis, minio, prims, baseBucket, file, destination, faults);
      var reread := GetFileFromCacheOutcome(e.redis, prims, file, UploadKey(prims.sha1, file), faults.reread);
      && (reread.Rejected? ==> e.result == Undefined)
      && (reread == Resolved(None) ==> e.result == Null)
      && (reread.Resolved? && reread.value.Some? ==> e.result == Value(reread.value.value))
  {
    var hashedFileName := HashedFileName(prims.sha1, file.originalname);
    var key := UploadKey(prims.sha1, file);
    var up := UploadToMinioOutcome(minio, baseBucket, destination, hashedFileName, file, faults.minio);
    var cw := SetFileInCacheOutcome(redis, prims, FileToCache(file, hashedFileName), key, faults.cacheWrite);
    UploadStepsOnMiss(redis, minio, up, cw, GetFileFromCacheOutcome(cw.state, prims, file, key, faults.reread));
  }

  /** No rollback: when the cache write fails, the object put to MinIO stays
      and the upload resolves `undefined`. */
  lemma UploadCacheFailureKeepsObject(redis: RedisState, minio: MinioState, prims: Primitives, baseBucket: string,
                                      file: BufferedFile, destination: string, etag: string)
    requires UploadKey(prims.sha1, file) !in redis.store
    requires baseBucket in minio.buckets && etag != ""
    ensures var faults := UploadFaults(ReadFaults(false, false), MinioFaults(BucketFaults(false, false), false, etag),
                                       CacheRedis.HashWriteFaults(true, false), ReadFaults(false, false));
      var e := UploadFileOutcome(redis, minio, prims, baseBucket, file, destination, faults);
      var ref := ObjectRef(baseBucket, ObjectName(destination, HashedFileName(prims.sha1, file.originalname)));
      && e.result == Undefined
      && ref in e.minio.objects && e.minio.objects[ref].data == file.buffer
      && e.redis == redis
  {
  }

  /** No rollback: when the put fails, the hash written to the cache stays
      (and expires in 60 seconds) and the upload resolves `undefined`. */
  lemma UploadPutFailureKeepsHash(redis: RedisState, minio: MinioState, prims: Primitives, baseBucket: string,
                                  file: BufferedFile, destination: string)
    requires UploadKey(prims.sha1, file) !in redis.store
    ensures var faults := UploadFaults(ReadFaults(false, false), MinioFaults(BucketFaults(false, false), true, ""),
                                       CacheRedis.HashWriteFaults(false, false), ReadFaults(false, false));
      var e := UploadFileOutcome(redis, minio, prims, baseBucket, file, destination, faults);
      var key := UploadKey(prims.sha1, file);
      && e.result == Undefined
      && key in e.redis.store
      && e.redis.store[key] == Hash(UploadFields(prims, file, HashedFileName(prims.sha1, file.originalname)))
      && key in e.redis.ttl && e.redis.ttl[key] == 60
  {
    var hashedFileName := HashedFileName(prims.sha1, file.originalname);
    var key := UploadKey(prims.sha1, file);
    var f := FileToCache(file, hashedFileName);
    var faults := UploadFaults(ReadFaults(false, false), MinioFaults(BucketFaults(false, false), true, ""),
                               CacheRedis.HashWriteFaults(false, false), ReadFaults(false, false));
    GetFileFromCacheMeaning(redis, prims, file, key, faults.lookup);
    UploadToMinioMeaning(minio, baseBucket, destination, hashedFileName, file, faults.minio);
    UploadAfterRejectedWrite(redis, minio, prims, baseBucket, file, destination, faults);
    CacheWriteSuccess(redis, prims, f, key);
    UploadEntries(prims, file, hashedFileName);
  }

  /** When the lookup misses and either write rejects, `uploadFile` resolves
      `undefined`, and the servers are as the two writes left them. */
  lemma UploadAfterRejectedWrite(redis: RedisState, minio: MinioState, prims: Primitives, baseBucket: string,
                                 file: BufferedFile, destination: string, faults: UploadFaults)
    requires GetFileFromCacheOutcome(redis, prims, file, UploadKey(prims.sha1, file), faults.lookup) == Resolved(None)
    requires UploadToMinioOutcome(minio, baseBucket, destination, HashedFileName(prims.sha1, file.originalname),
                                  file, faults.minio).result.Rejected?
          || SetFileInCacheOutcome(redis, prims, FileToCache(file, HashedFileName(prims.sha1, file.originalname)),
                                   UploadKey(prims.sha1, file), faults.cacheWrite).result.Rejected?
    ensures var hashedFileName := HashedFileName(prims.sha1, file.originalname);
      UploadFileOutcome(redis, minio, prims, baseBucket, file, destination, faults)
      == UploadEffect(Undefined,
                      SetFileInCacheOutcome(redis, prims, FileToCache(file, hashedFileName),
                                            UploadKey(prims.sha1, file), faults.cacheWrite).state,
                      UploadToMinioOutcome(minio, baseBucket, destination, hashedFileName, file, faults.minio).state)
  {
    var hashedFileName := HashedFileName(prims.sha1, file.originalname);
    var key := UploadKey(prims.sha1, file);
    var up := UploadToMinioOutcome(minio, baseBucket, destination, hashedFileName, file, faults.minio);
    var cw := SetFileInCacheOutcome(redis, prims, FileToCache(file, hashedFileName), key, faults.cacheWrite);
    UploadStepsOnMiss(redis, minio, up, cw, GetFileFromCacheOutcome(cw.state, prims, file, key, faults.reread));
  }

  // ---------------------------------------------------------------------------
  // The service

  class FileTransferService {
    const minio: MinioClient
    const cache: CacheRedis.RedisCacheService
    /** The configured `baseBucket`. */
    const baseBucket: string
    const prims: Primitives

    constructor (minio: MinioClient, cache: CacheRedis.RedisCacheService, baseBucket: string, prims: Primitives)
      ensures this.minio == minio && this.cache == cache && this.baseBucket == baseBucket && this.prims == prims
    {
      this.minio := minio;
      this.cache := cache;
      this.baseBucket := baseBucket;
      this.prims := prims;
    }

    method GetFileFromCache(file: BufferedFile, fileKey: string, faults: ReadFaults)
      returns (r: Settled<Option<CachedFile>>)
      ensures r == GetFileFromCacheOutcome(cache.client.state, prims, file, fileKey, faults)
    {
      var key := if fileKey != "" then fileKey else UploadKey(prims.sha1, file);
      var present := cache.RecordExists(key, faults.recordExists);
      if present.Rejected? {
        return Rejected(Message(GetRejection));
      }
      if !present.value {
        return Resolved(None);
      }
      var cached := cache.GetHash(key, faults.hgetall);
      if cached.value.None? || "file" !in cached.value.value {
        return Rejected(Message(GetRejection));
      }
      var fields := cached.value.value;
      r := Resolved(Some(CachedFile(fields - {"file"}, prims.fromBase64(fields["file"]))));
    }

    /** As written. */
    method SetFileInCache(f: StoredFile, fileKey: string, faults: CacheRedis.HashWriteFaults)
      returns (r: Settled<bool>)
      modifies cache.client
      ensures Effect(r, cache.client.state) == SetFileInCacheOutcome(old(cache.client.state), prims, f, fileKey, faults)
    {
      if fileKey == "" {
        return Rejected(TypeError);
      }
      var written := cache.SetHash(fileKey, CacheEntries(prims, f), CacheRedis.DefaultTtl, faults);
      r := if written.Rejected? then Rejected(Message(SetRejection)) else written;
    }

    /** As evidently intended. */
    method SetFileInCacheIntended(f: StoredFile, fileKey: string, faults: CacheRedis.HashWriteFaults)
      returns (r: Settled<bool>)
      modifies cache.client
      ensures Effect(r, cache.client.state) == SetFileInCacheIntendedOutcome(old(cache.client.state), prims, f, fileKey, faults)
    {
      var key := if fileKey != "" then fileKey else FallbackKey(prims, f);
      var written := cache.SetHash(key, CacheEntries(prims, f), CacheRedis.DefaultTtl, faults);
      r := if written.Rejected? then Rejected(Message(SetRejection)) else written;
    }

    method CheckBucket(bucket: string, makeBucket: bool, faults: BucketFaults)
      modifies minio
      ensures minio.state == CheckBucketOutcome(old(minio.state), bucket, makeBucket, faults)
    {
      var present := minio.BucketExists(bucket, faults.bucketExists);
      if present.Ok? && !present.value && makeBucket {
        var _ := minio.MakeBucket(bucket, faults.makeBucket, false);
      }
    }

    method UploadToMinio(bucket: string, destination: string, hashedFileName: string, file: BufferedFile,
                         faults: MinioFaults) returns (r: Settled<bool>)
      modifies minio
      ensures Effect(r, minio.state)
           == UploadToMinioOutcome(old(minio.state), bucket, destination, hashedFileName, file, faults)
    {
      var fileName := ObjectName(destination, hashedFileName);
      CheckBucket(bucket, true, faults.bucket);
      var etag := minio.PutObject(bucket, fileName, file.buffer, OctetStreamMetadata, faults.put, faults.etag);
      if etag.Failed? || etag.value == "" {
        return Rejected(Message(UploadRejection));
      }
      r := Resolved(true);
    }

    method UploadFile(file: BufferedFile, destination: string, faults: UploadFaults) returns (r: Nullable<CachedFile>)
      modifies cache.client, minio
      ensures UploadEffect(r, cache.client.state, minio.state)
           == UploadFileOutcome(old(cache.client.state), old(minio.state), prims, baseBucket, file, destination, faults)
    {
      var hashedFileName := HashedFileName(prims.sha1, file.originalname);
      var fileCachedKey := UploadKey(prims.sha1, file);
      var cachedFile := GetFileFromCache(file, fileCachedKey, faults.lookup);
      if cachedFile.Rejected? {
        return Undefined;
      }
      if cachedFile.value.Some? {
        return Value(cachedFile.value.value);
      }
      var minioUpload := UploadToMinio(baseBucket, destination, hashedFileName, file, faults.minio);
      var cacheFile := SetFileInCache(FileToCache(file, hashedFileName), fileCachedKey, faults.cacheWrite);
      if minioUpload.Rejected? || cacheFile.Rejected? {
        return Undefined;
      }
      if !(minioUpload.value && cacheFile.value) {
        return Undefined;
      }
      var fileFromCache := GetFileFromCache(file, fileCachedKey, faults.reread);
      match fileFromCache
      case Rejected(_) => r := Undefined;
      case Resolved(None) => r := Null;
      case Resolved(Some(c)) => r := Value(c);
    }
  }
}
