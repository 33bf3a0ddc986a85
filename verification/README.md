# nestjs-fileuploader: a Dafny model of the cache-aside upload

This project models the core of a NestJS file-upload service. The service
stores uploaded files in MinIO, an S3-compatible object store, and keeps a
copy of each file as a hash in Redis. An upload is identified by the SHA-1
digest of its original name plus the name's extension. It is looked up in
Redis first. On a miss, the file is put to MinIO and written into Redis, and
the cached record is read back.

The Redis and MinIO servers are abstract state:

- `Redis.RedisState` maps each key to a string or a hash, and records the
  expiry last given to each key.
- `Minio.MinioState` holds a set of buckets and a map from (bucket, object
  name) to the stored bytes and headers.

Each client call is a pure function of that state. It takes a `fail` flag,
and when the flag is set the call fails without changing anything. A thin
client class (`Redis.RedisClient`, `Minio.MinioClient`) holds the state and
offers one method per call.

The service classes keep a reference to their client, as the TypeScript
classes do. Each method that changes the servers is proved equal to a pure
"outcome" function of the previous state. The behaviour the code promises is
then proved about those outcome functions, as lemmas. A promise or a
single-emission observable is modelled by what it settles with, a
`Settled<T>` (`Resolved` or `Rejected`). JavaScript's `undefined` and `null`
are modelled by `Nullable<T>`.

Modules, one per source file:

- `RedisKeys`: `rk`, which both key files define identically.
- `CacheKeys`: the constants of src/cache/redis-keys.ts.
- `StorageKeys`: the constants of src/storage/redis-keys.ts.
- `FileUtils`: src/utils/file-utils.ts.
- `CacheRedis`: src/cache/redis-cache.service.ts.
- `StorageRedis`: src/storage/redis-storage.service.ts.
- `StorageCache`: src/storage/redis-cache.service.ts.
- `MinioStorage`: src/storage/minio-storage.service.ts.
- `FileTransfer`: src/file-transfer/file-transfer.service.ts.
- Shared modules: `FileModel` holds the records of src/models/file.model.ts,
  and `Outcomes` holds the settled values.

## Model

| member | source | states |
|---|---|---|
| RedisKeys.Rk | src/cache/redis-keys.ts:8-10 | `rk(...parts)` starts with its first part, and a `":"` follows that part when there are several |
| RedisKeys.RkOfNothing | src/cache/redis-keys.ts:8-10 | `rk()` is the empty string |
| RedisKeys.RkOfOne | src/cache/redis-keys.ts:8-10 | `rk(a)` is `a` unchanged |
| RedisKeys.RkOfTwo | src/storage/redis-keys.ts:9-11 | `rk(a, b)` is `a`, then `":"`, then `b` |
| RedisKeys.RkAppend | src/cache/redis-keys.ts:8-10 | joining two non-empty part lists is joining their joins with `":"` |
| RedisKeys.RkNested | src/cache/redis-keys.ts:12-15 | nesting flattens: `rk(rk(xs...), ys...) == rk(xs..., ys...)` |
| RedisKeys.SplitRk | src/cache/redis-keys.ts:8-10 | splitting `rk(parts)` on `":"` gives back the parts, for a non-empty list of parts without `":"` |
| RedisKeys.RkInjective | src/storage/redis-keys.ts:9-11 | two keys built from separator-free parts are equal exactly when the parts are |
| CacheKeys.KeyValues | src/cache/redis-keys.ts:1-15 | the cache module's constants are `file-transfer`, `file-transfer:cache`, `file-transfer:cache:images` and `file-transfer:cache:documents` |
| CacheKeys.KeysFlatten | src/cache/redis-keys.ts:12-15 | each constant is `rk` of the flat list of enum parts |
| CacheKeys.ImageKeyLayout | src/cache/redis-keys.ts:12-15 | `rk(rCachedImgsKey, name)` is `file-transfer:cache:images:` followed by the name |
| StorageKeys.KeyValues | src/storage/redis-keys.ts:1-15 | the storage module's constants are `file-transfer`, `file-transfer:cache` and `file-transfer:cache:files` |
| StorageKeys.KeysFlatten | src/storage/redis-keys.ts:13-15 | each constant is `rk` of the flat list of enum parts |
| FileUtils.ExtNameShape | src/utils/file-utils.ts:48-49 | an extension is empty, or a `.` followed by characters that are neither `.` nor `/` |
| FileUtils.ExtNameWithoutDot | src/utils/file-utils.ts:48-49 | a path without `.` has no extension |
| FileUtils.ExtNameOfPlainName | src/utils/file-utils.ts:48-49 | for a name without `/`, the extension is the suffix from the last `.`, when that `.` is not the first character |
| FileUtils.GetHash | src/utils/file-utils.ts:39-46 | with the default algorithm and digest, the hash is SHA-1 of the string as 40 lower-case hex characters |
| FileUtils.HashedFileName | src/utils/file-utils.ts:48-49 | the identifier is the 40 lower-case hex digits of SHA-1 of the original name, followed by the name's extension; both parts can be read back from it |
| FileUtils.HashedFileNameDetermines | src/utils/file-utils.ts:48-49 | equal identifiers come only from names with equal digests and equal extensions |
| FileUtils.HashedFileNameWithoutExtension | src/utils/file-utils.ts:39-49 | for a name without `.`, the identifier is the digest alone |
| FileUtils.HashedFileNameKeepsExtension | src/utils/file-utils.ts:48-49 | for a plain name such as `report.pdf`, the identifier is the digest followed by `.pdf` |
| FileUtils.GetFilePath | src/utils/file-utils.ts:28-35 | the path is `cwd/rootDirectory/` followed by the destination, or by `fallbackDestination` when the destination is empty |
| FileUtils.FilePathLayout | src/utils/file-utils.ts:28-35 | the path is `cwd/rootDirectory/` followed by the destination, or by the fallback for an empty destination; for names without `/`, that last part is the path's last segment |
| FileUtils.DefaultFilePath | src/utils/file-utils.ts:28-35 | with the defaults, an empty destination gives `cwd/tmp_files/unknown` |
| FileUtils.GetOriginalFileMetadata | src/utils/file-utils.ts:51-61 | copies encoding, MIME type and size, renames `originalname` to `name`, and sets no `id` and no `updatedAt` |
| FileUtils.SetHashName | src/utils/file-utils.ts:15-18 | the callback receives no error and the file's hashed name |
| Redis.Flatten | src/cache/redis-cache.service.ts:42-45 | the `reduce`/`concat` fold equals the pairwise interleaving `[k1, v1, k2, v2, ...]`, defined independently |
| Redis.FlattenLayout | src/cache/redis-cache.service.ts:42-45 | the flattened list is twice as long as the entries, with field i at 2i and its value at 2i+1 |
| Redis.PairsOfFlatten | src/storage/redis-storage.service.ts:64-67 | reading the flattened list back two by two gives the entries in order |
| Redis.ToMapLookup | src/cache/redis-cache.service.ts:42-47 | with distinct fields, every field of the entries maps to its own value, and nothing else is a field |
| Redis.AssignFlattened | src/cache/redis-cache.service.ts:46-47 | writing the flattened list into a hash sets exactly the entries' fields over the old ones |
| Redis.HmSetEntries | src/cache/redis-cache.service.ts:42-47 | a successful HMSET of the flattened entries updates the hash by the entries and leaves the expiry alone |
| Redis.DecimalRoundTrip | src/file-transfer/file-transfer.service.ts:53-57 | the decimal text written for the size reads back as the size |
| Minio.ObjectName | src/storage/minio-storage.service.ts:59 | the object name is the destination, `/`, then the id |
| Minio.ObjectNameInjective | src/file-transfer/file-transfer.service.ts:150 | in one destination, object names are equal exactly when the ids are |
| CacheRedis.RecordExistsMeaning | src/cache/redis-cache.service.ts:14-16 | `recordExists` is whether the key is stored, and rejects exactly when the client fails |
| CacheRedis.GetRecordMeaning | src/cache/redis-cache.service.ts:18-25 | `getRecord` never rejects; it yields a value exactly when the key holds that string and the call succeeds, and `null` otherwise |
| CacheRedis.SetRecordMeaning | src/cache/redis-cache.service.ts:27-35 | `setRecord` resolves true or rejects, never false; on success the key holds the value with expiry `ttl`; on rejection nothing changed |
| CacheRedis.SetHashSuccess | src/cache/redis-cache.service.ts:37-54 | with a positive expiry (60 by default) and no failure, the key holds the old fields updated by the entries and expires after `ttl`; every other key is untouched |
| CacheRedis.SetHashFailures | src/cache/redis-cache.service.ts:46-53 | `setHash` resolves true or rejects; a failed HMSET changes nothing; a failed EXPIRE keeps the written fields |
| CacheRedis.GetHashMeaning | src/cache/redis-cache.service.ts:56-64 | `getHash` never rejects; it yields the fields of a hash, `{}` for a missing key, and `null` for a string key or a failed call |
| CacheRedis.RedisCacheService.RecordExists | src/cache/redis-cache.service.ts:14-16 | the method settles as `recordExists` does on the current state |
| CacheRedis.RedisCacheService.GetRecord | src/cache/redis-cache.service.ts:18-25 | the method settles as `getRecord` does on the current state |
| CacheRedis.RedisCacheService.SetRecord | src/cache/redis-cache.service.ts:27-35 | result and new state are those of `setRecord` on the old state |
| CacheRedis.RedisCacheService.SetHash | src/cache/redis-cache.service.ts:37-54 | result and new state are those of HMSET then EXPIRE on the old state |
| CacheRedis.RedisCacheService.GetHash | src/cache/redis-cache.service.ts:56-64 | the method settles as `getHash` does on the current state |
| StorageRedis.RecordExistsMeaning | src/storage/redis-storage.service.ts:23-25 | `recordExists` emits whether the key is stored, and errors exactly when the client fails |
| StorageRedis.GetRecordMeaning | src/storage/redis-storage.service.ts:27-36 | `getRecord` never errors; it emits a value exactly when the key holds that non-empty string and the call succeeds |
| StorageRedis.GetHashMeaning | src/storage/redis-storage.service.ts:42-51 | `getHash` never errors; it emits the fields of a hash (`{}` for a missing key), and `null` for a string key or a failure |
| StorageRedis.SetRecordMeaning | src/storage/redis-storage.service.ts:53-62 | `setRecord` emits true exactly when the call succeeds, and then the key holds the value and no key gains an expiry (the key's own is dropped); false leaves the server as it was |
| StorageRedis.SetHashMeaning | src/storage/redis-storage.service.ts:64-76 | `setHash` emits true exactly for a successful write of non-empty entries to a key holding no string; no expiry changes; false means no change |
| StorageRedis.RedisStorageService.RecordExists | src/storage/redis-storage.service.ts:23-25 | the method emits what `recordExists` emits on the current state |
| StorageRedis.RedisStorageService.GetRecord | src/storage/redis-storage.service.ts:27-36 | the method emits what `getRecord` emits on the current state |
| StorageRedis.RedisStorageService.GetHash | src/storage/redis-storage.service.ts:42-51 | the method emits what `getHash` emits on the current state |
| StorageRedis.RedisStorageService.SetRecord | src/storage/redis-storage.service.ts:53-62 | result and new state are those of a plain SET on the old state |
| StorageRedis.RedisStorageService.SetHash | src/storage/redis-storage.service.ts:64-76 | result and new state are those of HMSET of the flattened entries on the old state |
| StorageCache.GetRecordFromCacheResult | src/storage/redis-cache.service.ts:17-32 | `getRecordFromCache` emits exactly what `getRecord` emits and never errors |
| StorageCache.GetRecordFromCacheExpiry | src/storage/redis-cache.service.ts:17-25 | a hit with `resetTtl` renews the expiry to `ttl`; a miss, a failed read or `resetTtl == false` changes nothing |
| StorageCache.SetRecordInCacheMeaning | src/storage/redis-cache.service.ts:47-60 | as written, `setRecordInCache` never emits false: true exactly when SET EX succeeds, and then the key holds the value with expiry `ttl`; otherwise it errors with a TypeError (its error handler uses the unassigned `logger`) and nothing changed |
| StorageCache.SetRecordInCacheFailureErrors | src/storage/redis-cache.service.ts:54-58 | as written, a SET with expiry 0 makes `setRecordInCache` error with a TypeError, where the intended version emits false |
| StorageCache.SetRecordInCacheIntendedMeaning | src/storage/redis-cache.service.ts:47-60 | the intended `setRecordInCache` never errors: true exactly when SET EX succeeds, and then the key holds the value with expiry `ttl`; false means no change |
| StorageCache.SetHashInCacheDefaultTtl | src/storage/redis-cache.service.ts:62-77 | with the default `ttl` (null) it emits `setHash`'s boolean and touches no expiry |
| StorageCache.SetHashInCacheWithTtl | src/storage/redis-cache.service.ts:62-70 | with a positive `ttl` and no failure, the key holds its old fields updated by the entries, every other key is untouched, and the hash expires after `ttl` |
| StorageCache.SetHashInCacheExpiresAfterFailure | src/storage/redis-cache.service.ts:62-70 | the expiry is issued even after `setHash` emitted false |
| StorageCache.GetHashFromCacheDiscrepancy | src/storage/redis-cache.service.ts:34-45 | as written, the result is `undefined` even for a stored hash, and nothing changes; the intended version yields the hash and renews its expiry |
| StorageCache.GetHashFromCacheMeaning | src/storage/redis-cache.service.ts:34-45 | the intended version emits what `getHash` emits and never errors; a hit with `resetTtl` renews the expiry, and anything else changes nothing |
| StorageCache.RedisCacheService.IsRecordInCache | src/storage/redis-cache.service.ts:13-15 | the method emits exactly what `storage.recordExists` emits |
| StorageCache.RedisCacheService.GetRecordFromCache | src/storage/redis-cache.service.ts:17-32 | result and new state are those of `getRecordFromCache` on the old state |
| StorageCache.RedisCacheService.GetHashFromCache | src/storage/redis-cache.service.ts:34-45 | as written: `undefined`, with the state unchanged |
| StorageCache.RedisCacheService.GetHashFromCacheIntended | src/storage/redis-cache.service.ts:34-45 | result and new state are those of the intended `getHashFromCache` on the old state |
| StorageCache.RedisCacheService.SetRecordInCache | src/storage/redis-cache.service.ts:47-60 | result and new state are those of `setRecordInCache` as written, on the old state |
| StorageCache.RedisCacheService.SetRecordInCacheIntended | src/storage/redis-cache.service.ts:47-60 | result and new state are those of the intended `setRecordInCache`, on the old state |
| StorageCache.RedisCacheService.SetHashInCache | src/storage/redis-cache.service.ts:62-77 | result and new state are those of `setHash`, followed by EXPIRE when `ttl` is not null |
| MinioStorage.CheckBucketExistsWithoutCreation | src/storage/minio-storage.service.ts:81-97 | for an existing bucket, or when `makeBucket` is false, the answer is the existence flag and the server is unchanged |
| MinioStorage.CheckBucketExistsCreation | src/storage/minio-storage.service.ts:89-93 | a missing bucket with `makeBucket` is created unless `makeBucket` fails; the answer is true only when it was created and `makeBucket`'s value is truthy |
| MinioStorage.CheckBucketExistsError | src/storage/minio-storage.service.ts:85-87 | a failed `bucketExists` reaches the subscriber as an error, with no change |
| MinioStorage.UploadAfterPositiveCheck | src/storage/minio-storage.service.ts:49-69 | after a positive check, `upload` emits whether the put succeeded; on success the file is stored under `destination/hashedFileName` with its MIME type as Content-Type |
| MinioStorage.UploadFalseStoresNothing | src/storage/minio-storage.service.ts:61-78 | `upload` emits false exactly when the check errored, or when the put failed after a positive check; a false stores no object |
| MinioStorage.UploadReportsSuccessWithoutObject | src/storage/minio-storage.service.ts:62-72 | as written, a missing bucket that could not be created still yields true, and no object is stored |
| MinioStorage.UploadIntendedStoresObject | src/storage/minio-storage.service.ts:49-79 | the intended `upload` yields true only when the object is stored with the file's bytes and headers |
| MinioStorage.DownloadMeaning | src/storage/minio-storage.service.ts:30-47 | `download` emits the stored bytes exactly when the bucket and the object exist and nothing fails; for a missing bucket it emits the error observable |
| MinioStorage.DownloadDiscrepancy | src/storage/minio-storage.service.ts:36-41 | as written, a missing bucket makes `download` emit the `throwError` observable; the intended version emits `null` |
| MinioStorage.DownloadIntendedMeaning | src/storage/minio-storage.service.ts:30-47 | the intended `download` emits the stored bytes or `null`, nothing else |
| MinioStorage.UploadThenDownload | src/storage/minio-storage.service.ts:30-79 | when the bucket exists, a fault-free `upload` yields true, and `download` of the same id then emits the uploaded bytes |
| MinioStorage.MinioStorageService.CheckBucketExists | src/storage/minio-storage.service.ts:81-98 | result and new state are those of `checkBucketExists` on the old state |
| MinioStorage.MinioStorageService.Upload | src/storage/minio-storage.service.ts:49-79 | result and new state are those of `upload` as written, on the given bucket or by default `baseBucket` |
| MinioStorage.MinioStorageService.UploadIntended | src/storage/minio-storage.service.ts:49-79 | result and new state are those of the intended `upload`, on the given bucket or by default `baseBucket` |
| MinioStorage.MinioStorageService.Download | src/storage/minio-storage.service.ts:30-47 | the emission is that of `download` as written, on the current state and the given bucket or by default `baseBucket` |
| MinioStorage.MinioStorageService.DownloadIntended | src/storage/minio-storage.service.ts:30-47 | the emission is that of the intended `download`, on the current state and the given bucket or by default `baseBucket` |
| FileTransfer.FileToCache | src/file-transfer/file-transfer.service.ts:53-57 | the cached record is the identifier, the bytes, encoding, MIME type, size and original name, with no `updatedAt` and no `fileSrc` |
| FileTransfer.UploadKey | src/file-transfer/file-transfer.service.ts:37-38 | the cache key is `file-transfer:cache:images:` followed by the name's digest and extension |
| FileTransfer.CacheEntries | src/file-transfer/file-transfer.service.ts:53-58 | the entries written for a record are six, plus `updatedAt` and `fileSrc` when present, start with `id` and the rendered `file`, and name no field twice |
| FileTransfer.UploadKeyByName | src/file-transfer/file-transfer.service.ts:37-38 | files with the same original name share a cache key |
| FileTransfer.UploadEntries | src/file-transfer/file-transfer.service.ts:53-57 | the record's entries are six, and they describe exactly `id`, `file`, `encoding`, `mimetype`, `size` and `name` |
| FileTransfer.GetFileFromCacheMeaning | src/file-transfer/file-transfer.service.ts:97-121 | `null` exactly for a missing key; a record exactly for a hash holding `file`, read without failure, which is returned with `file` decoded from base64; every other case rejects with `error in getFileFromCache` |
| FileTransfer.SetFileInCacheMeaning | src/file-transfer/file-transfer.service.ts:85-95 | with a key, it resolves true or rejects with `error in setFileInCache`, never false, and leaves the state `setHash` leaves |
| FileTransfer.CacheWriteSuccess | src/file-transfer/file-transfer.service.ts:85-95 | a fault-free write under a fresh key stores exactly the record's fields there, with a 60-second expiry |
| FileTransfer.SetFileInCacheWithoutKeyFails | src/file-transfer/file-transfer.service.ts:86-88 | as written, a call without a key rejects with a TypeError and writes nothing |
| FileTransfer.SetFileInCacheIntendedFallback | src/file-transfer/file-transfer.service.ts:85-95 | the intended fallback caches the record under the key of its name, and agrees with the written code whenever a key is given |
| FileTransfer.CheckBucketMeaning | src/file-transfer/file-transfer.service.ts:123-138 | `checkBucket` never removes a bucket or touches an object; the bucket exists afterwards exactly when it did before, or was created without failure |
| FileTransfer.UploadToMinioMeaning | src/file-transfer/file-transfer.service.ts:140-168 | `uploadToMinio` never resolves false; it resolves true exactly for a successful put with a non-empty etag; a successful put stores the bytes as `application/octet-stream` |
| FileTransfer.UploadToMinioIgnoresBucketCheck | src/file-transfer/file-transfer.service.ts:153-154 | a failing bucket check does not stop `putObject`: the object is still stored |
| FileTransfer.UploadServedFromCache | src/file-transfer/file-transfer.service.ts:39-42 | a cached record is returned as is, with no write to either server |
| FileTransfer.UploadLookupFailure | src/file-transfer/file-transfer.service.ts:36-39 | a failing lookup resolves `undefined` and writes nothing |
| FileTransfer.UploadIssuesBothWrites | src/file-transfer/file-transfer.service.ts:44-67 | on a miss, both the MinIO upload and the cache write are issued; the servers end as those writes leave them, with no rollback |
| FileTransfer.UploadResultMeaning | src/file-transfer/file-transfer.service.ts:64-78 | after a miss, `uploadFile` never resolves `null`; a record it returns means both writes resolved true, and it equals a fault-free read of the new cache |
| FileTransfer.UploadAfterBothWrites | src/file-transfer/file-transfer.service.ts:69-78 | when both writes resolve true, the result is what the final cache read gives (`undefined` on rejection) |
| FileTransfer.UploadStepsOnMiss | src/file-transfer/file-transfer.service.ts:43-82 | on a miss, whatever the two writes do, the servers end as they leave them; unless both resolve true the result is `undefined`, and when both do, the final read decides it (`undefined`, `null` or the record) |
| FileTransfer.UploadAfterRejectedWrite | src/file-transfer/file-transfer.service.ts:64-82 | when either write rejects, `Promise.all` rejects, the error is caught and logged, and the upload resolves `undefined` with both writes' effects kept |
| FileTransfer.UploadFullSuccess | src/file-transfer/file-transfer.service.ts:32-83 | a fault-free upload of an uncached file into an existing bucket stores the object, caches exactly the six fields for 60 seconds, and returns the record read back |
| FileTransfer.UploadCacheFailureKeepsObject | src/file-transfer/file-transfer.service.ts:64-82 | when the cache write fails, the object put to MinIO stays and the result is `undefined` |
| FileTransfer.UploadPutFailureKeepsHash | src/file-transfer/file-transfer.service.ts:64-82 | when the put fails, the cached hash stays with its 60-second expiry and the result is `undefined` |
| FileTransfer.FileTransferService.GetFileFromCache | src/file-transfer/file-transfer.service.ts:97-121 | the method settles as `getFileFromCache` does on the current cache |
| FileTransfer.FileTransferService.SetFileInCache | src/file-transfer/file-transfer.service.ts:85-95 | result and new cache state are those of `setFileInCache` as written |
| FileTransfer.FileTransferService.SetFileInCacheIntended | src/file-transfer/file-transfer.service.ts:85-95 | result and new cache state are those of the intended `setFileInCache` |
| FileTransfer.FileTransferService.CheckBucket | src/file-transfer/file-transfer.service.ts:123-138 | the new MinIO state is that of `checkBucket` on the old one |
| FileTransfer.FileTransferService.UploadToMinio | src/file-transfer/file-transfer.service.ts:140-168 | result and new MinIO state are those of `uploadToMinio` on the old state |
| FileTransfer.FileTransferService.UploadFile | src/file-transfer/file-transfer.service.ts:32-83 | result and both new server states are those of `uploadFile` on the old states |

## Left out

- The HTTP controller and the multer plumbing are not part of this model: they are transport only.
- `setFileDestination`, `setDestinationPath` and `createFilePath` are not modelled, because they do filesystem I/O. `getFilePath` takes the working directory as a parameter.
- `getRecordAsStream` and the stream returned by MinIO's `getObject` are not modelled. `download` emits the stored bytes instead of a stream.
- Client initialisation (`getClient`, `initReditClient`), `listAllBuckets`, logging, modules and configuration are not modelled.
- SHA-1 is a parameter: any function from strings to 40 lower-case hex characters. The other algorithms and digests `getHash` accepts are not modelled.
- Three Node and client conversions are parameters (`FileTransfer.Primitives`): the string the Redis client sends for a Buffer argument, `Buffer.from(s, 'base64')`, and the string it sends for a Date. The model does not assume that decoding the written buffer gives the bytes back. A successful upload returns `fromBase64(renderBuffer(bytes))`, whatever that is.
- `Promise.all` and rxjs scheduling are modelled as sequential calls. The two upload writes touch disjoint servers, so their order does not change the final state. When one write rejects, the other still runs to completion, and the model applies both.
- Expiry is the number of seconds last given to a key. Time does not pass, so no key ever expires.
- A `BufferedFile` buffer is modelled as bytes only, not as the `string` its type also allows. `size` is a natural number, written in decimal.
- The storage cache's `getHashFromCache` is modelled as written: the pipeline is built but never returned or subscribed (see Findings).
- GetRecordFromCacheOutcome, SetHashInCacheOutcome and GetHashFromCacheAsWritten do not model what happens when a call nobody awaits fails. The `expire` fired from `tap` in `getRecordFromCache` and `setHashInCache` is neither awaited nor caught, and neither is the HGETALL the as-written `getHashFromCache` issues. A rejection there is an unhandled promise rejection: a warning, or an exit of the process under Node's default since version 15. The model keeps only such a call's effect on the server, and no process exit.
- The MIME type is modelled as a closed enumeration. The text a client sends is mapped onto it; parsing arbitrary text is not modelled.
- The assumed Redis server behaviour: SET without EX drops the expiry, and SET EX with a non-positive expiry fails. EXPIRE on a missing key is a no-op, and EXPIRE with a non-positive value deletes the key. HMSET fails on a string key and on an empty or odd argument list. HGETALL of a missing key gives `{}`.
- The assumed MinIO behaviour: `putObject` fails on a missing bucket, and `makeBucket` fails on an existing one.

## Findings

| source | as written | input that shows it | evidently intended | confidence | as-written member | corrected member |
|---|---|---|---|---|---|---|
| src/storage/minio-storage.service.ts:62-72 | when the bucket check yields false, the async callback returns the `throwError(...)` observable as a value, and `mapTo(true)` turns it into true | no bucket, and `makeBucket` fails (or resolves with a falsy value) | `upload` yields false and stores nothing | high (not executed) | MinioStorage.UploadReportsSuccessWithoutObject | MinioStorage.UploadIntendedStoresObject |
| src/storage/minio-storage.service.ts:36-41 | for a missing bucket, `download` emits the `throwError(...)` observable as a value | an empty server, any destination and file id | `download` emits `null` | high (not executed) | MinioStorage.DownloadDiscrepancy | MinioStorage.DownloadIntendedMeaning |
| src/storage/redis-cache.service.ts:34-45 | `getHashFromCache` builds a pipeline without `return`, so it yields `undefined` and never resets the expiry | a key holding a hash, with the default `resetTtl` and `ttl` | it returns the observable of the hash and renews the expiry, like `getRecordFromCache` | high (not executed) | StorageCache.GetHashFromCacheDiscrepancy | StorageCache.GetHashFromCacheMeaning |
| src/file-transfer/file-transfer.service.ts:86-88 | the fallback key calls `getHashedFileName` on a `StoredFile`, which has no `originalname`, so hashing `undefined` throws a TypeError | `setFileInCache(record)` with no key | the key is derived from the record's `name` | medium (not executed) | FileTransfer.SetFileInCacheWithoutKeyFails | FileTransfer.SetFileInCacheIntendedFallback |
| src/storage/redis-cache.service.ts:47-60 | the class declares `logger` (line 9) but its constructor (line 11) never assigns it, so when SET fails the `catchError` selector's `this.logger.error(...)` throws a TypeError and the observable errors instead of emitting false | `setRecordInCache(key, value, 0)`, or any failing SET | a failed SET emits false, as in the other services, which assign their logger | high (not executed) | StorageCache.SetRecordInCacheFailureErrors | StorageCache.SetRecordInCacheIntendedMeaning |
