/** The key constants of the storage module (src/storage/redis-keys.ts). */
module StorageKeys {
  import opened RedisKeys

  // The members of the string enum `rKeys`.
  const Base: string := "file-transfer"
  const Cache: string := "cache"
  const Files: string := "files"
  const File: string := "file"
  const Metadata: string := "metadata"

  const BaseKey: string := Base
  const CacheKey: string := Rk([BaseKey, Cache])
  const CachedFilesKey: string := Rk([CacheKey, Files])

  lemma KeyValues()
    ensures BaseKey == "file-transfer"
    ensures CacheKey == "file-transfer:cache"
    ensures CachedFilesKey == "file-transfer:cache:files"
  {
    RkOfTwo(BaseKey, Cache);
    RkOfTwo(CacheKey, Files);
  }

  lemma KeysFlatten()
    ensures CachedFilesKey == Rk([Base, Cache, Files])
  {
    RkNested([Base, Cache], [Files]);
    assert [Base, Cache] + [Files] == [Base, Cache, Files];
  }
}
