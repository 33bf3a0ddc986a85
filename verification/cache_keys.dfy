/** The key constants of the cache module (src/cache/redis-keys.ts). */
module CacheKeys {
  import opened RedisKeys

  // The members of the string enum `rKeys`.
  const Base: string := "file-transfer"
  const Cache: string := "cache"
  const Images: string := "images"
  const Documents: string := "documents"

  const BaseKey: string := Base
  const CacheKey: string := Rk([BaseKey, Cache])
  const CachedImgsKey: string := Rk([CacheKey, Images])
  const CachedDocsKey: string := Rk([CacheKey, Documents])

  lemma KeyValues()
    ensures BaseKey == "file-transfer"
    ensures CacheKey == "file-transfer:cache"
    ensures CachedImgsKey == "file-transfer:cache:images"
    ensures CachedDocsKey == "file-transfer:cache:documents"
  {
    RkOfTwo(BaseKey, Cache);
    RkOfTwo(CacheKey, Images);
    RkOfTwo(CacheKey, Documents);
  }

  /** Each derived constant is the flat join of the enum members it is built from. */
  lemma KeysFlatten()
    ensures CacheKey == Rk([Base, Cache])
    ensures CachedImgsKey == Rk([Base, Cache, Images])
    ensures CachedDocsKey == Rk([Base, Cache, Documents])
  {
    RkNested([Base, Cache], [Images]);
    assert [Base, Cache] + [Images] == [Base, Cache, Images];
    RkNested([Base, Cache], [Documents]);
    assert [Base, Cache] + [Documents] == [Base, Cache, Documents];
  }

  /** The key of a cached image is the images prefix, a ":" and the name. */
  lemma {:induction false} ImageKeyLayout(name: string)
    ensures Rk([CachedImgsKey, name]) == "file-transfer:cache:images:" + name
  {
    KeyValues();
    RkOfTwo(CachedImgsKey, name);
  }
}
