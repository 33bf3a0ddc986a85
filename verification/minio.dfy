/** An abstract MinIO server: a set of buckets and the objects stored under
    (bucket, object name). As for Redis, every client call takes a `fail` flag
    that makes it fail without changing anything. */
module Minio {
  import opened Outcomes
  import opened FileModel

  datatype ObjectRef = ObjectRef(bucket: string, name: string)

  /** The bytes of an object and the metadata headers it was put with. */
  datatype StoredObject = StoredObject(data: Bytes, metadata: map<string, string>)

  datatype MinioState = MinioState(buckets: set<string>, objects: map<ObjectRef, StoredObject>)

  /** Every object lives in an existing bucket. */
  predicate WellFormed(s: MinioState)
  {
    forall r :: r in s.objects ==> r.bucket in s.buckets
  }

  datatype Step<+T> = Step(reply: Reply<T>, state: MinioState)

  /** The object name both upload paths use: `${destination}/${id}`. */
  function ObjectName(destination: string, id: string): (name: string)
    ensures |name| == |destination| + 1 + |id|
    ensures name[..|destination|] == destination && name[|destination|] == '/'
    ensures name[|destination| + 1..] == id
  {
    destination + "/" + id
  }

  /** Object names with the same destination are equal only for equal ids. */
  lemma ObjectNameInjective(destination: string, a: string, b: string)
    ensures ObjectName(destination, a) == ObjectName(destination, b) <==> a == b
  {
  }

  function BucketExistsOp(s: MinioState, bucket: string, fail: bool): Reply<bool>
  {
    if fail then Failed else Ok(bucket in s.buckets)
  }

  /** `makeBucket(bucket)`: creates a missing bucket; an existing one is an
      error. The reply is the truthiness of the value the promise resolves
      with, given as `resolvesTruthy` (minio-js resolves with `undefined`). */
  function MakeBucketOp(s: MinioState, bucket: string, fail: bool, resolvesTruthy: bool): (r: Step<bool>)
    ensures WellFormed(s) ==> WellFormed(r.state)
  {
    if fail || bucket in s.buckets then Step(Failed, s)
    else Step(Ok(resolvesTruthy), MinioState(s.buckets + {bucket}, s.objects))
  }

  /** `putObject(bucket, name, data, metadata)`: stores (or overwrites) the
      object and replies with its etag, given as `etag`; an error when the
      bucket does not exist. */
  function PutObjectOp(s: MinioState, bucket: string, name: string, data: Bytes,
                       metadata: map<string, string>, fail: bool, etag: string): (r: Step<string>)
    ensures WellFormed(s) ==> WellFormed(r.state)
  {
    if fail || bucket !in s.buckets then Step(Failed, s)
    else Step(Ok(etag), MinioState(s.buckets, s.objects[ObjectRef(bucket, name) := StoredObject(data, metadata)]))
  }

  /** `getObject(bucket, name)`: the object's bytes; an error when the bucket
      or the object is missing. */
  function GetObjectOp(s: MinioState, bucket: string, name: string, fail: bool): Reply<Bytes>
  {
    var ref := ObjectRef(bucket, name);
    if fail || bucket !in s.buckets || ref !in s.objects then Failed
    else Ok(s.objects[ref].data)
  }

  /** A put that succeeds stores exactly the given object and touches nothing else. */
  lemma PutObjectStores(s: MinioState, bucket: string, name: string, data: Bytes,
                        metadata: map<string, string>, etag: string)
    requires bucket in s.buckets
    ensures var r := PutObjectOp(s, bucket, name, data, metadata, false, etag);
      && r.reply == Ok(etag)
      && GetObjectOp(r.state, bucket, name, false) == Ok(data)
      && r.state.objects[ObjectRef(bucket, name)].metadata == metadata
      && r.state.buckets == s.buckets
      && forall o :: o in s.objects && o != ObjectRef(bucket, name) ==> o in r.state.objects && r.state.objects[o] == s.objects[o]
  {
  }

  class MinioClient {
    var state: MinioState

    constructor (initial: MinioState)
      ensures state == initial
    {
      state := initial;
    }

    method BucketExists(bucket: string, fail: bool) returns (r: Reply<bool>)
      ensures r == BucketExistsOp(state, bucket, fail)
    {
      r := if fail then Failed else Ok(bucket in state.buckets);
    }

    method MakeBucket(bucket: string, fail: bool, resolvesTruthy: bool) returns (r: Reply<bool>)
      modifies this
      ensures Step(r, state) == MakeBucketOp(old(state), bucket, fail, resolvesTruthy)
    {
      var step := MakeBucketOp(state, bucket, fail, resolvesTruthy);
      r, state := step.reply, step.state;
    }

    method PutObject(bucket: string, name: string, data: Bytes, metadata: map<string, string>,
                     fail: bool, etag: string) returns (r: Reply<string>)
      modifies this
      ensures Step(r, state) == PutObjectOp(old(state), bucket, name, data, metadata, fail, etag)
    {
      var step := PutObjectOp(state, bucket, name, data, metadata, fail, etag);
      r, state := step.reply, step.state;
    }

    method GetObject(bucket: string, name: string, fail: bool) returns (r: Reply<Bytes>)
      ensures r == GetObjectOp(state, bucket, name, fail)
    {
      r := GetObjectOp(state, bucket, name, fail);
    }
  }
}
