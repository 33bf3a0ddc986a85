/** The observable-based MinIO wrapper of the storage module
    (src/storage/minio-storage.service.ts). */
module MinioStorage {
  import opened Outcomes
  import opened FileModel
  import opened Minio

  /** Fault inputs of a bucket check; `makeBucketValue` is the truthiness of
      the value `makeBucket` resolves with. */
  datatype BucketFaults = BucketFaults(bucketExists: bool, makeBucket: bool, makeBucketValue: bool)

  datatype UploadFaults = UploadFaults(bucket: BucketFaults, put: bool, etag: string)

  datatype DownloadFaults = DownloadFaults(bucketExists: bool, getObject: bool)

  /** What `download` emits: the object's bytes (its stream), `null`, or an
      observable built by `throwError` and emitted as a plain value. */
  datatype DownloadEmission = Stream(data: Bytes) | NullValue | ThrowErrorObservable(message: string)

  const MissingFileMessage: string := "the requiered file does not exist on minio server"
  const MissingBucketMessage: string := "bucket does not exist and could not be created"

  /** The headers `upload` puts the object with. */
  function UploadMetadata(file: BufferedFile): map<string, string>
  {
    map["Content-Type" := MimeString(file.mimetype), "X-Amz-Meta-Testing" := "1234"]
  }

  /** `checkBucketExists(bucket, makeBucket)`: whether the bucket exists; a
      missing bucket is created when `makeBucket` holds, and the answer is then
      the truthiness of `makeBucket`'s value, or false when it fails. A failed
      `bucketExists` is not caught. */
  function CheckBucketExistsOutcome(s: MinioState, bucket: string, makeBucket: bool, faults: BucketFaults)
    : Effect<Settled<bool>, MinioState>
  {
    match BucketExistsOp(s, bucket, faults.bucketExists)
    case Failed => Effect(Rejected(ClientFailure), s)
    case Ok(present) =>
      if !present && makeBucket then
        var made := MakeBucketOp(s, bucket, faults.makeBucket, faults.makeBucketValue);
        Effect(Resolved(made.reply.Ok? && made.reply.value), made.state)
      else Effect(Resolved(present), s)
  }

  /** `upload(destination, hashedFileName, file, baseBucket)` as written: after
      a positive bucket check the object is put and the result is true; any
      error on the way gives false; after a negative check the callback
      returns the `throwError` observable as a value, which `mapTo(true)`
      turns into true. */
  function UploadOutcome(s: MinioState, destination: string, hashedFileName: string, file: BufferedFile,
                         baseBucket: string, faults: UploadFaults): Effect<bool, MinioState>
  {
    var check := CheckBucketExistsOutcome(s, baseBucket, true, faults.bucket);
    match check.result
    case Rejected(_) => Effect(false, check.state)
    case Resolved(present) =>
      if present then
        var put := PutObjectOp(check.state, baseBucket, ObjectName(destination, hashedFileName),
                               file.buffer, UploadMetadata(file), faults.put, faults.etag);
        Effect(put.reply.Ok?, put.state)
      else Effect(true, check.state)
  }

  /** `upload` as evidently intended: a negative bucket check gives false. */
  function UploadIntendedOutcome(s: MinioState, destination: string, hashedFileName: string, file: BufferedFile,
                                 baseBucket: string, faults: UploadFaults): Effect<bool, MinioState>
  {
    var check := CheckBucketExistsOutcome(s, baseBucket, true, faults.bucket);
    match check.result
    case Rejected(_) => Effect(false, check.state)
    case Resolved(present) =>
      if present then
        var put := PutObjectOp(check.state, baseBucket, ObjectName(destination, hashedFileName),
                               file.buffer, UploadMetadata(file), faults.put, faults.etag);
        Effect(put.reply.Ok?, put.state)
      else Effect(false, check.state)
  }

  /** `download(destination, fileId, bucket)` as written: the object's bytes
      when the bucket exists; `null` for any error raised; for a missing bucket
      the `throwError` observable itself is emitted. */
  function DownloadOutcome(s: MinioState, destination: string, fileId: string, bucket: string,
                           faults: DownloadFaults): DownloadEmission
  {
    var check := CheckBucketExistsOutcome(s, bucket, false, BucketFaults(faults.bucketExists, false, false));
    match check.result
    case Rejected(_) => NullValue
    case Resolved(present) =>
      if present then
        match GetObjectOp(s, bucket, ObjectName(destination, fileId), faults.getObject)
        case Ok(data) => Stream(data)
        case Failed => NullValue
      else ThrowErrorObservable(MissingFileMessage)
  }

  /** `download` as evidently intended: a missing bucket gives `null`. */
  function DownloadIntendedOutcome(s: MinioState, destination: string, fileId: string, bucket: string,
                                   faults: DownloadFaults): DownloadEmission
  {
    var check := CheckBucketExistsOutcome(s, bucket, false, BucketFaults(faults.bucketExists, false, false));
    match check.result
    case Rejected(_) => NullValue
    case Resolved(present) =>
      if present then
        match GetObjectOp(s, bucket, ObjectName(destination, fileId), faults.getObject)
        case Ok(data) => Stream(data)
        case Failed => NullValue
      else NullValue
  }

  /** An existing bucket, or a check that may not create, answers the existence
      flag and leaves the buckets alone. */
  lemma CheckBucketExistsWithoutCreation(s: MinioState, bucket: string, makeBucket: bool, faults: BucketFaults)
    requires !faults.bucketExists
    requires bucket in s.buckets || !makeBucket
    ensures CheckBucketExistsOutcome(s, bucket, makeBucket, faults) == Effect(Resolved(bucket in s.buckets), s)
  {
  }

  /** A missing bucket with `makeBucket` is created unless `makeBucket` fails;
      the answer is true only when it was created and `makeBucket`'s value is truthy. */
  lemma CheckBucketExistsCreation(s: MinioState, bucket: string, faults: BucketFaults)
    requires !faults.bucketExists && bucket !in s.buckets
    ensures var e := CheckBucketExistsOutcome(s, bucket, true, faults);
      && e.result == Resolved(!faults.makeBucket && faults.makeBucketValue)
      && e.state.buckets == (if faults.makeBucket then s.buckets else s.buckets + {bucket})
      && e.state.objects == s.objects
  {
  }

  /** A failed `bucketExists` reaches the subscriber as an error, with no change. */
  lemma CheckBucketExistsError(s: MinioState, bucket: string, makeBucket: bool, faults: BucketFaults)
    requires faults.bucketExists
    ensures CheckBucketExistsOutcome(s, bucket, makeBucket, faults) == Effect(Rejected(ClientFailure), s)
  {
  }

  /** After a positive bucket check, `upload` answers whether the put succeeded,
      and a success leaves the file under `destination/hashedFileName` with the
      file's MIME type as Content-Type. */
  lemma UploadAfterPositiveCheck(s: MinioState, destination: string, hashedFileName: string, file: BufferedFile,
                                 baseBucket: string, faults: UploadFaults)
    requires CheckBucketExistsOutcome(s, baseBucket, true, faults.bucket).result == Resolved(true)
    ensures var e := UploadOutcome(s, destination, hashedFileName, file, baseBucket, faults);
      var ref := ObjectRef(baseBucket, ObjectName(destination, hashedFileName));
      && (e.result <==> !faults.put)
      && (e.result ==> ref in e.state.objects && e.state.objects[ref] == StoredObject(file.buffer, UploadMetadata(file)))
  {
  }

  /** `upload` answers false exactly when the bucket check raised or the put
      failed after a positive check; a false answer stores no object. */
  lemma UploadFalseStoresNothing(s: MinioState, destination: string, hashedFileName: string, file: BufferedFile,
                                 baseBucket: string, faults: UploadFaults)
    ensures var e := UploadOutcome(s, destination, hashedFileName, file, baseBucket, faults);
      var check := CheckBucketExistsOutcome(s, baseBucket, true, faults.bucket);
      && (!e.result <==> check.result.Rejected? || (check.result == Resolved(true) && faults.put))
      && (!e.result ==> e.state.objects == s.objects)
  {
  }

  /** As written, `upload` reports success for a missing bucket it could not
      create, and no object is stored. */
  lemma UploadReportsSuccessWithoutObject(destination: string, hashedFileName: string, file: BufferedFile,
                                          baseBucket: string, etag: string)
    ensures var s := MinioState({}, map[]);
      var faults := UploadFaults(BucketFaults(false, true, false), false, etag);
      var e := UploadOutcome(s, destination, hashedFileName, file, baseBucket, faults);
      && e.result
      && ObjectRef(baseBucket, ObjectName(destination, hashedFileName)) !in e.state.objects
  {
  }

  /** The intended `upload` answers true only when the object is stored. */
  lemma UploadIntendedStoresObject(s: MinioState, destination: string, hashedFileName: string, file: BufferedFile,
                                   baseBucket: string, faults: UploadFaults)
    ensures var e := UploadIntendedOutcome(s, destination, hashedFileName, file, baseBucket, faults);
      var ref := ObjectRef(baseBucket, ObjectName(destination, hashedFileName));
      e.result ==> ref in e.state.objects && e.state.objects[ref] == StoredObject(file.buffer, UploadMetadata(file))
  {
  }

  /** `download` emits the stored bytes exactly when the bucket and the object
      exist and no call fails; a missing bucket gives the error observable. */
  lemma DownloadMeaning(s: MinioState, destination: string, fileId: string, bucket: string, faults: DownloadFaults)
    ensures var d := DownloadOutcome(s, destination, fileId, bucket, faults);
      var ref := ObjectRef(bucket, ObjectName(destination, fileId));
      && (d.Stream? <==> !faults.bucketExists && !faults.getObject && bucket in s.buckets && ref in s.objects)
      && (d.Stream? ==> d.data == s.objects[ref].data)
      && (d.ThrowErrorObservable? <==> !faults.bucketExists && bucket !in s.buckets)
  {
  }

  /** As written, `download` from a missing bucket emits the `throwError`
      observable, where the intended version emits `null`. */
  lemma DownloadDiscrepancy(destination: string, fileId: string, bucket: string)
    ensures DownloadOutcome(MinioState({}, map[]), destination, fileId, bucket, DownloadFaults(false, false))
         == ThrowErrorObservable(MissingFileMessage)
    ensures DownloadIntendedOutcome(MinioState({}, map[]), destination, fileId, bucket, DownloadFaults(false, false))
         == NullValue
  {
  }

  /** The intended `download` emits the stored bytes or `null`, nothing else. */
  lemma DownloadIntendedMeaning(s: MinioState, destination: string, fileId: string, bucket: string, faults: DownloadFaults)
    ensures var d := DownloadIntendedOutcome(s, destination, fileId, bucket, faults);
      var ref := ObjectRef(bucket, ObjectName(destination, fileId));
      && !d.ThrowErrorObservable?
      && (d.Stream? <==> !faults.bucketExists && !faults.getObject && bucket in s.buckets && ref in s.objects)
      && (d.Stream? ==> d.data == s.objects[ref].data)
  {
  }

  /** What a successful upload put is what a download of the same id returns. */
  lemma UploadThenDownload(s: MinioState, destination: string, hashedFileName: string, file: BufferedFile,
                           baseBucket: string, etag: string)
    requires baseBucket in s.buckets
    ensures var up := UploadOutcome(s, destination, hashedFileName, file, baseBucket,
                                    UploadFaults(BucketFaults(false, false, false), false, etag));
      && up.result
      && DownloadOutcome(up.state, destination, hashedFileName, baseBucket, DownloadFaults(false, false))
         == Stream(file.buffer)
  {
  }

  class MinioStorageService {
    const client: MinioClient
    /** The configured `baseBucket`, the default bucket of `upload` and `download`. */
    const baseBucket: string

    constructor (client: MinioClient, baseBucket: string)
      ensures this.client == client && this.baseBucket == baseBucket
    {
      this.client := client;
      this.baseBucket := baseBucket;
    }

    method CheckBucketExists(bucket: string, makeBucket: bool, faults: BucketFaults) returns (r: Settled<bool>)
      modifies client
      ensures Effect(r, client.state) == CheckBucketExistsOutcome(old(client.state), bucket, makeBucket, faults)
    {
      var present := client.BucketExists(bucket, faults.bucketExists);
      if present.Failed? {
        return Rejected(ClientFailure);
      }
      if !present.value && makeBucket {
        var made := client.MakeBucket(bucket, faults.makeBucket, faults.makeBucketValue);
        r := Resolved(made.Ok? && made.value);
      } else {
        r := Resolved(present.value);
      }
    }

    /** The bucket an operation uses: the one given, or `baseBucket` by default. */
    function BucketOrDefault(bucket: Option<string>): (b: string)
      reads this
      ensures bucket.Some? ==> b == bucket.value
      ensures bucket.None? ==> b == baseBucket
    {
      if bucket.Some? then bucket.value else baseBucket
    }

    /** As written. */
    method Upload(destination: string, hashedFileName: string, file: BufferedFile, bucketArg: Option<string>,
                  faults: UploadFaults) returns (ok: bool)
      modifies client
      ensures Effect(ok, client.state)
           == UploadOutcome(old(client.state), destination, hashedFileName, file, BucketOrDefault(bucketArg), faults)
    {
      var bucket := BucketOrDefault(bucketArg);
      var fileName := ObjectName(destination, hashedFileName);
      var present := CheckBucketExists(bucket, true, faults.bucket);
      if present.Rejected? {
        return false;
      }
      if present.value {
        var etag := client.PutObject(bucket, fileName, file.buffer, UploadMetadata(file), faults.put, faults.etag);
        ok := etag.Ok?;
      } else {
        ok := true;
      }
    }

    /** As evidently intended. */
    method UploadIntended(destination: string, hashedFileName: string, file: BufferedFile, bucketArg: Option<string>,
                          faults: UploadFaults) returns (ok: bool)
      modifies client
      ensures Effect(ok, client.state)
           == UploadIntendedOutcome(old(client.state), destination, hashedFileName, file, BucketOrDefault(bucketArg), faults)
    {
      var bucket := BucketOrDefault(bucketArg);
      var fileName := ObjectName(destination, hashedFileName);
      var present := CheckBucketExists(bucket, true, faults.bucket);
      if present.Rejected? || !present.value {
        return false;
      }
      var etag := client.PutObject(bucket, fileName, file.buffer, UploadMetadata(file), faults.put, faults.etag);
      ok := etag.Ok?;
    }

    /** As written. */
    method Download(destination: string, fileId: string, bucketArg: Option<string>, faults: DownloadFaults)
      returns (d: DownloadEmission)
      ensures d == DownloadOutcome(client.state, destination, fileId, BucketOrDefault(bucketArg), faults)
    {
      var bucket := BucketOrDefault(bucketArg);
      var present := client.BucketExists(bucket, faults.bucketExists);
      if present.Failed? {
        return NullValue;
      }
      if present.value {
        var data := client.GetObject(bucket, ObjectName(destination, fileId), faults.getObject);
        d := if data.Ok? then Stream(data.value) else NullValue;
      } else {
        d := ThrowErrorObservable(MissingFileMessage);
      }
    }

    /** As evidently intended. */
    method DownloadIntended(destination: string, fileId: string, bucketArg: Option<string>, faults: DownloadFaults)
      returns (d: DownloadEmission)
      ensures d == DownloadIntendedOutcome(client.state, destination, fileId, BucketOrDefault(bucketArg), faults)
    {
      var bucket := BucketOrDefault(bucketArg);
      var present := client.BucketExists(bucket, faults.bucketExists);
      if present.Failed? || !present.value {
        return NullValue;
      }
      var data := client.GetObject(bucket, ObjectName(destination, fileId), faults.getObject);
      d := if data.Ok? then Stream(data.value) else NullValue;
    }
  }
}
