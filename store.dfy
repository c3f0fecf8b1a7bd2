/**
 * The partition store: the database file as a map from bucket names to
 * buckets, each a map from keys to values. Every operation here is one step
 * of a bolt transaction; a failing step aborts the transaction, so a
 * `Failure` always leaves the store as it was.
 */
module Store {
  import opened Bytes
  import opened Results

  type Bucket = map<Bytes, Bytes>
  type Buckets = map<Bytes, Bucket>

  /**
   * What the storage engine accepts, which is decided inside the engine and
   * kept abstract: the bucket names `CreateBucketIfNotExists` takes and the
   * key/value pairs `Put` takes.
   */
  datatype Engine = Engine(createAccepts: Bytes -> bool, putAccepts: (Bytes, Bytes) -> bool)

  /** `t` is `s` with exactly one entry, `bucket`/`key`, set to `value`. */
  ghost predicate PutOnly(s: Buckets, t: Buckets, bucket: Bytes, key: Bytes, value: Bytes) {
    && bucket in s
    && t.Keys == s.Keys
    && (forall b :: b in s && b != bucket ==> t[b] == s[b])
    && t[bucket].Keys == s[bucket].Keys + {key}
    && t[bucket][key] == value
    && (forall k :: k in s[bucket] && k != key ==> t[bucket][k] == s[bucket][k])
  }

  /** `t` is `s` with the entry `bucket`/`key` gone, if it was there, and nothing else changed. */
  ghost predicate DeleteOnly(s: Buckets, t: Buckets, bucket: Bytes, key: Bytes) {
    && bucket in s
    && t.Keys == s.Keys
    && (forall b :: b in s && b != bucket ==> t[b] == s[b])
    && t[bucket].Keys == s[bucket].Keys - {key}
    && (forall k :: k in t[bucket] ==> t[bucket][k] == s[bucket][k])
  }

  /** `CreateBucketIfNotExists` once the engine accepted the name. */
  function CreateIfAbsent(s: Buckets, name: Bytes): (r: Buckets)
    ensures r.Keys == s.Keys + {name}
    ensures forall b :: b in s ==> r[b] == s[b]
    ensures name !in s ==> r[name] == map[]
  {
    if name in s then s else s[name := map[]]
  }

  /** `tx.Bucket(bucket).Put(key, value)`. */
  function Put(s: Buckets, bucket: Bytes, key: Bytes, value: Bytes, e: Engine): (r: Result<Buckets>)
    ensures bucket !in s ==> r == Failure(NoBucket)
    ensures bucket in s && !e.putAccepts(key, value) ==> r == Failure(PutRejected)
    ensures r.Success? <==> bucket in s && e.putAccepts(key, value)
    ensures r.Success? ==> PutOnly(s, r.value, bucket, key, value)
  {
    if bucket !in s then Failure(NoBucket)
    else if !e.putAccepts(key, value) then Failure(PutRejected)
    else Success(s[bucket := s[bucket][key := value]])
  }

  /** `tx.Bucket(bucket).Delete(key)`: deleting an absent key is not an error. */
  function Delete(s: Buckets, bucket: Bytes, key: Bytes): (r: Result<Buckets>)
    ensures r.Failure? <==> bucket !in s
    ensures r.Failure? ==> r.error == NoBucket
    ensures r.Success? ==> DeleteOnly(s, r.value, bucket, key)
    ensures bucket in s && key !in s[bucket] ==> r == Success(s)
  {
    if bucket !in s then Failure(NoBucket)
    else if key !in s[bucket] then Success(s)
    else Success(s[bucket := s[bucket] - {key}])
  }

  /**
   * `tx.Bucket(bucket).Get(key)`, as the bytes it contributes to a buffer:
   * bolt returns nil for an absent key, and writing nil adds no bytes.
   */
  function Get(s: Buckets, bucket: Bytes, key: Bytes): (r: Result<Bytes>)
    ensures r.Failure? <==> bucket !in s
    ensures r.Failure? ==> r.error == NoBucket
    ensures bucket in s && key in s[bucket] ==> r == Success(s[bucket][key])
    ensures bucket in s && key !in s[bucket] ==> r == Success([])
  {
    if bucket !in s then Failure(NoBucket)
    else if key in s[bucket] then Success(s[bucket][key])
    else Success([])
  }
}
