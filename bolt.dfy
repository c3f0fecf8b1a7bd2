/**
 * The document adapter: a `Bolt` handle over one bolt database file. It holds
 * a two-slot cursor (the selected bucket and the selected key) that `ExecOn`
 * and `Find` set and `Insert`, `Remove` and `One` read.
 */
module Db {
  import opened Bytes
  import opened Results
  import opened Gob
  import opened Store

  /** The bucket `Connect` always creates and `ExecOn` falls back to. */
  const DefaultBucketName: Bytes := Ascii("default")

  // ---------------------------------------------------------------------------
  // Bucket selection (ExecOn)

  /** The items of a `[]string` separated by `sep`. */
  function Join(items: seq<Bytes>, sep: Bytes): Bytes {
    if |items| == 0 then []
    else if |items| == 1 then items[0]
    else items[0] + sep + Join(items[1..], sep)
  }

  /**
   * What `fmt.Sprintf("%s", v)` prints for `v`. Only a string or an opaque
   * value can print as nothing; nil and a `[]string` always print something.
   */
  function Format(v: Value): (r: Bytes)
    ensures v.Str? ==> r == v.s
    ensures v.Other? ==> r == v.text
    ensures r == [] ==> (v.Str? && v.s == []) || (v.Other? && v.text == [])
    ensures v.Strings? ==> |r| >= 2 && r[0] == Ascii("[")[0] && r[|r| - 1] == Ascii("]")[0]
    ensures v.Strings? && |v.items| == 1 ==> r == Ascii("[") + v.items[0] + Ascii("]")
  {
    match v
    case Nil => Ascii("%!s(<nil>)")
    case Str(s) => s
    case Strings(items) => Ascii("[") + Join(items, Ascii(" ")) + Ascii("]")
    case Other(_, text) => text
  }

  /**
   * The bucket `ExecOn(resources...)` selects; a call without arguments
   * passes a nil slice, which is the empty sequence here.
   */
  function SelectBucket(resources: seq<Value>): (r: Bytes)
    ensures r != []
    ensures resources == [] ==> r == DefaultBucketName
    ensures resources != [] && resources[0].Str? && resources[0].s == [] ==> r == DefaultBucketName
    ensures resources != [] && resources[0].Str? && resources[0].s != [] ==> r == resources[0].s
    ensures resources != [] && Format(resources[0]) == [] ==> r == DefaultBucketName
    ensures resources != [] && Format(resources[0]) != [] ==> r == Format(resources[0])
  {
    if resources == [] then DefaultBucketName
    else
      var name := Format(resources[0]);
      if name == [] then DefaultBucketName else name
  }

  // ---------------------------------------------------------------------------
  // Bucket set-up (the transaction inside Connect)

  /** `t` is `s` plus an empty bucket for every name of `names` that `s` lacks. */
  ghost predicate CreatedFrom(s: Buckets, t: Buckets, names: set<Bytes>) {
    && t.Keys == s.Keys + names
    && (forall b :: b in s ==> t[b] == s[b])
    && (forall b :: b in t && b !in s ==> t[b] == map[])
  }

  /** `CreateBucketIfNotExists` for each name in turn, stopping at the first the engine refuses. */
  function CreateAll(s: Buckets, names: seq<Bytes>, e: Engine): Result<Buckets>
    decreases |names|
  {
    if names == [] then Success(s)
    else if !e.createAccepts(names[0]) then Failure(BucketSetupFailed)
    else CreateAll(CreateIfAbsent(s, names[0]), names[1..], e)
  }

  /** The whole set-up transaction: the caller's buckets, then the default bucket. */
  function SetUp(s: Buckets, names: seq<Bytes>, e: Engine): Result<Buckets> {
    match CreateAll(s, names, e)
    case Failure(err) => Failure(err)
    case Success(t) =>
      if e.createAccepts(DefaultBucketName) then Success(CreateIfAbsent(t, DefaultBucketName))
      else Failure(BucketSetupFailed)
  }

  lemma {:induction false} CreateAllResult(s: Buckets, names: seq<Bytes>, e: Engine)
    ensures CreateAll(s, names, e).Success? <==> forall n :: n in names ==> e.createAccepts(n)
    ensures CreateAll(s, names, e).Failure? ==> CreateAll(s, names, e).error == BucketSetupFailed
    ensures CreateAll(s, names, e).Success? ==>
      CreatedFrom(s, CreateAll(s, names, e).value, set n | n in names)
    decreases |names|
  {
    if names != [] && e.createAccepts(names[0]) {
      var s' := CreateIfAbsent(s, names[0]);
      CreateAllResult(s', names[1..], e);
      assert forall n :: n in names <==> n == names[0] || n in names[1..];
      assert (set n | n in names) == {names[0]} + (set n | n in names[1..]);
    }
  }

  /**
   * The set-up succeeds exactly when the engine accepts every name; then the
   * default bucket and every listed bucket exist, buckets that existed keep
   * their contents, and no other bucket appears.
   */
  lemma SetUpResult(s: Buckets, names: seq<Bytes>, e: Engine)
    ensures SetUp(s, names, e).Success? <==>
      e.createAccepts(DefaultBucketName) && forall n :: n in names ==> e.createAccepts(n)
    ensures SetUp(s, names, e).Success? ==>
      var t := SetUp(s, names, e).value;
      && DefaultBucketName in t
      && (forall n :: n in names ==> n in t)
      && CreatedFrom(s, t, (set n | n in names) + {DefaultBucketName})
    ensures SetUp(s, names, e).Failure? ==> SetUp(s, names, e).error == BucketSetupFailed
  {
    CreateAllResult(s, names, e);
  }

  /**
   * After a successful set-up, `ExecOn()` and `ExecOn("")` select an existing
   * bucket, and so does `ExecOn(name)` for every non-empty listed name.
   */
  lemma DefaultBucketSelectable(s: Buckets, names: seq<Bytes>, e: Engine)
    requires SetUp(s, names, e).Success?
    ensures SelectBucket([]) in SetUp(s, names, e).value
    ensures SelectBucket([Str([])]) in SetUp(s, names, e).value
    ensures forall n :: n in names && n != [] ==> SelectBucket([Str(n)]) in SetUp(s, names, e).value
  {
    SetUpResult(s, names, e);
  }

  /** The set-up transaction, step by step over a transaction-local copy of the store. */
  method SetUpBuckets(s: Buckets, names: seq<Bytes>, e: Engine) returns (r: Result<Buckets>)
    ensures r == SetUp(s, names, e)
  {
    var tx := s;
    for i := 0 to |names|
      invariant CreateAll(s, names, e) == CreateAll(tx, names[i..], e)
    {
      assert names[i..][1..] == names[i + 1..];
      if !e.createAccepts(names[i]) {
        return Failure(BucketSetupFailed);
      }
      tx := CreateIfAbsent(tx, names[i]);
    }
    assert names[|names|..] == [];
    if !e.createAccepts(DefaultBucketName) {
      return Failure(BucketSetupFailed);
    }
    r := Success(CreateIfAbsent(tx, DefaultBucketName));
  }

  // ---------------------------------------------------------------------------
  // Connect's arguments

  /** `fmt.Sprintf("%s/%s", dir, file)`. */
  function DbPath(dir: Bytes, file: Bytes): (r: Bytes)
    ensures |r| == |dir| + 1 + |file|
    ensures r[..|dir|] == dir && r[|dir|] == Ascii("/")[0] && r[|dir| + 1..] == file
  {
    dir + Ascii("/") + file
  }

  /** The directory Connect settles on: the argument, or else the temporary directory made (empty if that failed). */
  function ConnectDir(arg: Bytes, tempDir: Option<Bytes>): (r: Bytes)
    ensures arg != [] ==> r == arg
    ensures arg == [] && tempDir.Some? ==> r == tempDir.value
    ensures r == [] <==> arg == [] && (tempDir.None? || tempDir.value == [])
  {
    if arg != [] then arg else if tempDir.Some? then tempDir.value else []
  }

  /** Connect gets past its argument checks and has a directory to open the file in. */
  predicate DirReady(resources: seq<Value>, tempDir: Option<Bytes>)
    requires |resources| >= 2
  {
    resources[0].Str? && resources[1].Str? && (resources[1].s != [] || tempDir.Some?)
  }

  /**
   * The indexing and the `resources[2].([]string)` assertion in Connect do not
   * panic: each argument exists, and is a `[]string` where asserted, when
   * Connect reaches the point that reads it.
   */
  predicate ConnectReachesNoPanic(resources: seq<Value>, tempDir: Option<Bytes>, open: Bytes -> Option<Buckets>) {
    && |resources| >= 1
    && (resources[0].Str? ==>
         && |resources| >= 2
         && (DirReady(resources, tempDir)
             && open(DbPath(ConnectDir(resources[1].s, tempDir), resources[0].s)).Some?
             ==> |resources| >= 3 && resources[2].Strings?))
  }

  // ---------------------------------------------------------------------------
  // Single-key operations on the store

  /** `Insert(docs...)` indexes `docs[1]` only once `docs[0]` encoded. */
  predicate InsertArgsOk(c: Codec, docs: seq<Value>) {
    |docs| >= 1 && (c.first(docs[0]).Encoded? ==> |docs| >= 2)
  }

  /** Both of Insert's encodings succeed. */
  predicate InsertEncodes(c: Codec, docs: seq<Value>)
    requires InsertArgsOk(c, docs)
  {
    c.first(docs[0]).Encoded? && c.second(docs[0], docs[1]).Encoded?
  }

  /**
   * `Insert(docs...)` in bucket `bucket` of store `s`: the key is the first
   * message of a fresh encoder, the value the second message of that encoder.
   */
  function InsertResult(c: Codec, e: Engine, s: Buckets, bucket: Bytes, docs: seq<Value>): (r: Result<Buckets>)
    requires InsertArgsOk(c, docs)
    ensures c.first(docs[0]).EncodeFailed? ==> r == Failure(KeyEncodeFailed)
    ensures c.first(docs[0]).Encoded? && c.second(docs[0], docs[1]).EncodeFailed? ==> r == Failure(ValueEncodeFailed)
    ensures InsertEncodes(c, docs) && bucket !in s ==> r == Failure(NoBucket)
    ensures r.Success? <==>
      InsertEncodes(c, docs) && bucket in s
      && e.putAccepts(c.first(docs[0]).bytes, c.second(docs[0], docs[1]).bytes)
    ensures r.Success? ==>
      PutOnly(s, r.value, bucket, c.first(docs[0]).bytes, c.second(docs[0], docs[1]).bytes)
  {
    match c.first(docs[0])
    case EncodeFailed(_) => Failure(KeyEncodeFailed)
    case Encoded(key) =>
      match c.second(docs[0], docs[1])
      case EncodeFailed(_) => Failure(ValueEncodeFailed)
      case Encoded(value) => Put(s, bucket, key, value, e)
  }

  /** `Remove(selector)` in bucket `bucket` of store `s`. */
  function RemoveResult(c: Codec, s: Buckets, bucket: Bytes, selector: Value): (r: Result<Buckets>)
    ensures c.first(selector).EncodeFailed? ==> r == Failure(SelectorEncodeFailed)
    ensures c.first(selector).Encoded? && bucket !in s ==> r == Failure(NoBucket)
    ensures r.Success? <==> c.first(selector).Encoded? && bucket in s
    ensures r.Success? ==> DeleteOnly(s, r.value, bucket, c.first(selector).bytes)
    ensures r.Success? && c.first(selector).bytes !in s[bucket] ==> r.value == s
  {
    match c.first(selector)
    case EncodeFailed(_) => Failure(SelectorEncodeFailed)
    case Encoded(key) => Delete(s, bucket, key)
  }

  /** The key `Find(query)` leaves selected when `key` was selected before. */
  function FindKey(c: Codec, key: Bytes, query: Value): (r: Bytes)
    ensures query.Nil? ==> r == key
    ensures !query.Nil? && c.first(query).Encoded? ==> r == c.first(query).bytes
    ensures !query.Nil? && c.first(query).EncodeFailed? ==> r == c.first(query).written
  {
    if query.Nil? then key
    else match c.first(query)
      case Encoded(b) => b
      case EncodeFailed(w) => w
  }

  /** `One(&dst)` reading `key` of `bucket` in store `s`: the new contents of the destination. */
  function OneResult(c: Codec, s: Buckets, bucket: Bytes, key: Bytes, dst: Value): (r: Result<Value>)
    ensures bucket !in s ==> r == Failure(NoBucket)
    ensures bucket in s && key !in s[bucket] ==> r == Failure(EndOfInput)
    ensures bucket in s && key in s[bucket] ==> r == Decode(c, dst, s[bucket][key])
    ensures r.Success? ==> bucket in s && key in s[bucket] && c.decodeNonEmpty(dst, s[bucket][key]) == Some(r.value)
  {
    match Get(s, bucket, key)
    case Failure(err) => Failure(err)
    case Success(bytes) => Decode(c, dst, bytes)
  }

  // ---------------------------------------------------------------------------
  // How the operations compose

  /**
   * Insert and Find derive the key the same way, so `Find(docs[0])` after an
   * `Insert(docs...)` makes One decode exactly the bytes Insert stored.
   */
  lemma InsertThenOne(c: Codec, e: Engine, s: Buckets, bucket: Bytes, docs: seq<Value>, staleKey: Bytes, dst: Value)
    requires InsertArgsOk(c, docs) && !docs[0].Nil?
    requires InsertResult(c, e, s, bucket, docs).Success?
    ensures OneResult(c, InsertResult(c, e, s, bucket, docs).value, bucket, FindKey(c, staleKey, docs[0]), dst)
         == Decode(c, dst, c.second(docs[0], docs[1]).bytes)
  {
  }

  /** After `Remove(selector)`, `Find(selector)` and One report end of input. */
  lemma RemoveThenOne(c: Codec, s: Buckets, bucket: Bytes, selector: Value, staleKey: Bytes, dst: Value)
    requires !selector.Nil?
    requires RemoveResult(c, s, bucket, selector).Success?
    ensures OneResult(c, RemoveResult(c, s, bucket, selector).value, bucket, FindKey(c, staleKey, selector), dst)
         == Failure(EndOfInput)
  {
  }

  /** Removing twice is removing once; the second call succeeds and changes nothing. */
  lemma RemoveIdempotent(c: Codec, s: Buckets, bucket: Bytes, selector: Value)
    requires RemoveResult(c, s, bucket, selector).Success?
    ensures RemoveResult(c, RemoveResult(c, s, bucket, selector).value, bucket, selector)
         == RemoveResult(c, s, bucket, selector)
  {
  }

  /** Inserting under the same key again overwrites: the first value is lost without trace. */
  lemma ReinsertOverwrites(c: Codec, e: Engine, s: Buckets, bucket: Bytes, docs: seq<Value>, docs': seq<Value>)
    requires InsertArgsOk(c, docs) && InsertArgsOk(c, docs') && docs'[0] == docs[0]
    requires InsertResult(c, e, s, bucket, docs).Success?
    ensures InsertResult(c, e, InsertResult(c, e, s, bucket, docs).value, bucket, docs')
         == InsertResult(c, e, s, bucket, docs')
  {
    var key := c.first(docs[0]).bytes;
    if InsertEncodes(c, docs') && e.putAccepts(key, c.second(docs'[0], docs'[1]).bytes) {
      var value' := c.second(docs'[0], docs'[1]).bytes;
      var t := InsertResult(c, e, s, bucket, docs).value;
      assert t[bucket][key := value'] == s[bucket][key := value'];
      assert t[bucket := t[bucket][key := value']] == s[bucket := s[bucket][key := value']];
    }
  }

  // ---------------------------------------------------------------------------
  // The handle

  /** What the `db` field points at: nothing yet, an open database, or a closed one. */
  datatype DbState = NoDb | OpenDb | ClosedDb

  class Bolt {
    /** The gob encoder and decoder behaviour. */
    const codec: Codec
    /** The storage engine's acceptance rules. */
    const engine: Engine

    var db: DbState
    /** The contents of the open database file. */
    var buckets: Buckets
    /** The directory the database file is in; deleted on Close when temporary. */
    var dir: Bytes
    var isTempDir: bool
    /** The cursor: the selected bucket and the selected key. */
    var bucket: Bytes
    var key: Bytes
    /** The directories Close has removed from disk. */
    ghost var removedDirs: set<Bytes>

    /** A zero-valued `Bolt`. */
    constructor (codec: Codec, engine: Engine)
      ensures this.codec == codec && this.engine == engine
      ensures db == NoDb && buckets == map[] && dir == [] && !isTempDir
      ensures bucket == [] && key == [] && removedDirs == {}
    {
      this.codec := codec;
      this.engine := engine;
      db := NoDb;
      buckets := map[];
      dir := [];
      isTempDir := false;
      bucket := [];
      key := [];
      removedDirs := {};
    }

    /**
     * What `Connect` does to every field but `isTempDir`: it checks its
     * arguments in order, settles on a directory, opens the file there and
     * runs the bucket set-up; the cursor and the removed directories stay.
     */
    twostate predicate ConnectEffect(resources: seq<Value>, tempDir: Option<Bytes>, open: Bytes -> Option<Buckets>, err: Outcome)
      requires ConnectReachesNoPanic(resources, tempDir, open)
      reads this
    {
      && bucket == old(bucket) && key == old(key) && removedDirs == old(removedDirs)
      && (!resources[0].Str? ==>
           err == Fail(FileNameNotString) && dir == old(dir) && db == old(db) && buckets == old(buckets))
      && (resources[0].Str? && !resources[1].Str? ==>
           err == Fail(DirNotString) && dir == [] && db == old(db) && buckets == old(buckets))
      && (resources[0].Str? && resources[1].Str? ==> dir == ConnectDir(resources[1].s, tempDir))
      && (resources[0].Str? && resources[1].Str? && !DirReady(resources, tempDir) ==>
           err == Fail(TempDirFailed) && db == old(db) && buckets == old(buckets))
      && (resources[0].Str? && resources[1].Str? && DirReady(resources, tempDir) ==>
           var contents := open(DbPath(dir, resources[0].s));
           && (contents.None? ==> err == Fail(OpenFailed) && db == NoDb && buckets == old(buckets))
           && (contents.Some? ==>
                && db == OpenDb
                && var setUp := SetUp(contents.value, resources[2].items, engine);
                && (setUp.Success? ==> err == Pass && buckets == setUp.value)
                && (setUp.Failure? ==> err == Fail(BucketSetupFailed) && buckets == contents.value)))
    }

    /**
     * `Connect(file, dir, bucketNames)` as written. The outcome of making a
     * temporary directory is `tempDir`; `open(path)` is what opening the file
     * at path gives: its current contents, or None when it cannot be opened.
     * `isTempDir` is set when the directory argument is empty and is never
     * cleared, so it survives into a later Connect on the same handle.
     */
    method Connect(resources: seq<Value>, tempDir: Option<Bytes>, open: Bytes -> Option<Buckets>) returns (err: Outcome)
      requires ConnectReachesNoPanic(resources, tempDir, open)
      modifies this
      ensures ConnectEffect(resources, tempDir, open, err)
      ensures !(resources[0].Str? && resources[1].Str?) ==> isTempDir == old(isTempDir)
      ensures resources[0].Str? && resources[1].Str? ==> isTempDir == (resources[1].s == [] || old(isTempDir))
    {
      if !resources[0].Str? {
        return Fail(FileNameNotString);
      }
      var file := resources[0].s;
      if !resources[1].Str? {
        dir := [];
        return Fail(DirNotString);
      }
      dir := resources[1].s;
      if dir == [] {
        dir := if tempDir.Some? then tempDir.value else [];
        isTempDir := true;
        if tempDir.None? {
          return Fail(TempDirFailed);
        }
      }
      var contents := open(DbPath(dir, file));
      if contents.None? {
        db := NoDb;
        return Fail(OpenFailed);
      }
      db := OpenDb;
      buckets := contents.value;
      var setUp := SetUpBuckets(buckets, resources[2].items, engine);
      if setUp.Failure? {
        return Fail(BucketSetupFailed);
      }
      buckets := setUp.value;
      err := Pass;
    }

    /**
     * `Connect` with `isTempDir` saying whether this very call made the
     * directory, so that Close never removes a directory the caller supplied.
     */
    method ConnectOwningTempDir(resources: seq<Value>, tempDir: Option<Bytes>, open: Bytes -> Option<Buckets>)
      returns (err: Outcome)
      requires ConnectReachesNoPanic(resources, tempDir, open)
      modifies this
      ensures ConnectEffect(resources, tempDir, open, err)
      ensures !resources[0].Str? ==> isTempDir == old(isTempDir)
      ensures resources[0].Str? ==> isTempDir == (resources[1].Str? && resources[1].s == [])
    {
      err := Connect(resources, tempDir, open);
      if resources[0].Str? && !(resources[1].Str? && resources[1].s == []) {
        isTempDir := false;
      }
    }

    /**
     * `Close()` with `closeOk` the outcome of closing the database handle and
     * `removeOk` that of removing the temporary directory. The directory is
     * touched only after the handle closed. `os.RemoveAll` of the empty path
     * removes nothing and returns nil, so an empty `dir` is never recorded.
     */
    method Close(closeOk: bool, removeOk: bool) returns (err: Outcome)
      requires db != NoDb
      modifies this`db, this`removedDirs
      ensures !closeOk ==> err == Fail(CloseFailed) && db == old(db) && removedDirs == old(removedDirs)
      ensures closeOk ==> db == ClosedDb
      ensures closeOk && (!isTempDir || dir == []) ==> err == Pass && removedDirs == old(removedDirs)
      ensures closeOk && isTempDir && dir != [] ==>
        && err == (if removeOk then Pass else Fail(RemoveDirFailed))
        && removedDirs == (if removeOk then old(removedDirs) + {dir} else old(removedDirs))
    {
      if !closeOk {
        return Fail(CloseFailed);
      }
      db := ClosedDb;
      err := Pass;
      if isTempDir && dir != [] {
        if removeOk {
          removedDirs := removedDirs + {dir};
        } else {
          err := Fail(RemoveDirFailed);
        }
      }
    }

    /** `ExecOn(resources...)`: selects a bucket; never fails. */
    method ExecOn(resources: seq<Value>)
      modifies this`bucket
      ensures bucket == SelectBucket(resources)
    {
      if resources == [] {
        bucket := DefaultBucketName;
        return;
      }
      var bucketName := Format(resources[0]);
      if bucketName == [] {
        bucket := DefaultBucketName;
        return;
      }
      bucket := bucketName;
    }

    /**
     * `Insert(docs...)`: one write transaction on the selected bucket. The
     * encodings come first, so an encoding error is returned on any handle;
     * the database has to be open only once both encodings succeeded.
     */
    method Insert(docs: seq<Value>) returns (err: Outcome)
      requires InsertArgsOk(codec, docs)
      requires InsertEncodes(codec, docs) ==> db == OpenDb
      modifies this`buckets
      ensures var r := InsertResult(codec, engine, old(buckets), bucket, docs);
        && (r.Success? ==> err == Pass && buckets == r.value)
        && (r.Failure? ==> err == Fail(r.error) && buckets == old(buckets))
      ensures buckets.Keys == old(buckets).Keys
    {
      // Each message is written into an empty buffer, and reading the
      // whole buffer drains it again.
      var first := codec.first(docs[0]);
      if first.EncodeFailed? {
        return Fail(KeyEncodeFailed);
      }
      var k := first.bytes;
      var second := codec.second(docs[0], docs[1]);
      if second.EncodeFailed? {
        return Fail(ValueEncodeFailed);
      }
      var value := second.bytes;
      var tx := Put(buckets, bucket, k, value, engine);
      if tx.Failure? {
        return Fail(tx.error);
      }
      buckets := tx.value;
      err := Pass;
    }

    /**
     * `Remove(selector)`: one write transaction on the selected bucket. As in
     * Insert, the database has to be open only once the selector encoded.
     */
    method Remove(selector: Value) returns (err: Outcome)
      requires codec.first(selector).Encoded? ==> db == OpenDb
      modifies this`buckets
      ensures var r := RemoveResult(codec, old(buckets), bucket, selector);
        && (r.Success? ==> err == Pass && buckets == r.value)
        && (r.Failure? ==> err == Fail(r.error) && buckets == old(buckets))
      ensures buckets.Keys == old(buckets).Keys
    {
      var encoded := codec.first(selector);
      if encoded.EncodeFailed? {
        return Fail(SelectorEncodeFailed);
      }
      var k := encoded.bytes;
      var tx := Delete(buckets, bucket, k);
      if tx.Failure? {
        return Fail(tx.error);
      }
      buckets := tx.value;
      err := Pass;
    }

    /** `Find(query)`: selects the key; an encoding error goes unnoticed. */
    method Find(query: Value)
      modifies this`key
      ensures key == FindKey(codec, old(key), query)
    {
      if !query.Nil? {
        // what the encoder wrote into the empty buffer, whether or not it succeeded
        match codec.first(query)
        case Encoded(b) => key := b;
        case EncodeFailed(w) => key := w;
      }
    }

    /** `One(&dst)`: one read transaction, then a fresh decoder over what it read. */
    method One(dst: Value) returns (res: Result<Value>)
      requires db == OpenDb
      ensures res == OneResult(codec, buckets, bucket, key, dst)
    {
      var got := Get(buckets, bucket, key);
      if got.Failure? {
        return Failure(got.error);
      }
      // the read transaction writes the value, possibly nothing, into an empty buffer
      var buf := got.value;
      res := Decode(codec, dst, buf);
    }

    /** The operations this adapter leaves unimplemented: they change nothing and report success. */
    method RemoveAll(selector: Value) returns (num: int, err: Outcome)
      ensures num == 0 && err == Pass
    {
      num, err := 0, Pass;
    }

    method Update(selector: Value, update: Value) returns (err: Outcome)
      ensures err == Pass
    {
      err := Pass;
    }

    method UpdateAll(selector: Value, update: Value) returns (num: int, err: Outcome)
      ensures num == 0 && err == Pass
    {
      num, err := 0, Pass;
    }

    method Upsert(selector: Value, update: Value) returns (num: int, err: Outcome)
      ensures num == 0 && err == Pass
    {
      num, err := 0, Pass;
    }

    method All(results: Value) returns (err: Outcome)
      ensures err == Pass
    {
      err := Pass;
    }

    method Distinct(field: Bytes, result: Value) returns (err: Outcome)
      ensures err == Pass
    {
      err := Pass;
    }

    method Count() returns (num: int, err: Outcome)
      ensures num == 0 && err == Pass
    {
      num, err := 0, Pass;
    }
  }

  // ---------------------------------------------------------------------------
  // A client

  /** A fresh handle connected to `file` in a new temporary directory, with the bucket `users` set up. */
  method ConnectInTempDir(c: Codec, e: Engine, file: Bytes, users: Bytes, tmp: Bytes, open: Bytes -> Option<Buckets>)
    returns (b: Bolt)
    requires open(DbPath(tmp, file)) == Some(map[])
    requires e.createAccepts(users) && e.createAccepts(DefaultBucketName)
    ensures fresh(b) && b.codec == c && b.engine == e
    ensures b.db == OpenDb && b.isTempDir && b.dir == tmp && b.removedDirs == {}
    ensures users in b.buckets && DefaultBucketName in b.buckets
  {
    var resources := [Str(file), Str([]), Strings([users])];
    assert DbPath(ConnectDir([], Some(tmp)), file) == DbPath(tmp, file);
    assert DirReady(resources, Some(tmp));
    b := new Bolt(c, e);
    var err := b.ConnectOwningTempDir(resources, Some(tmp), open);
    SetUpResult(map[], [users], e);
  }

  /**
   * On a connected handle whose selected bucket exists: insert `user` under
   * `name`, find and read it, remove it, find and read again.
   */
  method InsertReadRemoveRead(b: Bolt, name: Value, user: Value, dst: Value)
    returns (found: Result<Value>, afterRemove: Result<Value>)
    requires b.db == OpenDb && b.bucket in b.buckets && !name.Nil?
    requires b.codec.first(name).Encoded? && b.codec.second(name, user).Encoded?
    requires b.engine.putAccepts(b.codec.first(name).bytes, b.codec.second(name, user).bytes)
    modifies b`buckets, b`key
    ensures found == Decode(b.codec, dst, b.codec.second(name, user).bytes)
    ensures afterRemove == Failure(EndOfInput)
  {
    var err := b.Insert([name, user]);
    assert err == Pass;
    b.Find(name);
    found := b.One(dst);
    err := b.Remove(name);
    assert err == Pass;
    b.Find(name);
    afterRemove := b.One(dst);
  }

  /**
   * A session on a fresh handle: Connect with the file name `file`, an empty
   * directory and the bucket list [users]; select `users`; insert `user`
   * under the key document `name`; find `name` and read it; remove `name`;
   * find and read again; close. The first read gives the decoding of the
   * stored value, the second reports end of input, and Close removes the
   * temporary directory Connect made (unless its name is empty) and nothing
   * else.
   */
  method Session(c: Codec, e: Engine, file: Bytes, users: Bytes, name: Value, user: Value, dst: Value,
                 tmp: Bytes, open: Bytes -> Option<Buckets>)
    returns (found: Result<Value>, afterRemove: Result<Value>, closed: Outcome, ghost removed: set<Bytes>)
    requires users != [] && !name.Nil?
    requires open(DbPath(tmp, file)) == Some(map[])
    requires e.createAccepts(users) && e.createAccepts(DefaultBucketName)
    requires c.first(name).Encoded? && c.second(name, user).Encoded?
    requires e.putAccepts(c.first(name).bytes, c.second(name, user).bytes)
    ensures found == Decode(c, dst, c.second(name, user).bytes)
    ensures afterRemove == Failure(EndOfInput)
    ensures closed == Pass && removed == {tmp} - {[]}
  {
    var b := ConnectInTempDir(c, e, file, users, tmp, open);
    b.ExecOn([Str(users)]);
    found, afterRemove := InsertReadRemoveRead(b, name, user, dst);
    closed := b.Close(true, true);
    removed := b.removedDirs;
  }

  /**
   * A handle reused for two connections: first with an empty directory, so
   * that Connect makes the temporary directory `tmp`, then with the caller's
   * own directory `mine`, each followed by a successful Close. With Connect
   * as written, `isTempDir` is still set during the second connection, and
   * the second Close removes the caller's directory.
   */
  method ReconnectRemovesCallerDir(c: Codec, e: Engine, file: Bytes, tmp: Bytes, mine: Bytes,
                                   open: Bytes -> Option<Buckets>)
    returns (closed: Outcome, ghost removed: set<Bytes>)
    requires mine != []
    requires open(DbPath(tmp, file)).Some? && open(DbPath(mine, file)).Some?
    ensures closed == Pass && removed == {tmp, mine} - {[]}
  {
    assert DbPath(ConnectDir([], Some(tmp)), file) == DbPath(tmp, file);
    var b := new Bolt(c, e);
    var err := b.Connect([Str(file), Str([]), Strings([])], Some(tmp), open);
    closed := b.Close(true, true);
    err := b.Connect([Str(file), Str(mine), Strings([])], None, open);
    assert b.isTempDir && b.dir == mine;
    closed := b.Close(true, true);
    removed := b.removedDirs;
  }

  /** The same two connections with the corrected Connect: only `tmp` is removed. */
  method ReconnectKeepsCallerDir(c: Codec, e: Engine, file: Bytes, tmp: Bytes, mine: Bytes,
                                 open: Bytes -> Option<Buckets>)
    returns (closed: Outcome, ghost removed: set<Bytes>)
    requires mine != []
    requires open(DbPath(tmp, file)).Some? && open(DbPath(mine, file)).Some?
    ensures closed == Pass && removed == {tmp} - {[]}
  {
    assert DbPath(ConnectDir([], Some(tmp)), file) == DbPath(tmp, file);
    var b := new Bolt(c, e);
    var err := b.ConnectOwningTempDir([Str(file), Str([]), Strings([])], Some(tmp), open);
    closed := b.Close(true, true);
    err := b.ConnectOwningTempDir([Str(file), Str(mine), Strings([])], None, open);
    assert !b.isTempDir;
    closed := b.Close(true, true);
    removed := b.removedDirs;
  }
}
