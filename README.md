# A verified model of the BoltDB document adapter

This project models `db/bolt.go`, the `Bolt` adapter that puts a small document-store interface on top of the bolt embedded key-value engine. A `Bolt` handle opens one database file. The file holds named buckets, and each bucket maps byte keys to byte values. The handle keeps a two-slot cursor:

- `ExecOn` sets the selected bucket;
- `Find` sets the selected key, which is the gob encoding of a query value;
- `Insert`, `Remove` and `One` each run one transaction against the selected bucket.

The model has five modules:

- `Results`: the errors the adapter returns, one constructor per error site, plus Go's `error` as `Outcome` (nil or an error).
- `Bytes`: Go strings and byte slices, both as `seq<byte>`. `[]byte(s)` is the identity.
- `Gob`: the serializer. It is kept abstract as a `Codec` with three parts:
  - what the first `Encode` on a fresh encoder writes;
  - what a second `Encode` on the same encoder writes;
  - what a fresh decoder makes of non-empty input.
  A decoder given no bytes reports end of input. Every property is proved for every `Codec`.
- `Store`: the database as `map<bucket name, map<key, value>>`, with bolt's bucket creation, `Put`, `Delete` and `Get` as steps of a transaction. The engine's own acceptance rules are an abstract `Engine`: which bucket names `CreateBucketIfNotExists` takes, and which key/value pairs `Put` takes.
- `Db`: the `Bolt` class and its methods. It also holds the functions that specify them (`SelectBucket`, `SetUp`, `InsertResult`, `RemoveResult`, `FindKey`, `OneResult`) and the lemmas that relate operations to each other.

Outcomes of I/O are parameters of the methods that cause them:

- `Connect` takes the result of making the temporary directory, and `open(path)`. That function gives the current contents of the file at `path`, or None when it cannot be opened.
- `Close` takes whether closing the handle succeeded and whether removing the directory succeeded. Every non-empty path on which `os.RemoveAll` succeeded is recorded in the ghost field `removedDirs`. `os.RemoveAll("")` removes nothing and returns nil, so an empty `dir` is never recorded and never fails.

A missing key is not reported as "not found". `bkt.Get` returns nil, so the buffer stays empty, and a decoder given a non-nil pointer destination reports end of input (the model assumes a non-nil pointer destination; see `Gob.Decode` under "## Left out"). The model follows the code: `One` then gives `Failure(EndOfInput)`. `Find(nil)` keeps the previously selected key, as the code does. If the query cannot be encoded, `Find` selects whatever bytes the encoder had already written.

Insert-then-One is proved only up to the codec. `One` returns the decoding of exactly the bytes `Insert` stored (`Db.InsertThenOne`). The model does not claim that this decoding equals the inserted value. `Insert` encodes the value as the second message of an encoder that already sent the key. `One` decodes it with a fresh decoder, so type information sent with the key may be missing.

## Model

| member | source | states |
|---|---|---|
| `Gob.Decode` | db/bolt.go:189-211 | A fresh decoder fails with end of input exactly when it is given no bytes. Otherwise it succeeds exactly when the codec decodes the bytes into the destination, and returns that value. |
| `Store.CreateIfAbsent` | db/bolt.go:56 | After creation the bucket exists, every bucket that existed keeps its contents, and a newly created bucket is empty. |
| `Store.Put` | db/bolt.go:125-135 | A missing bucket gives NoBucket and a refused pair gives PutRejected. Otherwise exactly the one entry is set: all other entries and buckets are unchanged, and no bucket is added. |
| `Store.Delete` | db/bolt.go:153-163 | Fails exactly when the bucket is missing, with NoBucket. On success exactly the one key is gone and nothing else changed. An absent key leaves the store as it was. |
| `Store.Get` | db/bolt.go:193-203 | Fails exactly when the bucket is missing. It contributes the stored value when the key is present and no bytes when it is absent. |
| `Db.Format` | db/bolt.go:94 | The `%s` rendering: a string prints as itself and an opaque value as its text. A `[]string` prints bracketed, and a one-item slice prints as `[item]`. The rendering is empty only for an empty string or an opaque value whose text is empty. |
| `Db.SelectBucket` | db/bolt.go:89-101 | The selected name is never empty. No arguments, or an empty string, select "default". A non-empty string selects itself. Any other argument selects its `%s` rendering when that rendering is non-empty, and "default" otherwise. |
| `Db.CreateAllResult` | db/bolt.go:53-60 | The loop over the bucket list succeeds exactly when the engine accepts every name. It then adds exactly the listed buckets, leaves existing ones as they were, and makes new ones empty. |
| `Db.SetUpResult` | db/bolt.go:52-72 | Set-up succeeds exactly when the engine accepts the default name and every listed name. It then adds "default" and every listed bucket, keeps existing buckets' contents and adds nothing else. Its only failure is BucketSetupFailed. |
| `Db.DefaultBucketSelectable` | db/bolt.go:62-66 | After a successful set-up, `ExecOn()`, `ExecOn("")` and `ExecOn(name)` for each non-empty listed name all select a bucket that exists. |
| `Db.ConnectDir` | db/bolt.go:33-40 | A non-empty directory argument is used as given. An empty one is replaced by the temporary directory when it was made. The result is empty exactly when the argument is empty and no non-empty temporary directory was made. |
| `Db.DbPath` | db/bolt.go:46 | The path is the directory, one `/` byte, then the file name, and its length is the sum of theirs plus one. |
| `Db.SetUpBuckets` | db/bolt.go:52-69 | The step-by-step set-up transaction over a local copy of the store computes `SetUp`. |
| `Db.InsertResult` | db/bolt.go:103-142 | A key encoding failure, then a value encoding failure, then a missing bucket, are reported in that order. Success happens exactly when both encode, the bucket exists and the engine accepts the pair. Then only `store[bucket][first(docs[0])]` changes, to the second encoding. |
| `Db.RemoveResult` | db/bolt.go:143-170 | Encoding failure, then a missing bucket, are errors. Success happens exactly when the selector encodes and the bucket exists. Then only the encoded key is gone, and an absent key changes nothing. |
| `Db.FindKey` | db/bolt.go:179-187 | A nil query keeps the previous key. An encodable query selects its first encoding from a fresh encoder, the same key that Insert and Remove use. A query that fails to encode selects the bytes the encoder had already written. |
| `Db.OneResult` | db/bolt.go:189-214 | A missing bucket gives NoBucket and an absent key gives end of input. A present key gives the decoding of the stored bytes, and any success comes from decoding a stored entry. |
| `Db.InsertThenOne` | db/bolt.go:103-198 | After a successful `Insert(docs...)`, `Find(docs[0])` and `One` decode exactly the value bytes Insert stored. |
| `Db.RemoveThenOne` | db/bolt.go:143-214 | After a successful `Remove(selector)`, `Find(selector)` and `One` report end of input. |
| `Db.RemoveIdempotent` | db/bolt.go:153-163 | A second Remove of the same selector succeeds and leaves the store as the first one did. |
| `Db.ReinsertOverwrites` | db/bolt.go:125-135 | Inserting again under the same key document gives the same store as inserting only the second time. |
| `Db.Bolt.constructor` | db/bolt.go:17-23 | A zero-valued handle: no database, empty directory and cursor, not temporary. |
| `Db.Bolt.Connect` | db/bolt.go:25-75 | Checks the arguments in the source's order, then picks the directory: an empty one sets `isTempDir` and uses the temporary directory. A failed open leaves no database. After a successful open, the store is `SetUp` of the file's contents, or those contents unchanged when set-up fails. Each failure returns its error, and the cursor is never touched (details below). |
| `Db.Bolt.ConnectOwningTempDir` | db/bolt.go:25-75 | Corrected Connect (see "## Findings"): the same effects as `Connect`, except for `isTempDir`. Every connection that gets past the file-name check sets it to whether the directory argument is the empty string, so it no longer survives from an earlier connection. |
| `Db.Bolt.Close` | db/bolt.go:79-87 | A failed close returns CloseFailed and changes neither the handle nor the removed directories. Otherwise the database is closed. The current `dir` is added to `removedDirs` exactly when `isTempDir` is set, `dir` is non-empty and removal succeeds. A failed removal of a non-empty `dir` is reported as RemoveDirFailed; an empty `dir` always gives nil. |
| `Db.Bolt.ExecOn` | db/bolt.go:89-101 | Sets the bucket to `SelectBucket(resources)`; it may change only the bucket field and never fails. |
| `Db.Bolt.Insert` | db/bolt.go:103-142 | The store becomes `InsertResult`'s store on success and stays unchanged on failure, whose error is returned. An encoding error is returned on any handle; only an Insert whose encodings succeed needs an open database. The set of buckets never changes. Only the store may change. |
| `Db.Bolt.Remove` | db/bolt.go:143-170 | The same, with `RemoveResult`. Only a selector that encodes needs an open database. |
| `Db.Bolt.Find` | db/bolt.go:179-187 | Sets the key to `FindKey` of the old key; it may change only the key field. |
| `Db.Bolt.One` | db/bolt.go:189-214 | Returns `OneResult` for the current store and cursor, and changes nothing (no modifies clause). |
| `Db.Bolt.RemoveAll` | db/bolt.go:171 | Returns 0 and nil and changes nothing. |
| `Db.Bolt.Update` | db/bolt.go:172 | Returns nil and changes nothing. |
| `Db.Bolt.UpdateAll` | db/bolt.go:173-175 | Returns 0 and nil and changes nothing. |
| `Db.Bolt.Upsert` | db/bolt.go:176-178 | Returns 0 and nil and changes nothing. |
| `Db.Bolt.All` | db/bolt.go:215 | Returns nil and changes nothing. |
| `Db.Bolt.Distinct` | db/bolt.go:216 | Returns nil and changes nothing. |
| `Db.Bolt.Count` | db/bolt.go:217 | Returns 0 and nil and changes nothing. |
| `Db.ReconnectRemovesCallerDir` | db/bolt.go:33-87 | With Connect as written, connecting with an empty directory, closing, connecting again with the caller's directory `mine` and closing again succeeds and removes both `mine` and the temporary directory (when its name is non-empty). |
| `Db.ReconnectKeepsCallerDir` | db/bolt.go:33-87 | With the corrected Connect, the same sequence removes only the temporary directory (when its name is non-empty), never `mine`. |
| `Db.Session` | db/bolt.go:25-214 | A whole session runs on a fresh handle: Connect with an empty directory and one bucket, select it, Insert, then Find and One, then Remove, then Find and One, then Close. The first read decodes the stored value, the second reports end of input, and Close succeeds and removes the temporary directory (when its name is non-empty) and no other. |
| `Db.ConnectInTempDir` | db/bolt.go:25-75 | Connecting a fresh handle with an empty directory and a one-bucket list, when the file opens and the engine accepts the names, gives an open database in the temporary directory, with `isTempDir` set, nothing removed yet, and both the listed and the default bucket present. |
| `Db.InsertReadRemoveRead` | db/bolt.go:103-214 | On an open handle whose selected bucket exists: Insert, Find and One decode exactly the stored value bytes, and after Remove, Find and One report end of input. |

In detail, `Db.Bolt.Connect` does the following:

- A non-string file name returns an error and changes nothing.
- A non-string directory returns an error and clears `dir`.
- An empty directory sets `isTempDir` and uses the temporary directory, or fails; a non-empty one leaves `isTempDir` as it was, so a flag set by an earlier connection survives (see "## Findings").
- A failed open leaves no database.
- After a successful open, the store becomes `SetUp` of the file's contents on success. If set-up fails it stays the file's contents, and the database stays open.
- The cursor is never touched.

## Findings

| source | as written | input that shows it | evidently intended | confidence | as-written member | corrected member |
|---|---|---|---|---|---|---|
| db/bolt.go:37-40, 83-84 | `isTempDir` is only ever set to true. A later `Connect` on the same handle with a caller-supplied directory keeps it set, so the next `Close` calls `os.RemoveAll` on the caller's directory. | On one handle: `Connect("f", "", []string{})`, `Close()`, `Connect("f", "/data", []string{})`, `Close()`: the second `Close` removes `/data`. | Only a directory that `Connect` created itself is removed: `isTempDir` is reset to whether the directory argument was empty. | not executed | `Db.ReconnectRemovesCallerDir` | `Db.Bolt.ConnectOwningTempDir`, `Db.ReconnectKeepsCallerDir` |

The other members use the correction: `Db.ConnectInTempDir` and `Db.Session` connect through `ConnectOwningTempDir`.

## Left out

- The gob wire format: `Codec` is abstract.
  - Nothing states that decoding an encoding gives the value back.
  - For `Insert` the source does not guarantee that either. The value is the second message on an encoder that may already have sent its type, and `One` reads it with a fresh decoder.
- The bolt engine's internals: file open and locking, commit and durability, key ordering and nested buckets.
  - Which names and pairs it accepts is the abstract `Engine`.
  - A commit that fails on I/O after a successful step is not modelled.
- Filesystem work: how `ioutil.TempDir` names the directory and how `os.RemoveAll` works. Their outcomes are parameters, and the removed directories are the ghost set `removedDirs`.
- The error branches after `ioutil.ReadAll` in Insert and after `buf.Write` in One: reading or writing a `bytes.Buffer` reports no error, so these branches cannot be taken.
- The exact text of error messages. `Connect`'s wrapping of the set-up error is `BucketSetupFailed`.
- `Copy` and `CopyWithSettings`: they only return the receiver.
- Concurrency and races on the shared cursor fields.
- `Db.Bolt.Connect`: requires that indexing and the `resources[2].([]string)` assertion do not panic once they are reached (`ConnectReachesNoPanic`). The source panics there instead.
- `Db.Bolt.Insert`: requires `docs[0]`, and `docs[1]` once the key encoded (`InsertArgsOk`). The source panics when they are missing.
- `Db.Bolt.ExecOn`: an explicitly empty, non-nil argument slice panics in the source. The model reads the empty sequence as the nil slice of a call without arguments.
- `Db.Bolt.Insert` and `Db.Bolt.Remove`: encode first, and require an open database only once their encodings succeeded, so the encoding errors are modelled on any handle. Past that point, a nil `db` panics in the source and a closed one gets bolt's own "database not open" error; neither is modelled.
- `Db.Bolt.One`: requires an open database, because it starts with the read transaction. On a nil `db` the source panics, and on a closed one bolt returns "database not open", which is not modelled.
- `Db.Bolt.Close`: requires a `db` that was opened. After a failed close the model leaves `db` as it was, because what the engine does with its handle then is not visible.
- `Db.Bolt.One`: on a decoding failure the model does not say what the destination holds.
- `Gob.Value`: values other than nil, strings and `[]string` are opaque. Each carries the text `%s` prints for it, which is all `ExecOn` looks at.
- `Db.InsertThenOne`, `Db.RemoveThenOne`, `Db.RemoveIdempotent` and `Db.ReinsertOverwrites`: assume the key encoding is deterministic, because `Codec.first` is a function. Gob encodes a map in Go's randomised iteration order, so for map-typed key documents `Find` and `Insert` may compute different keys; the lemmas do not cover such keys.
- `Db.FindKey`, `Db.Bolt.Find`, `Db.InsertResult`, `Db.Bolt.Insert`, `Db.RemoveResult` and `Db.Bolt.Remove`: gob's `Encoder.Encode` panics when given a typed nil pointer. `Find` then never returns (db/bolt.go:183), nor do `Remove` (147) and `Insert` (107 for the key, 117 for the value). The model cannot tell a typed nil pointer from any other opaque value, and treats its encoding as an ordinary `Codec` outcome.
- `Gob.Decode`: assumes the destination is a non-nil pointer. Gob rejects a typed nil pointer and a non-pointer destination with its own error before it reads any bytes, so for such a destination an empty buffer does not give end of input. A nil interface destination makes gob read a value and throw it away; the model gives that case no special treatment.
- `Db.OneResult` and `Db.Bolt.One`: rest on `Gob.Decode`, so they make the same non-nil-pointer assumption.
- `Db.Session`, `Db.ReconnectRemovesCallerDir` and `Db.ReconnectKeepsCallerDir`: the model lets the temporary directory's name be empty, which `ioutil.TempDir` never returns on success. Their removed sets therefore leave out the empty path rather than assume a non-empty name.
