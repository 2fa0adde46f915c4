# CouchDB configuration provider, modelled in Dafny

This project models the core of `CouchDbDatabaseConfigurationProvider`. That class is an
`IConfigurationProvider` that serves the documents of one CouchDB database as flat
configuration keys, and it reloads when the database's change feed reports a change. The
model has three parts.

- **The flattener** (`Provider`, `Flattener`). `Load` walks the rows of the bulk fetch. For
  every row whose document is an object, `VisitObject` walks the document depth-first.
  Names go on a context stack, and `currentPath` is kept equal to the stack joined with `:`
  from bottom to top. Each scalar is stored at `database:docId:field:...`, and a field whose
  name starts with `_` is skipped together with everything under it. The provider is a
  class whose fields (`data`, `context`, `currentPath`) are updated in place by methods with
  `modifies` clauses. The specification of each walk is a function that returns a `Walk`
  value: the dictionary writes it makes in order, and, if it throws, the names it left on
  the stack. The functions are `PropsWalk`, `PropWalk`, `RowWalk` and `LoadWalk`.
  `ApplyWrites` performs writes on a map.
- **The queries** (`Snapshot`, `ConfigPath`). `TryGet` is a lookup with the source's filter on
  token kinds. `GetChildKeys` lists, for every key under a prefix, the next segment after
  the prefix, using `Segment` and `IndexOf`. `Set` always throws.
- **The change-feed watcher** (`ChangeFeed`). `ReaderContinuation` reads the feed over one
  connection attempt after another. It skips blank lines and accepts an event only when its
  `seq` is above `lastSeq`. Each accepted event replaces the single pending reload slot with
  a new one and disposes of the old one. The reader's state after a list of lines is the
  left fold `ReadAll` of the one-line step `Read`. The independent reference definitions are
  `MaxSeen` and `Accepted`, and `ReadAllTracks` connects the two. `CouchDbChangeToken.Run`
  starts the reader at most once.

The model follows the code, including these consequences of how it is written:

- `Load` writes into the live dictionary and never clears it. Keys of documents or
  fields deleted since an earlier load stay.
- `lastSeq` starts at `0`, so an event numbered 0 or below is never accepted.
- A feed line that does not parse, or whose `seq` cannot be read as an `int`, throws out of
  the reader loop. No reconnect follows: the watcher is dead, and `Run` will not restart it
  because `running` stays set.
- `GetChildKeys` ignores `earlierKeys`, so the earlier keys are neither merged nor returned.
  It also does not deduplicate.
- `Value<string>()` throws `InvalidCastException` for a field whose value is an array, and
  for an integer literal outside the 64-bit range, which the parser holds as a
  `BigInteger`. An empty field name makes `k.Name[0]` throw `IndexOutOfRangeException`.
- After any of these exceptions the walk stops:
  - the writes already made stay in `data`;
  - the names pushed on the way down stay on the context stack, and `currentPath` still
    matches the stack.

  `Load` and `VisitObject` return `threw` to model the exception, and their postconditions
  state the stack they leave.

The inputs are values:

- The bulk fetch is a list of `Row(id, doc)`.
- A document is `Json`: an object with its properties in order, an array, a scalar with
  its token kind and its rendered text, or an out-of-range integer (`BigInteger`).
- The change feed is a list of connection `Attempt`s. An attempt is either refused, or
  opened with the lines it delivered before the stream ended.
- A line is blank, a change that may carry a `seq` (an `Int32`), or malformed.

## Model

| member | source | states |
|---|---|---|
| Provider.CouchDbDatabaseConfigurationProvider.constructor | CouchDbDatabaseConfigurationProvider.cs:19-35 | a new provider has the given database name, an empty dictionary and an empty context stack, and its current path is the join of that stack |
| Provider.CouchDbDatabaseConfigurationProvider.Set | CouchDbDatabaseConfigurationProvider.cs:84-87 | every call throws `NotImplemented`; the method has no frame to modify, so the dictionary is unchanged |
| Provider.CouchDbDatabaseConfigurationProvider.EnterContext | CouchDbDatabaseConfigurationProvider.cs:162-166 | pushes the name on the stack and keeps `currentPath` equal to the stack joined from bottom to top |
| Provider.CouchDbDatabaseConfigurationProvider.ExitContext | CouchDbDatabaseConfigurationProvider.cs:168-172 | pops the top name and keeps `currentPath` equal to the joined stack |
| Provider.CouchDbDatabaseConfigurationProvider.VisitObject | CouchDbDatabaseConfigurationProvider.cs:139-160 | the dictionary afterwards is the old one with exactly the writes of `PropsWalk` applied, in order; it throws exactly when that walk does; on a normal return the stack and path are restored, and after a throw the stack is the old one plus the names the walk left pushed |
| Provider.CouchDbDatabaseConfigurationProvider.VisitProperty | CouchDbDatabaseConfigurationProvider.cs:141-159 | one iteration of the loop in `VisitObject`: the dictionary, the throw and the stack are those of `PropWalk` for that property (empty name throws, `_` name skipped, object walked, array or `BigInteger` throws, scalar stored at the current path) |
| Provider.CouchDbDatabaseConfigurationProvider.VisitRow | CouchDbDatabaseConfigurationProvider.cs:105-117 | one iteration of the loop in `Load`: an object document is walked below the document id, and any other document changes nothing |
| Provider.CouchDbDatabaseConfigurationProvider.Load | CouchDbDatabaseConfigurationProvider.cs:104-120 | the dictionary afterwards is the old one, not cleared, with exactly the writes of `LoadWalk` below the database name applied; a normal return restores the stack, and a throw leaves the database name and the pushed names on it |
| Flattener.ApplyKeys | CouchDbDatabaseConfigurationProvider.cs:155 | writes never remove a key: the keys afterwards are the old keys plus the written ones, and a key nobody writes keeps its value |
| Flattener.LastWriteWins | CouchDbDatabaseConfigurationProvider.cs:155 | a key's value is the token of the last write to it |
| Flattener.ApplyAppend | CouchDbDatabaseConfigurationProvider.cs:104-120 | performing two lists of writes one after the other is performing their concatenation |
| Flattener.ThrowStays | CouchDbDatabaseConfigurationProvider.cs:141-159 | once a property throws, no later property of the object is visited |
| Flattener.LoadThrowStays | CouchDbDatabaseConfigurationProvider.cs:105-118 | once a row throws, no later row is visited |
| Flattener.LoadKeepsEarlierWrites | CouchDbDatabaseConfigurationProvider.cs:104-120 | nothing is rolled back: the writes for the first rows are a prefix of the writes of the whole load, whether or not a later row throws |
| Flattener.WalkSafe | CouchDbDatabaseConfigurationProvider.cs:141-159 | the walk of an object does not throw if and only if every property is safe: its name is not empty and, unless skipped, its value is neither an array nor a `BigInteger` and is itself safe |
| Flattener.PropWalkSafe | CouchDbDatabaseConfigurationProvider.cs:143-156 | the walk of one property does not throw if and only if the property is safe |
| Flattener.LoadSafe | CouchDbDatabaseConfigurationProvider.cs:105-118 | a load does not throw if and only if every object document is safe; rows whose document is not an object never throw |
| Flattener.PathFacts | CouchDbDatabaseConfigurationProvider.cs:141-156 | every path to a leaf is non-empty, ends at a scalar, and holds no name starting with `_` |
| Flattener.WalkSound | CouchDbDatabaseConfigurationProvider.cs:141-156 | every write of a walk is a scalar reached by a path without skipped names, stored at the key that joins the context and the path; objects are never stored themselves |
| Flattener.PropWalkSound | CouchDbDatabaseConfigurationProvider.cs:148-156 | the same for the writes of one property |
| Flattener.WalkComplete | CouchDbDatabaseConfigurationProvider.cs:141-156 | a walk that does not throw writes every scalar reached by a path without skipped names, at the key that joins the context and the path |
| Flattener.PropWalkComplete | CouchDbDatabaseConfigurationProvider.cs:148-156 | the same for the property the path goes through |
| Flattener.LoadWalkSound | CouchDbDatabaseConfigurationProvider.cs:104-120 | every write of a load comes from a row whose document is an object, below that row's id |
| Flattener.LoadWalkComplete | CouchDbDatabaseConfigurationProvider.cs:104-120 | a load that does not throw writes every kept scalar of every object document |
| Flattener.KeyShape | CouchDbDatabaseConfigurationProvider.cs:165 | the key for database `db`, document `id` and path `p` is `db:id:` followed by `p` joined with `:` |
| Flattener.LoadedKeyShape | CouchDbDatabaseConfigurationProvider.cs:104-120 | every key a load from a fresh provider writes is the database name, a document id and the names of a path in that document, joined by `:`; no name on it starts with `_`, and the value is the stored scalar |
| ConfigPath.JoinConcat | CouchDbDatabaseConfigurationProvider.cs:165 | joining two non-empty segment lists puts exactly one delimiter between their joins |
| ConfigPath.IndexOf | CouchDbDatabaseConfigurationProvider.cs:135 | gives the first position at or after `from` that holds the character, or -1 when there is none |
| ConfigPath.Segment | CouchDbDatabaseConfigurationProvider.cs:133-137 | the result is the part of the key from `prefixLength` up to the next delimiter or to the end; it holds no delimiter |
| Snapshot.TryGet | CouchDbDatabaseConfigurationProvider.cs:61-82 | found, with the token's rendering, if and only if the key is present, its token is a JValue, the kind is one of the nine accepted ones and the value is not null; an absent key is not found and nothing is thrown; an accepted JValue holding null throws on `ToString()` |
| Snapshot.ChildSegmentsCount | CouchDbDatabaseConfigurationProvider.cs:56-58 | each segment is listed once for every key that starts with the prefix and continues with that segment, so nothing is deduplicated |
| Snapshot.ChildSegmentsSize | CouchDbDatabaseConfigurationProvider.cs:56-58 | the listing has one item per key that starts with the prefix |
| Snapshot.ChildSegmentsAreSegments | CouchDbDatabaseConfigurationProvider.cs:58 | no listed item contains the delimiter |
| Snapshot.GetChildKeysSpec | CouchDbDatabaseConfigurationProvider.cs:53-59 | `GetChildKeys` in full: the prefix is empty for a null or blank parent path and is the path plus `:` otherwise; the count of every segment; one item per key under the prefix; no item contains `:`; `earlierKeys` plays no part |
| Snapshot.ChildKeysExample | CouchDbDatabaseConfigurationProvider.cs:53-59 | with keys `a:b:c` and `a:d`, the children of `a` are `b` and `d` |
| Snapshot.RoundTrip | CouchDbDatabaseConfigurationProvider.cs:148-156 | after a walk that does not throw, over a document whose keys do not collide, looking up the key of any kept scalar gives back its rendering, or the null-reference throw for a JSON null |
| Snapshot.LoadedLookup | CouchDbDatabaseConfigurationProvider.cs:72-80 | every token a load stores is a JValue of kind String, so after a load into an empty dictionary a key is not found if and only if it is absent |
| ChangeFeed.ReaderContinuation | CouchDbDatabaseConfigurationProvider.cs:218-277 | the reader's final state is `ReadAll` from `lastSeq = 0` over all lines of all attempts; it stops with a fault if and only if some line is malformed; its `lastSeq`, accepted events, pending slot and disposed slots are the filter over the lines before the first malformed one |
| ChangeFeed.ReadStream | CouchDbDatabaseConfigurationProvider.cs:239-275 | the state after the lines of one opened stream is `ReadAll` of the state before it |
| Flattener.OutOfRangeIntegerThrows | CouchDbDatabaseConfigurationProvider.cs:148-156 | a document `{"a": "1", "n": <integer beyond 64 bits>}` stores `db:x:a`, then throws with `x` and `n` left on the stack and nothing stored for `n` |
| ChangeFeed.ReadAllTracks | CouchDbDatabaseConfigurationProvider.cs:258-273 | the fold `ReadAll` and the reference filter agree: faulted if and only if a line is malformed, `lastSeq` is the largest number seen (or 0), the accepted numbers are those of `Accepted`, the newest slot is pending and every older one is disposed |
| ChangeFeed.FaultedStays | CouchDbDatabaseConfigurationProvider.cs:264-267 | once a line has thrown, no later line changes anything |
| ChangeFeed.ReadAllAppend | CouchDbDatabaseConfigurationProvider.cs:220-276 | reading two pieces of the feed in turn is reading them together, so `lastSeq` and the pending slot carry across reconnects |
| ChangeFeed.MaxSeenBound | CouchDbDatabaseConfigurationProvider.cs:267-269 | `lastSeq` is below `v` if and only if `v` exceeds the start value and every number seen |
| ChangeFeed.AcceptedExactly | CouchDbDatabaseConfigurationProvider.cs:267-269 | a line is accepted if and only if it has a `seq` above the start value and above every earlier number |
| ChangeFeed.AcceptedIncreasing | CouchDbDatabaseConfigurationProvider.cs:267-269 | accepted numbers are strictly increasing and above the start value, and `lastSeq` is the last accepted one, or the start value when none was accepted |
| ChangeFeed.MaxSeenMonotone | CouchDbDatabaseConfigurationProvider.cs:267-269 | `lastSeq` never decreases as lines arrive |
| ChangeFeed.MaxSeenAtLeastBase | CouchDbDatabaseConfigurationProvider.cs:220 | `lastSeq` never falls below its start value |
| ChangeFeed.StaleLinesIgnored | CouchDbDatabaseConfigurationProvider.cs:258-273 | lines without a `seq`, or with one not above `lastSeq`, change neither `lastSeq` nor the accepted events, as with an event redelivered after a reconnect |
| ChangeFeed.Step | CouchDbDatabaseConfigurationProvider.cs:258-273 | the effect of one more line that is not malformed on `lastSeq` and on the accepted events |
| ChangeFeed.UpToFaultAppend | CouchDbDatabaseConfigurationProvider.cs:264 | lines before the first malformed one pass through |
| ChangeFeed.FaultPrefix | CouchDbDatabaseConfigurationProvider.cs:264 | whatever follows a malformed line is never read |
| ChangeFeed.FaultAt | CouchDbDatabaseConfigurationProvider.cs:264 | a malformed line after clean ones ends the feed right there |
| ChangeFeed.NoFault | CouchDbDatabaseConfigurationProvider.cs:264 | without a malformed line, every line is read |
| ChangeFeed.DuplicateInBurst | CouchDbDatabaseConfigurationProvider.cs:258-273 | events 1, a heartbeat, 1 again and 2: only 1 and 2 are accepted, the slot armed by 1 is disposed, and the pending reload is the one armed by 2 |
| ChangeFeed.RedeliveryAfterReconnect | CouchDbDatabaseConfigurationProvider.cs:220-276 | a stream cut after event 1, a refused attempt, then a stream redelivering 1 before 2: event 1 is processed once |
| ChangeFeed.CouchDbChangeToken.constructor | CouchDbDatabaseConfigurationProvider.cs:189-197 | a new token is not running and has started no reader |
| ChangeFeed.CouchDbChangeToken.Run | CouchDbDatabaseConfigurationProvider.cs:199-211 | afterwards the token is running, and a reader was started if and only if it was not already running, so a second call does nothing |

## Left out

- HTTP is not modelled: `HttpClient`, `GetAsync`, `SendAsync`, the stream reader, `EndOfStream` and a failed read. The bulk fetch is a given list of rows, and each feed connection is a given list of lines, which ends where the stream ended or a read failed (lines 98-100, 208-256).
- JSON parsing is not modelled. `JObject.Parse` and the `rows`, `id` and `doc` selectors become the `Row` and `Json` input values, and a line the parser rejects is the `Malformed` feed line. A missing `id` is not modelled (line 105).
- Rendering a scalar into a string is abstract. A `Json` scalar carries the text that `Value<string>()` produces, and that text is `null` for a JSON null (lines 155, 80). Which literals the parser turns into a `BigInteger` is left to the input: the model takes the `BigInteger` leaf as given.
- Snapshot.TryGet: takes a non-null key. The `ArgumentNullException` that `TryGetValue` throws for a null key is not modelled (line 64).
- A `seq` that is present but not convertible to `int` is folded into `Malformed`. Newtonsoft's conversion rules (such as rounding a float) are not modelled (line 267).
- Timers and tasks are not modelled: the 500 ms `CancellationTokenSource`, callback registration, `Task.Delay`, `Task.Factory.StartNew` and `Interlocked.Exchange`. Only the discrete rule is kept: the slot of an accepted event becomes pending and the previous pending slot is disposed. Whether a slot's reload fired before it was disposed is a matter of timing and is not modelled (lines 235, 260, 270-272).
- Cancellation and `Dispose` are not modelled, so the reader loop runs until the attempts run out or a line is malformed (lines 128-131, 213-216, 224).
- `ConfigurationReloadToken`, `GetReloadToken`, `OnReload`, `Build` and the `AddCouchDb` extension are framework glue and are not modelled (lines 31, 48, 89-94, 123-126, 282-289).
- The constructor's watcher wiring is not modelled. This includes the reload callback and the null dereference of `watcher` when `reload` is false (lines 36-50).
- Concurrency is not modelled: a reload running `Load` on the watcher's thread while queries run.
- Snapshot.GetChildKeys: returns a multiset, because `Dictionary` enumeration order is unspecified. The contract states how often each segment occurs, not in which order the segments come.
- ConfigPath.StartsWith: models the culture-sensitive `string.StartsWith` of line 57 as an ordinal prefix test.
- Provider.CouchDbDatabaseConfigurationProvider.constructor: a new provider's `currentPath` is `null` in the source. It is modelled as the empty string, the join of the empty stack, and no member reads it before the first push.
- ConfigPath.IndexOf: the `StringComparison.OrdinalIgnoreCase` argument of line 135 is not modelled. It makes no difference when searching for `:`.
- Provider.CouchDbDatabaseConfigurationProvider.VisitObject: documents contain only the scalar kinds the JSON parser produces, as required by `WellFormed`. Tokens built in code, such as bytes or GUIDs, never reach the flattener.
