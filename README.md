# Verified model of `gsutil cp` and the WebSocket latency probe

This project models two small programs:

- **The `cp` subcommand of a minimal `gsutil`** (Rust, `cloud_storage/src/main.rs`).
  - It classifies each argument as a `gs://` locator or a local path.
  - It refuses local-to-local and gcs-to-gcs copies, with the exact messages the tool prints.
  - Otherwise it uploads one local file as one object, or downloads one object into one local file.
  - When uploading, the object name is the destination's object name, `/` and the source's file name. Without a destination object it is the file name alone.
  - When downloading, the destination file is created (or truncated) before the source is required to name an object.
  - The file system and the storage service are a `World` object.
    - `disk` maps paths to bytes; `store` maps (bucket, object) to bytes.
    - `trace` records every effect in order.
    - `faults` names the foreign steps that fail in this world (open, metadata, create, building a request, executing it, copying the body).
  - `url::Url::parse` and `gs_url_to_object_id` are a pair of partial functions (`UrlParser`) given as a parameter.
- **A latency probe over a WebSocket** (TypeScript, `webstock_latency/src/server.ts` and `client.ts`).
  - The client sends `RESET`, then one 1024-letter payload per animation frame, recording the time of each.
  - After `tickHz * seconds` = 3600 payloads it sends `DUMP` and prints a histogram of the gaps between its own send times.
  - The server timestamps every message other than `RESET` and `DUMP`, forgets its timestamps on `RESET`, and on `DUMP` prints the histogram of the arrival gaps.
  - The histogram counts each distinct delta. Its keys come out in JavaScript's `Object.keys` order: keys that are array indices (0 to 2^32 - 2) first, ascending; then the other keys (negative deltas, and any of 2^32 - 1 or more) in the order they were first added.

Modules:

- `Results`: `Option` and `Result`.
- `PathNames`: Rust's `Path::file_name` on `/`-separated paths.
- `CloudStorage`: `DataPath`, `try_from`, `cmd` and the `World`.
- `Histogram`: the computation both `printHistogramData` functions share, specified as functions with lemmas.
- `LatencyServer`, `LatencyClient`: the two endpoints; the loops are methods proved against `Histogram`.
- `LatencySession`: both endpoints in one session.

In `main.rs` the destination of a download is created, and so truncated, at line 91, before the object name is required at lines 96-97. `CloudStorage.Cmd` states that a download without an object name leaves the destination empty.

## Model

| member | source | states |
|---|---|---|
| PathNames.FileName | cloud_storage/src/main.rs:70 | a file name, when there is one, is a normal component: non-empty, not `.` or `..`, without a separator |
| PathNames.FileNameOfJoin | cloud_storage/src/main.rs:66-74 | joining any directory and a normal name with `/` gives a path whose file name is that name; a normal name is its own file name |
| PathNames.FileNameIgnoresTrailing | cloud_storage/src/main.rs:70 | a trailing `/` or `/.` after a normal name leaves that name as the file name |
| PathNames.FileNameOfParent | cloud_storage/src/main.rs:70-73 | `dir/..` and `..` alone have no file name, so the upload fails with "can't turn file_name into string" |
| PathNames.FileNameWithoutComponents | cloud_storage/src/main.rs:70-73 | a path whose `/`-separated pieces are all empty or `.` (`""`, `.`, `/`, `//`, `./`) has no file name |
| PathNames.FileNameOfRoot | cloud_storage/src/main.rs:70-73 | `/` has no file name |
| CloudStorage.DataPath.IsFile | cloud_storage/src/main.rs:24-30 | true exactly for the `File` variant |
| CloudStorage.TryFrom | cloud_storage/src/main.rs:36-43 | a string without the `gs://` prefix is a local path, unchanged; with it, the parse error, then the object-id error, is returned, or the locator; a classified path is a file exactly when the string lacks the prefix |
| CloudStorage.Direction | cloud_storage/src/main.rs:55-61 | the check passes exactly when one side is local; both local gives "source and destination are both located on local disk", both remote "... on gcs"; a passing pair is an upload from File to Gs or a download from Gs to File, so no other pair reaches the match |
| CloudStorage.Resolve | cloud_storage/src/main.rs:51-59 | the source's classification error comes first, then the destination's; an upload has a local source and a `gs://` destination, a download the reverse; two local strings are always refused as both on local disk; once both strings classify, the transfer is accepted exactly when one side is local, two `gs://` locators are refused with "source and destination are both located on gcs", a local source with a `gs://` destination is the upload of that path to that locator, and a `gs://` source with a local destination is the download of that locator into that path |
| CloudStorage.UploadObjectName | cloud_storage/src/main.rs:66-74 | fails, with "can't turn file_name into string", exactly when the source has no file name; otherwise the name is exactly the destination object, `/` and the source's file name when there is a destination object, the bare file name when there is none, and has the source's file name as its own file name |
| CloudStorage.UploadFromCurrentDirectory | cloud_storage/src/main.rs:66-74 | uploading `./name` to `gs://bucket/dir` names the object `dir/name`; to `gs://bucket` it names it `name` (so `./report.csv` into `incoming` becomes `incoming/report.csv`) |
| CloudStorage.World.OpenFile | cloud_storage/src/main.rs:63 | opening succeeds exactly when the path exists and opening is not failing, yielding the file's bytes; a missing path is NotFound; the attempt is recorded |
| CloudStorage.World.Length | cloud_storage/src/main.rs:64 | the length of an opened file is its number of bytes unless reading metadata fails |
| CloudStorage.World.CreateFile | cloud_storage/src/main.rs:91 | creating leaves the path holding no bytes (create or truncate) unless creation fails, in which case the disk is unchanged |
| CloudStorage.World.BuildRequest | cloud_storage/src/main.rs:75-84 | building a request yields that request unless building fails |
| CloudStorage.World.Send | cloud_storage/src/main.rs:86 | an insert stores its body under (bucket, name) when executing succeeds; a download yields the stored bytes when the object exists and changes nothing; every request is recorded |
| CloudStorage.World.CopyInto | cloud_storage/src/main.rs:104 | the destination receives the body unless copying fails |
| CloudStorage.Cmd | cloud_storage/src/main.rs:48-110 | the whole subcommand: a classification or direction error touches nothing; an upload never changes the disk, fails with "source path" when the file cannot be opened, stops before any request on a metadata or file-name error, and stores the file's bytes and length under the derived object name exactly when the request executes; a download never changes the store, fails with "destination path" when the file cannot be created, truncates the destination before refusing a locator without an object name, and leaves the object's bytes in the destination when fetching and copying succeed |
| CloudStorage.UploadThenDownload | cloud_storage/src/main.rs:61-107 | with no failing step, uploading a file to a bucket and downloading the object it became into another path succeeds both times, gives that path the file's bytes and leaves the object holding them |
| Histogram.DeltasShape | webstock_latency/src/server.ts:10-13 | there is one delta fewer than timestamps (none for an empty list), the i-th being `data[i+1] - data[i]` |
| Histogram.DeltaTimes | webstock_latency/src/server.ts:10-13 | the loop from index 1 pushes exactly the consecutive differences |
| Histogram.FirstOccurrences | webstock_latency/src/server.ts:18-25 | the order keys enter `counts` holds each delta exactly once |
| Histogram.CountsOfSnoc | webstock_latency/src/server.ts:20-24 | one more delta bumps its count, or adds it with count 1 |
| Histogram.CountDeltas | webstock_latency/src/server.ts:18-25 | the counting loop ends with each delta mapped to its number of occurrences, keys added in first-occurrence order, and counts summing to the number of deltas |
| Histogram.CountsTotal | webstock_latency/src/server.ts:18-25 | the counts, summed over the keys in insertion order, add up to the number of deltas |
| Histogram.TotalRemoveAt | webstock_latency/src/server.ts:28 | taking one key out of a key list takes its count out of the total |
| Histogram.TotalPermutation | webstock_latency/src/server.ts:28 | summing counts over any reordering of distinct keys gives the same total |
| Histogram.Filter | webstock_latency/src/server.ts:28 | keeps exactly the keys that are (or are not) array indices, preserving distinctness |
| Histogram.FilterCons | webstock_latency/src/server.ts:28 | a key in front is kept in front when it is of the chosen kind and dropped otherwise |
| Histogram.FilterAppend | webstock_latency/src/server.ts:28 | filtering a concatenation concatenates the filtered parts, so the kept keys stay in their original relative order |
| Histogram.FilterPartition | webstock_latency/src/server.ts:28 | every key is kept by exactly one of the two filters |
| Histogram.Insert | webstock_latency/src/server.ts:28 | inserting a new key into an ascending list keeps it ascending and adds exactly that key |
| Histogram.SortAscending | webstock_latency/src/server.ts:28 | the array-index keys sorted ascending are a permutation of them |
| Histogram.ObjectKeys | webstock_latency/src/server.ts:28 | `Object.keys(counts)` lists every key of `counts` exactly once |
| Histogram.ObjectKeysOrder | webstock_latency/src/server.ts:28 | array-index keys come first, ascending, followed by the other keys in insertion order |
| Histogram.Rows | webstock_latency/src/server.ts:28-30 | one row per key, in key order, holding the key and its count |
| Histogram.ColumnsAligned | webstock_latency/src/client.ts:31-38 | the separately printed key column and count column have the rows' length and their i-th entries form the i-th row |
| Histogram.ReportRows | webstock_latency/src/server.ts:18-30 | no delta is printed twice, and every printed delta occurs among the deltas with its exact number of occurrences |
| Histogram.ReportCoversDeltas | webstock_latency/src/server.ts:18-30 | every delta is printed |
| Histogram.ReportSum | webstock_latency/src/server.ts:15-30 | the printed counts add up to the announced number of deltas |
| LatencyServer.PrintRows | webstock_latency/src/server.ts:27-30 | the printing loop emits one `key<TAB>count` row per key, in key order |
| LatencyServer.PrintHistogramData | webstock_latency/src/server.ts:8-31 | announces max(0, n-1) deltas and prints the report of the timestamps |
| LatencyServer.Server.OnMessage | webstock_latency/src/server.ts:39-49 | `RESET` empties the timestamps; `DUMP` prints the histogram of the timestamps held and then empties them; any other message appends the clock reading |
| LatencyServer.Session | webstock_latency/src/server.ts:37-49 | after `RESET`, data messages and `DUMP`, the dump describes exactly the data messages' arrival times, whatever the server held before |
| LatencyClient.RandomStr | webstock_latency/src/client.ts:1-8 | `len` lowercase letters, none when `len` is not positive |
| LatencyClient.PayloadIsData | webstock_latency/src/client.ts:62 | a payload is never `RESET` or `DUMP` |
| LatencyClient.PrintKeyColumn | webstock_latency/src/client.ts:31-34 | the first printing loop emits the keys in order |
| LatencyClient.PrintCountColumn | webstock_latency/src/client.ts:35-38 | the second printing loop emits the counts in the same key order |
| LatencyClient.PrintHistogramData | webstock_latency/src/client.ts:10-39 | announces max(0, n-1) deltas; the i-th printed count is the count of the i-th printed delta, and the columns are the report of the timestamps |
| LatencyClient.Client.OnOpen | webstock_latency/src/client.ts:51-54 | sends `RESET` and restarts the packet counter |
| LatencyClient.Client.Tick | webstock_latency/src/client.ts:56-72 | records the clock reading, sends a payload and counts it; exactly when the count reaches 3600 it also sends `DUMP` and prints the histogram of all recorded times |
| LatencyClient.Payloads | webstock_latency/src/client.ts:56-67 | the first 3599 ticks each send a payload and ask for another frame |
| LatencyClient.LastTick | webstock_latency/src/client.ts:63-71 | the 3600th tick sends the last payload, then `DUMP`, and prints the histogram of all 3600 recorded times |
| LatencyClient.Stream | webstock_latency/src/client.ts:51-74 | a session records exactly 3600 times and sends `RESET`, 3600 payloads and `DUMP`, then prints 3599 deltas describing the recorded times |
| LatencySession.PayloadsAreData | webstock_latency/src/client.ts:62 | none of the client's payloads is taken by the server for `RESET` or `DUMP` |
| LatencySession.Serve | webstock_latency/src/server.ts:39-49 | the server, given `RESET`, the client's 3600 payloads and `DUMP` in order, dumps the histogram of the payloads' arrival times: 3599 deltas whose counts add up to 3599 |
| LatencySession.Measure | webstock_latency/src/server.ts:39-49 | delivered in order, the client's messages make the server print the histogram of the 3600 arrival times; both sides announce 3599 deltas and the server's counts add up to 3599 |

## Left out

- `cloud_storage/src/util.rs` is not part of this model. `GsUrl`, `gs_url_to_object_id` and `execute` appear only through their effects.
- `url::Url::parse` and `gs_url_to_object_id`: their insides are a caller-supplied `UrlParser`. Only their success or error is used.
- Command-line parsing, credentials, the request context and `real_main` are not modelled. `Cmd` takes the two argument strings.
- `tame_gcs` request building and the HTTP exchange become the `Build` and `Execute` steps of the `World`. Their error texts are not the libraries' own.
- CloudStorage.World.CopyInto: a copy that fails part-way leaves the destination empty in the model. The real `io::copy` may have written a prefix.
- CloudStorage.World.OpenFile: an open failure on an existing path is modelled as one generic I/O error. The operating system's error kinds (permissions and so on) are not distinguished.
- PathNames.FileName: paths are Unix paths split on `/` only. File names that are not valid UTF-8, which make `to_str` fail, are not representable, because paths are strings here.
- CloudStorage.Message: for I/O errors the text is the `io::ErrorKind` description ("entity not found", "other error"). The process prints the operating system's own message, such as "Permission denied (os error 13)", which is not modelled.
- Clock readings (`process.hrtime`, `performance.now`) and their rounding are integer parameters (`now`, `frames`, `arrivals`). Float timestamps are not modelled.
- LatencyClient.RandomStr: `Math.random` is a nondeterministic choice of letter, so only the length and the alphabet are stated.
- `console.log` output is the `Dump` and `Printed` values, not text. The banner lines, the "Printing N deltas..." wording and the client's "100hz" banner text are not modelled.
- The `window.counts` assignment in the client is not modelled.
- The WebSocket connection, `requestAnimationFrame` scheduling and `ws.onmessage` are not modelled. `Stream` and `Session` drive the handlers in order. `Measure` takes every message to be delivered once and in order.
- Non-string WebSocket messages (buffers) on the server are not modelled.
- The client's `packetTimes` is never reset by `onopen`. The model keeps it that way, and `Stream` starts from a fresh client.
