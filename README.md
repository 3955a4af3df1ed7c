# move-dups — a Dafny model of the duplicate mover

move-dups scans the flat listing of a source directory. It fingerprints files
by `"<bytes read>-<hex MD5>"` and keeps the first file of each fingerprint in
listing order. `Run` fingerprints every non-directory entry whose `Info`
succeeds; `main.go` fingerprints every non-directory entry. Every later file
with the same fingerprint is renamed into a destination directory under the same name. `Run` uses a pool of
hashing workers. Their results arrive in any order, and a reorder buffer hands
them to the duplicate resolver in listing order, so "first seen wins" does not
depend on scheduling. The older `main.go` does the same in one sequential loop.

The model has one module per piece of the program:

- `Wrappers`: `Option` and `Result`.
- `Entries`: bytes, 16-byte digests, and a listing entry (name, directory flag,
  whether `Info` succeeds, listed size, and what reading the file yields).
  MD5 is a parameter `md5: seq<byte> -> Digest`, so every property holds for
  every digest function.
- `FileKey`: decimal and lower-case hex rendering, the key, a parser for
  keys, and `calculateHash`.
- `Worker`: `job`, `result` and the per-job classification done by `worker`.
- `Resolver`: `processResult` as a pure step over a ledger and two directories.
  Also the fold of that step over a sequence of results, the classes `Ledger`
  (the `seenHashes` map) and `FileSystem` (names in the source and destination
  directories, plus `Rename` and `Mkdir`), and the imperative `ProcessResult`.
- `Reorder`: the class `ReorderBuffer` (`nextIndex`, `resultBuffer`), with
  `Insert` (store one result, then drain) and `Drain` (the inner loop).
  Also the arrival invariant `Arrived`, kept across any arrival order.
- `MoveDups`: `Run`, with its two early error returns. The worker pool becomes
  an arrival order `order`, which is any permutation of `0..n-1`.
- `Legacy`: `fileAction` and the loop of `main` in `main.go`. Includes the
  equivalence with the pipeline when every `Info` succeeds.
- `Scenario`: the fixture of `TestRun` and its expected outcome.

Run's contract is what makes it deterministic. For every arrival permutation,
the results handed to `processResult` are exactly `Results(entries, md5)`, in
index order, each once. The final directories are therefore
`ProcessAll(…, Results(entries, md5), renameOk)`, whatever order the workers
finish in.

No entry is skipped for its size, in the code or in the model. `Run` hashes
every non-directory entry whose `Info` succeeds
(pkg/movedups/movedups.go:93-114), and `main.go` hashes every non-directory
entry (main.go:30-49).

## Model

| member | source | states |
|---|---|---|
| FileKey.Decimal | pkg/movedups/movedups.go:164 | `%d` renders a count as a non-empty digit string without a leading zero |
| FileKey.DecimalRoundTrip | pkg/movedups/movedups.go:164 | the decimal rendering of a byte count parses back to that count |
| FileKey.HexEncode | pkg/movedups/movedups.go:163 | `hex.EncodeToString` yields two hex characters per byte |
| FileKey.HexRoundTrip | pkg/movedups/movedups.go:163 | hex encoding of a digest decodes back to the same bytes |
| FileKey.Key | pkg/movedups/movedups.go:163-164 | the key is the decimal count, `-`, then 32 hex characters, so the dash sits 33 characters from the end |
| FileKey.KeyRoundTrip | pkg/movedups/movedups.go:163-164 | a key parses back to its byte count and digest |
| FileKey.DecimalCanonical | pkg/movedups/movedups.go:164 | the only strings read as a count are `%d` renderings: no sign, no leading zero |
| FileKey.HexCanonical | pkg/movedups/movedups.go:163 | the only strings decoded as hex are lower-case `hex.EncodeToString` renderings |
| FileKey.ParseKeyCanonical | pkg/movedups/movedups.go:163-164 | a string that parses as a key is the key of what it parses to, so a key's meaning fixes its text |
| FileKey.KeyInjective | pkg/movedups/movedups.go:163-164 | two keys are equal if and only if both the byte counts and the digests are equal |
| FileKey.CalculateHash | pkg/movedups/movedups.go:146-165 | an open failure and a read failure are distinct errors; otherwise the key is built from the bytes actually read, and the listed size never enters it |
| Worker.Work | pkg/movedups/movedups.go:89-119 | the result keeps the job's index and entry; a directory is skipped with no hash and no error; a failed Info gives the info error; a failed open/read gives an error; otherwise the hash is calculateHash's key |
| Worker.Results | pkg/movedups/movedups.go:56-59 | job i carries index i and entries[i], one job per entry |
| Worker.SameKeyIffSameCountAndDigest | pkg/movedups/movedups.go:109-116 | two hashed results carry the same key exactly when equal byte counts were read and the digests agree |
| Resolver.Decide | pkg/movedups/movedups.go:121-144 | each result gets exactly one of skip (directory), error, keep (key unseen) or move (key seen) |
| Resolver.Process | pkg/movedups/movedups.go:121-144 | skipped and errored results change nothing; keep records the key and moves nothing; move leaves the ledger alone and renames only when the rename succeeds |
| Resolver.SeenAfterContents | pkg/movedups/movedups.go:135-143 | after a sequence of results, the ledger holds exactly the initial keys plus the keys of the hashed results |
| Resolver.ProcessAllLedger | pkg/movedups/movedups.go:138-142 | rename outcomes never affect the ledger, so a failed rename changes no later decision |
| Resolver.FirstWins | pkg/movedups/movedups.go:135-143 | a hashed result is kept if and only if no earlier hashed result had its key, and moved if and only if one did |
| Resolver.KeptKeysDistinct | pkg/movedups/movedups.go:141-143 | two kept results never share a key |
| Resolver.ProcessAllFiles | pkg/movedups/movedups.go:135-140 | after processing, the source lost and the destination gained exactly the names decided move whose rename succeeded |
| Resolver.Placement | pkg/movedups/movedups.go:135-140 | with distinct names all in the source, a file ends in the destination if and only if it was decided move and renamed; otherwise it is still in the source |
| Resolver.SecondRunMovesNothing | pkg/movedups/movedups.go:135-143 | the keep-set is idempotent: processing only the results not moved gives the same ledger and decides no move |
| Resolver.ProcessAllAppend | pkg/movedups/movedups.go:76-84 | processing a + b is processing a, then b |
| Resolver.FileSystem.Rename | pkg/movedups/movedups.go:138-140 | a successful rename moves the name from source to destination; a failed one changes neither |
| Resolver.FileSystem.Mkdir | main.go:19 | a successful os.Mkdir adds the new directory's name to the source; a failed one changes nothing; the destination is untouched |
| Resolver.ProcessResult | pkg/movedups/movedups.go:121-144 | the imperative processResult leaves ledger and directories as Process does |
| Reorder.ReorderBuffer.constructor | pkg/movedups/movedups.go:70-71 | nextIndex starts at 0 with an empty buffer |
| Reorder.ReorderBuffer.Drain | pkg/movedups/movedups.go:76-84 | drains the contiguous run from nextIndex in order, each result processed once; afterwards nextIndex is not buffered and the drained keys are gone |
| Reorder.ReorderBuffer.Insert | pkg/movedups/movedups.go:73-85 | stores the result under its index, then drains; nextIndex only grows, by the number of results handed to processResult |
| Reorder.ArrivalIsNew | pkg/movedups/movedups.go:73-74 | an arriving index is at least nextIndex and not already buffered |
| Reorder.ArrivalStepBuffer | pkg/movedups/movedups.go:73-85 | after an arrival and its drain, every buffered key is above nextIndex and every arrival is drained or buffered |
| Reorder.ArrivalStepDrained | pkg/movedups/movedups.go:76-84 | the drained results continue the in-order prefix of all results |
| Reorder.ArrivalStep | pkg/movedups/movedups.go:73-85 | one arrival and its drain preserve the arrival invariant |
| Reorder.ArrivalsDone | pkg/movedups/movedups.go:73-86 | once all n results have arrived, the buffer is empty and nextIndex == n |
| MoveDups.ResolveInOrder | pkg/movedups/movedups.go:69-86 | for any arrival permutation, processResult receives every result in index order, each once |
| MoveDups.Run | pkg/movedups/movedups.go:28-87 | a listing failure or a destination failure returns its error with the directories untouched; otherwise no error, results processed in listing order, directories as ProcessAll gives them |
| Legacy.LegacyKey | main.go:30-49 | fileAction returns early exactly for directories and open/read failures; otherwise its key is built from the bytes io.Copy read |
| Legacy.Action | main.go:28-58 | directories and failures change nothing; a file whose key is already seen is renamed when the rename succeeds; the key is in the ledger afterwards |
| Legacy.ReinsertHarmless | main.go:57 | the unconditional re-insert records the key and leaves the ledger unchanged for a duplicate |
| Legacy.SizeIgnored | main.go:45-47 | the listed size only triggers a note and never changes the outcome |
| Legacy.ActionAgrees | main.go:30-57 | for an entry whose Info succeeds, fileAction has exactly processResult's effect on the worker's result |
| Legacy.LegacyAgrees | main.go:23-25 | when every Info succeeds, the legacy loop and Run's pipeline end with the same ledger and directories |
| Legacy.LegacyDecisionAgrees | main.go:50-57 | per entry, the legacy loop moves (or keeps) exactly when processResult decides move (or keep) |
| Legacy.InfoFailureDiffers | pkg/movedups/movedups.go:102-107 | on an entry record with infoOk false, the worker reports an error and processResult changes nothing, while Action hashes the entry and records its key; main.go makes no per-entry Info call, so the case does not arise there |
| Legacy.FileAction | main.go:28-58 | the imperative fileAction leaves ledger and directories as Action does |
| Legacy.LegacyMain | main.go:14-26 | a listing failure panics with nothing changed; a successful Mkdir adds `dups` to the source `.`, a failed one changes nothing and does not stop the loop; the loop then runs over the listing taken before Mkdir, and the directories end as the fold of Action from that source gives them |
| Scenario.ScenarioKeys | pkg/movedups/movedups_test.go:16-36 | for every MD5 function, all four files are hashed; file1, file3 and file4 share a key that file2 lacks, because the lengths differ |
| Scenario.ScenarioDecisions | pkg/movedups/movedups_test.go:43-48 | the decisions are keep, keep, move, move |
| Scenario.TestRun | pkg/movedups/movedups_test.go:38-57 | Run on the fixture, for every MD5 function and every arrival order, returns no error and leaves file1 and file2 in the source and file3 and file4 in the destination |
| Scenario.TestRunOutcome | pkg/movedups/movedups_test.go:50-57 | when every rename succeeds, the source keeps file1 and file2 and the destination holds file3 and file4 |

## Left out

- Goroutines, channels, `sync.WaitGroup` and `runtime.NumCPU` (pkg/movedups/movedups.go:41-67) are concurrency. The pool is replaced by precomputed worker results that arrive in an arbitrary permutation `order`. Channel capacities and blocking are not modelled.
- MD5 is a parameter: no property depends on how the digest is computed.
- Filesystem calls are I/O and become inputs:
  - `os.ReadDir`, `ioutil.ReadDir`: an optional listing;
  - `os.MkdirAll`, `os.Mkdir`: a flag, and for `os.Mkdir("dups")` in main.go, on success, the name `dups` added to the source;
  - `os.Open`, `io.Copy`: the entry's `Contents`;
  - `DirEntry.Info`: `infoOk`;
  - `os.Rename`: `renameOk` by entry index.
  Paths are reduced to names, since `filepath.Join` with the directory is not modelled. Sorting of the listing by name is taken as given.
- Logging is not modelled: `log.Printf`, the progress lines, and the size-mismatch note (including its swapped arguments at pkg/movedups/movedups.go:160). Error values carry no message text, and `fmt.Errorf` wrapping is reduced to an error kind.
- `log.Panic` in main.go:17 is modelled as a returned `panicked` flag. The panic's unwinding is not modelled.
- cmd/movedups/main.go is not part of this model: it only parses flags and exits.
- Byte counts are an unbounded `nat`, not Go's `int64`. Real files never reach 2^63 bytes, so `io.Copy`'s `int64` count never wraps; the model does not bound the count.
- main.go's per-entry stat happens inside `ioutil.ReadDir` at listing time and is not modelled, so `LegacyMain` accepts listings containing entries with `infoOk == false`. Such records have no counterpart in main.go.
- The model does not check that a moved file's name is absent from the destination beforehand, nor what `os.Rename` does then. Both are folded into `renameOk`.
- `FileSystem` keeps the source and destination as separate name sets, so the model assumes srcDir != destDir. When they are the same directory, `os.Rename(p, p)` succeeds and the file stays where it is, while `Process` with `renameOk` true removes the name from the source.
- MoveDups.Run: the paths srcDir and destDir are not modelled, so `os.MkdirAll(destDir)` never adds an entry to the source set. When destDir is a new entry of srcDir, as with cmd/movedups/main.go's `.` and `dups`, the real source gains that directory and the model's `src` does not show it. The listing is taken before `MkdirAll`, so no decision changes.
