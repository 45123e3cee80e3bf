# Admission, accounting and byte-window rules of a storage daemon

This project is a Dafny model of the decision logic in a peer-to-peer storage
daemon derived from go-ipfs. Before the node may go online it must hold a
license: a signature by a trust authority over the node's identity. Once
online, it reports its usage to an accounting service at random intervals.
The model covers these parts:

- **Start-up** (module `Daemon`, `startup.dfy`). Command-line options
  override the stored transaction id, output index, secret and reporting
  account. The configuration is written back only when an option was given.
  In online mode the verification fields, the authority settings and the
  account are checked before the license check runs. Then the routing option
  is resolved to a routing mode, and mounting is refused in offline mode.
  The three-try yes/no prompt is also here.
- **The license check** (module `License`, `license.dfy`). It has four steps:
  - renew the license when it has expired, is missing or has version 0;
  - derive the node's public key;
  - find the authority key for the license version in the cached key list,
    fetching and replacing that list when the version is not in it;
  - check the license as the authority's signature over the node identity
    hash.
- **The usage reporter** (module `Report`, `report.dfy`):
  - the random reporting interval, taken between whole-second bounds;
  - storage in whole MiB, stored in 32 bits;
  - the report itself, with one list entry per ledger diff, signed with the
    node's secret;
  - the three-way classification of the collector's response.
- **`cat`** (module `Cat`, `cat.dfy`). The loop picks the readers and the
  length announced for a list of files, a start offset and an optional
  maximum length. The command's argument and option checks come before it.
- **Bootstrap peers** (module `Bootstrap`, `bootstrap.dfy`). A list of
  address strings is parsed all or nothing, peers are printed back to
  strings, and the configuration's bootstrap field is read and set.

Shared pieces:

- `DaemonConfig` (`daemon_config.dfy`) holds the configuration records, the
  outside services and the error values.
- `GoInt` (`goint.dfy`) holds Go's `int32` conversion and its truncating
  division.
- `Wrappers` (`wrappers.dfy`) holds `Option` and `Result`.

**Outside the model.** Services outside the daemon are given to the model as
functions in an `Env` or `Authority` value:

- the trust authority's license and key-map requests;
- deriving a public key and checking a signature;
- the two configuration checks;
- writing the configuration to disk, and reading it again for the routing
  type;
- the clock.

The start-up and license methods return the configuration they end with and
a trace of the calls that leave the process (`Save`, `LicenseRequest`,
`KeyMapRequest`). Their contracts can therefore say when a request or a
write happens.

For `cat`, the path lookup is a function from path to directory, file size
or error. The access checks between the token check and the offset check are
one outcome parameter. For the reporter, the random source, the storage-usage
read, the signer and the response decoder are parameters.

## Model

| member | source | states |
|---|---|---|
| `Daemon.ApplyOverrides` | cmd/ipfs/daemon.go:323-339 | Each field is replaced only when its option is given: txid and secret when non-empty, voutid when not -1 (stored as `int32`), account when non-empty. A save is asked for iff some option is given. License fields, authority settings, routing type and peer id are untouched. |
| `Daemon.NoOptionsNoChange` | cmd/ipfs/daemon.go:323-339 | With no option given, the configuration is unchanged. |
| `Daemon.OverridesAreIdempotent` | cmd/ipfs/daemon.go:323-339 | Applying the same options twice equals applying them once, including the wrapped voutid. |
| `Daemon.StoredVoutidWraps` | cmd/ipfs/daemon.go:328-331 | A voutid option beyond 32 bits is stored wrapped (2^32 + 1 is stored as 1). |
| `Daemon.CheckOnline` | cmd/ipfs/daemon.go:348-362 | Online start-up passes iff the verification fields check, the authority settings check and the account is non-empty. The first failing check, in that order, gives the error. |
| `Daemon.Startup` | cmd/ipfs/daemon.go:323-450 | The outcome is that of the stages in order: the options are written exactly when one is given, then (online only) the prerequisite checks and the license check, then routing (whose `default` re-reads the configuration, which can fail), then the mount guard. The error is that of the first failing stage. The trace is the options write followed by the license check's calls when it is reached. The configuration is the overridden one, or the license check's outcome from it. Nothing goes to the authority before the online prerequisites hold; on success the node runs with the resolved routing and a license that checks out. |
| `Daemon.StartupSucceeds` | cmd/ipfs/daemon.go:323-450 | Start-up succeeds iff the options write (if any) succeeds, online the prerequisites hold and the license check succeeds, the routing resolves and no mount is asked for offline. |
| `Daemon.SelectRouting` | cmd/ipfs/daemon.go:397-408 | `dhtclient`, `dht` and `none` succeed, each with the mode whose keyword it is. `supernode` is the removed-routing error. Every other value is the unrecognized-option error. |
| `Daemon.ResolveRouting` | cmd/ipfs/daemon.go:385-408 | An explicit option goes straight to the routing switch. `default` re-reads the configuration: a failed read is its error, and only `default` can give it. Otherwise `default` stands for the configured type, or `dht` when none is configured. |
| `Daemon.RoutingKeywords` | cmd/ipfs/daemon.go:385-408 | Every mode is reached by its own keyword, whatever is configured and whatever the configuration read gives. An explicit option other than `default` reaches a mode only through that mode's keyword. `default` reaches a mode only when the configuration read succeeds, and then the mode of the configured type, or `dht` when none is configured. |
| `Daemon.DefaultIsNotAMode` | cmd/ipfs/daemon.go:385-408 | A configured type `default` is unrecognized, and `supernode` is refused whether it is configured or given. |
| `Daemon.MountGuard` | cmd/ipfs/daemon.go:447-450 | Mounting is refused iff the node is offline, with the mount-offline error. |
| `Daemon.PromptFromBounds` | cmd/ipfs/daemon.go:770-787 | From try k the prompt uses at least one more try and never more than three in all. Once three tries are used up, the answer is no. |
| `Daemon.PromptFromMeaning` | cmd/ipfs/daemon.go:770-787 | The prompt stops at the first try whose held word (the last word read) decides, and answers with that word. Every earlier try held an undeciding word. When no try decides, the answer is no after three tries. |
| `Daemon.YesNoPrompt` | cmd/ipfs/daemon.go:770-787 | The loop gives the answer and try count of the prompt's specification. It uses one to three tries. Each earlier try held a word that decides nothing. The word held at the last try gives the answer: `y`/`Y` is yes, `n`/`N`/empty is no. If that word decides nothing, three tries were used and the answer is no. |
| `Daemon.FirstWordDecides` | cmd/ipfs/daemon.go:774-783 | A deciding first word answers at the first try, whatever input follows. |
| `Daemon.NoInputIsNo` | cmd/ipfs/daemon.go:771-782 | When every scan fails, the word stays empty and the answer is no at the first try. |
| `Daemon.StaleWordRepeats` | cmd/ipfs/daemon.go:771-786 | A failed scan keeps the previous word. An undecided word followed by failed scans is read again on every try, and the answer is no after three. |
| `License.Renewed` | cmd/ipfs/daemon.go:1042-1044 | Renewal copies license, period and version from the bundle and keeps every other field. |
| `License.SaveOutcome` | cmd/ipfs/daemon.go:1046-1049 | A write reports an error iff writing the configuration fails. |
| `License.RenewedIsCurrent` | cmd/ipfs/daemon.go:1035 | A renewed license that is current, present and of non-zero version needs no further renewal. |
| `License.RenewLicense` | cmd/ipfs/daemon.go:1035-1050 | A license request is made iff the clock is past the period, the license is empty or the version is 0. On success the fields are copied and one write follows, whose error is reported. On failure the configuration is unchanged and the request error is reported. Otherwise there is no request and no write. The whole outcome is stated as one function of configuration and services. |
| `License.FirstKeyFinds` | cmd/ipfs/daemon.go:1059-1065 | The cache lookup gives the key of the first entry with the version, or empty when no entry has it. |
| `License.CachedKey` | cmd/ipfs/daemon.go:1059-1065 | The loop with early exit finds the first matching cached key. |
| `License.ListKeyMap` | cmd/ipfs/daemon.go:1077-1087 | The loop over the fetched map, in any iteration order, lists each of the map's entries exactly once. It picks the map's key for the version, or empty. |
| `License.ListedKeysAreFound` | cmd/ipfs/daemon.go:1059-1089 | After the cache is replaced by the listing, a cache lookup of any version gives the fetched map's key for it. |
| `License.ResolveServerKey` | cmd/ipfs/daemon.go:1058-1095 | A cached key means no fetch, no write and no error. Otherwise the map is fetched. A failed fetch, or a map smaller than the cache, is its error and leaves the configuration unchanged. Otherwise the cache is replaced by a listing of the map's entries, written, and the write's error reported. The key returned is the specified server key, and only the key cache can change. |
| `License.CheckLicense` | cmd/ipfs/daemon.go:1097-1110 | Accepted iff the signature check over `(txid, int32 voutid, public key, period, version)` answers true. A false answer is "verify failed"; a failing check is wrapped with its cause. |
| `License.DoVerify` | cmd/ipfs/daemon.go:1032-1111 | The error is that of the first failing step: renewal, node key derivation, authority-key resolution, else the signature check against the resolved key. The trace is the renewal's calls followed by the key resolution's calls when it is reached. The configuration is the renewal's outcome, then the key resolution's. A license is requested iff renewal is needed; with a usable license and a cached key nothing is requested or written. Only license fields and the key cache change, and the cache never gets shorter. |
| `License.DoVerifyAccepts` | cmd/ipfs/daemon.go:1032-1111 | The license check succeeds iff renewal, key derivation and key resolution succeed and the license checks out against the resolved key; success means the stored license verifies. |
| `License.CountCheckCanDropVersion` | cmd/ipfs/daemon.go:1073-1087 | The size-only check accepts a map as large as the cache that lacks a cached version. That version's key is then gone from the cache. |
| `Report.ReportInterval` | cmd/ipfs/daemon.go:884-895 | There is no interval iff max <= min in whole seconds. Otherwise the wait is a whole number of seconds in `[min, max)`. |
| `Report.IntervalWithinConfigured` | cmd/ipfs/daemon.go:884-895 | For non-negative bounds each wait is below the configured maximum and less than a second below the configured minimum. |
| `Report.SameSecondRefuses` | cmd/ipfs/daemon.go:884-890 | Bounds of 60.2 s and 60.9 s truncate to the same second, so the reporter does not run. |
| `Report.EverySecondIsPossible` | cmd/ipfs/daemon.go:893-895 | Every whole second in `[min, max)` is a wait some draw of the random source gives. |
| `Report.StorageMiB` | cmd/ipfs/daemon.go:970-978 | Storage is a 32-bit value and, below 2^31 MiB, the whole number of MiB in the usage (truncated). |
| `Report.StorageExamples` | cmd/ipfs/daemon.go:970-978 | 3 MiB reads as 3 and one byte less as 2; 2^31 MiB wraps to -2^31. |
| `Report.Unsigned` | cmd/ipfs/daemon.go:972-988 | The unsigned report has one list entry per ledger diff, with this node as source and the diff's peer, and its totals are zero. |
| `Report.BuildReportData` | cmd/ipfs/daemon.go:963-1006 | A failed usage read is an error. The report is the unsigned report with the signature over it added, or the signing error. Its list is one 32-bit entry per diff, in order; its storage is in MiB; account and id come from the configuration. |
| `Report.HandleReportResponse` | cmd/ipfs/daemon.go:1008-1029 | Accepted iff the status is 200, the body reads and parses, and its error code is "OK". Otherwise the error is: bad status, read failure, unparsable body or rejection, in that order. |
| `Report.SuccessFlagIgnored` | cmd/ipfs/daemon.go:1019-1028 | Only the error code decides. A false success flag with "OK" is accepted, and the flag never changes the outcome. |
| `Cat.Entries` | core/commands/cat.go:179-198 | The paths are resolved one per path, in order. |
| `Cat.Cat` | core/commands/cat.go:173-230 | The loop gives the specified window. A zero maximum gives no readers and length 0 without looking at a path. With a positive maximum the length never exceeds it. |
| `Cat.WindowLength` | core/commands/cat.go:200-227 | On files with a non-negative offset the window succeeds, and its length is the bytes after the offset cut to the maximum. |
| `Cat.WindowCovers` | core/commands/cat.go:200-227 | The readers yield exactly the bytes from the offset for the window's length, in order. Each starts where the previous stopped and stays inside its file. Files strictly shorter than the remaining offset are skipped, and later files are read from their start. |
| `Cat.WindowFailure` | core/commands/cat.go:179-208 | An is-a-directory error comes only from a directory and an unresolved-path error only from that path; conversely the entry looked at first decides when it is a directory or unresolved. A negative seek can come only from a negative offset. There are no other failures. |
| `Cat.FirstBadEntryFails` | core/commands/cat.go:179-208 | Without a maximum and from a non-negative offset, the first entry that is not a file gives the failure: a directory the is-a-directory error, an unresolved path its own error. |
| `Cat.StopsAtBudget` | core/commands/cat.go:218-226 | Once the length reaches the maximum the loop stops. Entries after that point, directories included, do not change the result. |
| `Cat.EqualSizeIsKept` | core/commands/cat.go:200-209 | A file exactly as long as the remaining offset is kept with a reader at its end, contributing 0 bytes. The next file is read from its start with the budget unchanged. |
| `Cat.EqualSizeExamples` | core/commands/cat.go:200-209 | Two instances: a 5-byte file at offset 5 is kept with an empty reader, and a 4-byte file is skipped. |
| `Cat.ParseCatRequest` | core/commands/cat.go:42-118 | The request is valid iff there is exactly one path, a token, passing access checks, a non-negative offset and length, and the request body's arguments read without error. More than one path and a missing token are the first errors. An absent length means -1 (no limit). |
| `Cat.Run` | core/commands/cat.go:41-120 | The result is the validation error, or the window of the validated request over the looked-up paths. A validated command never seeks before a file's start. With a length, the output is at most that length. Without one, on files, the output is every byte after the offset. |
| `Bootstrap.ParseAll` | vendor/gx/ipfs/QmPEpj17FDRpc7K1aArKZp3RsHtzRMKykeK9GVgn4WQGPR/go-ipfs-config/bootstrap_peers.go:79-89 | Success iff every address parses, with the same length and element i the parse of address i. A failure is the error of the first address that fails. |
| `Bootstrap.RenderAll` | vendor/gx/ipfs/QmPEpj17FDRpc7K1aArKZp3RsHtzRMKykeK9GVgn4WQGPR/go-ipfs-config/bootstrap_peers.go:91-97 | One string per peer, in order, each the peer's printed form. |
| `Bootstrap.ParseBootstrapPeers` | vendor/gx/ipfs/QmPEpj17FDRpc7K1aArKZp3RsHtzRMKykeK9GVgn4WQGPR/go-ipfs-config/bootstrap_peers.go:79-89 | The index-filling loop gives the all-or-nothing parse: same length on success, and on failure the error of an address that fails. |
| `Bootstrap.BootstrapPeerStrings` | vendor/gx/ipfs/QmPEpj17FDRpc7K1aArKZp3RsHtzRMKykeK9GVgn4WQGPR/go-ipfs-config/bootstrap_peers.go:91-97 | The index-filling loop keeps length and order, and element i is peer i printed. |
| `Bootstrap.DefaultBootstrapPeers` | vendor/gx/ipfs/QmPEpj17FDRpc7K1aArKZp3RsHtzRMKykeK9GVgn4WQGPR/go-ipfs-config/bootstrap_peers.go:58-65 | The four hard-coded addresses parsed, or an error naming a hard-coded address's failure. |
| `Bootstrap.RenderThenParse` | vendor/gx/ipfs/QmPEpj17FDRpc7K1aArKZp3RsHtzRMKykeK9GVgn4WQGPR/go-ipfs-config/bootstrap_peers.go:79-97 | If the address library reads back what it prints, printing a peer list and parsing it gives the list back. |
| `Bootstrap.Config.BootstrapPeers` | vendor/gx/ipfs/QmPEpj17FDRpc7K1aArKZp3RsHtzRMKykeK9GVgn4WQGPR/go-ipfs-config/bootstrap_peers.go:51-53 | The configured addresses, parsed all or nothing. |
| `Bootstrap.Config.SetBootstrapPeers` | vendor/gx/ipfs/QmPEpj17FDRpc7K1aArKZp3RsHtzRMKykeK9GVgn4WQGPR/go-ipfs-config/bootstrap_peers.go:67-69 | Only the bootstrap field changes, to the printed peers. |
| `Bootstrap.SetThenGet` | vendor/gx/ipfs/QmPEpj17FDRpc7K1aArKZp3RsHtzRMKykeK9GVgn4WQGPR/go-ipfs-config/bootstrap_peers.go:51-69 | Setting the peers and reading them back gives the same peers when the library reads back what it prints. |
| `GoInt.Int32` | cmd/ipfs/daemon.go:328-329 | Go's `int32` conversion: the value congruent modulo 2^32 in `[-2^31, 2^31)`, unchanged when already in range. |
| `GoInt.TruncDiv` | cmd/ipfs/daemon.go:884-885 | Division rounding toward zero, as `int(d.Seconds())` does. |

## Left out

- The concurrent parts of the daemon are not modelled: the fan-in of error
  channels (`merge`), the API and gateway listener goroutines and the garbage
  collector.
- Of the reporter, only the interval rule is modelled. Its timer and select
  loop, the HTTP POST of the report and the wait for a license are not.
  That wait loop re-reads nothing, so it never ends once entered.
- The trust authority and signature services are outside the model. These
  are the license and key-map requests, public-key derivation, hashing,
  signing and signature checks. The same holds for the configuration
  checks, the configuration write and the storage-usage read. All of them
  are uninterpreted functions.
- JSON encoding and decoding are outside the model. Encoding a report is
  taken never to fail, and the collector's body decoder is a parameter.
- Metrics, FUSE mounting itself, repository migrations, file-descriptor
  limits, node construction and all printing are left out.
- Of `cat`, the readers, the seeking I/O, the two-minute timeout and the
  progress output are left out. So are the token service, the on-chain
  account check and the offline-routing set-up, which come together as one
  access-check outcome. Seeking is taken to return the requested position.
- The HTTP client of `core/commands/sms/delete.go` is not part of this model.
- The multiaddress parser and printer behind the bootstrap conversion are not
  part of this model; they are the `AddrCodec` parameter.
- `License.DoVerify`, `License.ResolveServerKey` and `Daemon.Startup` update
  the configuration they are given in place in the source. The model returns
  the new configuration as a value instead, so aliasing of that record is
  not captured.
- `License.ListKeyMap` models Go's map iteration order as an arbitrary
  choice of the next key. The contract says which entries the list holds,
  not in what order.
- `Report.ReportInterval` models the bounds' conversion through floating
  point (`Seconds()` then `int`) as exact truncation toward zero. Rounding
  of durations beyond 2^53 ns is not captured.
- `Report.BuildReportData` takes the report time as a parameter rather than
  reading the clock.
- `Cat.Cat` uses unbounded integers for the offset and length. The 64-bit
  signed offset and unsigned length of the source cannot overflow for real
  file sizes, and their wrap-around is not modelled.
- `Cat.ParseCatRequest` takes reading the request body's arguments only as
  its error outcome. Arguments that reading may add to the path list are not
  modelled; the command library that reads them is not part of this model.
- `Cat.ParseCatRequest` handles a command with no path argument, which the
  source indexes without checking and would crash on. The model makes it an
  error, `MissingPath`, raised after the token check.

## Notes on the source

- A fetched key map replaces the key cache; it is not merged into it. The
  code checks only that the fetched map is not smaller than the cache, so a
  cached version can be lost: `License.CountCheckCanDropVersion` shows one.
- The reporter compares its bounds in whole seconds, not as durations:
  `Report.SameSecondRefuses` shows two different bounds that refuse.
