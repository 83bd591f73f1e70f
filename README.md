# hipdate core in Dafny

hipdate watches container sources (the Docker daemon, a CSV file) and turns
what it sees into "add"/"remove" change events for a reverse-proxy backend.
This project models its sequential core and proves properties of it:

- the vendored vulcand domain model (`backend.go`): validating constructors
  for hosts, addresses, listeners, locations, upstreams and endpoints, the
  field-wise equality checks, and the endpoint-key printer and parser
  (`VulcandBackend.dfy`);
- the vendored TTL map (`ttlmap.go`), a bounded cache with per-entry expiry
  that evicts the entry of smallest expiry time when full. It is a class whose
  `elements` map and `expiryTimes` heap (abstracted to one priority per key)
  are updated in place, with its eviction loops (`TtlMap.dfy`);
- the daemon configuration and its merge (`hipdated/config.go`,
  `HipdatedConfig.dfy`);
- the endpoint value, its text form, hash and URL parsing
  (`shared/struct.go`, `Shared.dfy`);
- the container environment readers (`sources/docker/util.go`,
  `DockerUtil.dfy`);
- the two Docker sources. `sources/docker/main.go` (`DockerMain.dfy`)
  keeps a container map. `sources/docker.go` (`SourcesDocker.dfy`) keeps a
  container-to-IP map and parses the raw environment list itself;
- the file source's record-to-event expansion and reload step
  (`sources/file/main.go`, `FileSource.dfy`);
- the root package's change event, host key and host list (`structs.go`,
  `main.go`, `HipdateStructs.dfy`, `HipdateMain.dfy`).

`Wrappers.dfy` (Option, Result) and `Strings.dfy` (split, join, cut at the
first separator, ASCII lower-casing, decimal printing and parsing) hold the
library behaviour the core relies on.

The event channels are `events` sequences that the sources append to. Each
stateful source is a class whose methods are proved equal to a pure step
function on a `State` value. The lemmas about those step functions carry the
properties. Calls into code that is not part of this model are inputs:
- the Go regexp compiler, vulcan's predicate parser, `time.ParseDuration` and
  `netutils.ParseUrl` are fields of a `Parsers` record;
- the result of `url.Parse` is a `Result<Url>`;
- the crc32 checksum is a function parameter;
- Docker inspection and fetch results are a `Result<Container>`;
- the CSV read is a `Result<Records>`.

Decisions where the source files disagree with each other:
- The event payloads (`IPAddress` in `structs.go`, `Endpoint` in
  `shared/struct.go`) are opaque strings. All three sources emit
  `HipdateStructs.ChangeEvent(kind, host, ip)`.
- `sources/docker/util.go` and `sources/docker/main.go` both declare
  `parseHostnameVar` and `getHostnames` in one package. The two
  `parseHostnameVar` are identical and are modelled once, as
  `DockerUtil.ParseHostnameVar`. `DockerMain.GetHostnames` reads a container
  and delegates to `DockerUtil.GetHostnames`.
- `parseContainer` hands an endpoint to `NewContainerData`, which stores an
  IP. The model keeps the endpoint in its own result type,
  `DockerUtil.ParsedContainer`. `DockerUtil.ParseContainer` follows the code
  as written, on the wrapping `getPort`; the corrected reading is kept
  beside it (see Findings).
- `main.go`'s `Host.Key` is the same function as `structs.go`'s. It is
  modelled once, as `HipdateStructs.HostKey`.
- `sources/docker.go`'s `handleEvent` adds a host when a container dies,
  stops or is killed, and removes it when the container starts or restarts.
  This is the reverse of `sources/docker/main.go`, and it is modelled as
  written.
- The keep-alive period error of `parseUpstreamOptions` reuses the words
  "tls handshake timeout". It is modelled as written, as
  `VulcandBackend.PeriodErrorLabel`.

## Model

| member | source | states |
|---|---|---|
| VulcandBackend.ConstantTimeCompare | Godeps/_workspace/src/github.com/mailgun/vulcand/backend/backend.go:94-99 | 1 exactly when the two byte strings are equal, 0 otherwise, also for different lengths |
| VulcandBackend.KeyPairEquals | Godeps/_workspace/src/github.com/mailgun/vulcand/backend/backend.go:94-99 | true exactly when the certificates and the keys are byte-for-byte equal |
| VulcandBackend.AddressEquals | Godeps/_workspace/src/github.com/mailgun/vulcand/backend/backend.go:119-121 | true exactly when network and address agree |
| VulcandBackend.NewHost | Godeps/_workspace/src/github.com/mailgun/vulcand/backend/backend.go:137-153 | fails exactly on an empty name; otherwise keeps the name, has no locations, listeners or key pair, and its id is the name |
| VulcandBackend.HostGetId | Godeps/_workspace/src/github.com/mailgun/vulcand/backend/backend.go:151-153 | a host's id is its name (a plain accessor; NewHost states that the id of a new host is the name it was given) |
| VulcandBackend.NewAddress | Godeps/_workspace/src/github.com/mailgun/vulcand/backend/backend.go:187-198 | succeeds exactly when the address is non-empty and the lower-cased network is tcp or unix; the result stores the address and that lower-case network |
| VulcandBackend.NewListener | Godeps/_workspace/src/github.com/mailgun/vulcand/backend/backend.go:200-216 | succeeds exactly when the lower-cased protocol is http or https and NewAddress succeeds; fails whenever NewAddress fails; stores id, lower-cased protocol and the address |
| VulcandBackend.NewLocation | Godeps/_workspace/src/github.com/mailgun/vulcand/backend/backend.go:218-220 | with the default options, succeeds exactly when hostname, path and upstream id are non-empty and the path compiles |
| VulcandBackend.NewLocationWithOptions | Godeps/_workspace/src/github.com/mailgun/vulcand/backend/backend.go:222-244 | succeeds exactly when path, hostname and upstream id are non-empty, the path compiles, and a non-empty failover predicate parses; the result holds an upstream with that id and no endpoints, no middlewares and the options unchanged |
| VulcandBackend.ParseLocationOptions | Godeps/_workspace/src/github.com/mailgun/vulcand/backend/backend.go:246-264 | fails exactly when the failover predicate is non-empty and does not parse; keeps limits, hostname and trust flag; sets a predicate exactly when one was given |
| VulcandBackend.UpstreamOptionsEquals | Godeps/_workspace/src/github.com/mailgun/vulcand/backend/backend.go:305-311 | true exactly when all five option fields are equal |
| VulcandBackend.NewUpstreamWithOptions | Godeps/_workspace/src/github.com/mailgun/vulcand/backend/backend.go:330-339 | succeeds exactly when the options parse; the upstream has the id, no endpoints and the options |
| VulcandBackend.NewUpstream | Godeps/_workspace/src/github.com/mailgun/vulcand/backend/backend.go:342-344 | never fails: the default options set no duration |
| VulcandBackend.ParseOptionalDuration | Godeps/_workspace/src/github.com/mailgun/vulcand/backend/backend.go:364-386 | an unset duration is 0; a set one fails exactly when it does not parse, and otherwise is its parsed value |
| VulcandBackend.ParseUpstreamOptions | Godeps/_workspace/src/github.com/mailgun/vulcand/backend/backend.go:362-390 | succeeds exactly when each of read, dial, TLS-handshake and period is empty or parses; each of the four durations is 0 when unset and its parsed value otherwise; idle connections are copied verbatim |
| VulcandBackend.NewEndpoint | Godeps/_workspace/src/github.com/mailgun/vulcand/backend/backend.go:400-412 | succeeds exactly when the upstream id is non-empty and the URL is valid; stores upstream id, id and URL verbatim |
| VulcandBackend.NotFoundErrorText | Godeps/_workspace/src/github.com/mailgun/vulcand/backend/backend.go:540-546 | the message itself when there is one, "Object not found" when it is empty |
| VulcandBackend.LocationKeyString | Godeps/_workspace/src/github.com/mailgun/vulcand/backend/backend.go:591-593 | the hostname, a '.', then the id |
| VulcandBackend.EndpointKeyString | Godeps/_workspace/src/github.com/mailgun/vulcand/backend/backend.go:600-602 | the upstream id, a '.', then the id: its length, the '.' at the upstream id's length, and both parts in place |
| VulcandBackend.ParseEndpointKey | Godeps/_workspace/src/github.com/mailgun/vulcand/backend/backend.go:604-610 | fails exactly when there is no '.'; the parsed upstream id holds no '.' and printing the key gives the input back |
| VulcandBackend.EndpointKeyRoundTrip | Godeps/_workspace/src/github.com/mailgun/vulcand/backend/backend.go:600-610 | parsing a printed key gives it back exactly when its upstream id holds no '.' |
| TtlMap.MinKeyExists | Godeps/_workspace/src/github.com/mailgun/ttlmap/ttlmap.go:150-178 | a non-empty heap always has a key of smallest expiry to pop |
| TtlMap.WrapInt64 | Godeps/_workspace/src/github.com/mailgun/ttlmap/ttlmap.go:76 | Go's int64 product: a value within 64 signed bits, equal to the exact one modulo 2^64, and the exact one whenever it fits |
| TtlMap.ExpiryTime | Godeps/_workspace/src/github.com/mailgun/ttlmap/ttlmap.go:72-77 | toEpochSeconds for a positive TTL: the expiry lies within the range of a `time.Duration` around now; TtlMap.ExpiryTimeInRange and TtlMap.ExpiryTimeWraps state what it is for a TTL that fits and one that does not |
| TtlMap.ExpiryTimeInRange | Godeps/_workspace/src/github.com/mailgun/ttlmap/ttlmap.go:72-77 | a TTL from 1 to 9223372036 seconds expires exactly that many seconds after now |
| TtlMap.ExpiryTimeWraps | Godeps/_workspace/src/github.com/mailgun/ttlmap/ttlmap.go:76 | a TTL of 9223372037 seconds overflows `time.Duration` and gives an expiry 9223372037 seconds before now, so the entry is stored already expired |
| TtlMap.TtlMap.NewMapWithProvider | Godeps/_workspace/src/github.com/mailgun/ttlmap/ttlmap.go:27-41 | fails exactly when the capacity is not positive or there is no clock; otherwise an empty, consistent map with that capacity and clock |
| TtlMap.TtlMap.Init | Godeps/_workspace/src/github.com/mailgun/ttlmap/ttlmap.go:35-40 | an empty map and heap with the given capacity and clock |
| TtlMap.TtlMap.Len | Godeps/_workspace/src/github.com/mailgun/ttlmap/ttlmap.go:79-81 | the number of entries, never above the capacity |
| TtlMap.TtlMap.ExpireElement | Godeps/_workspace/src/github.com/mailgun/ttlmap/ttlmap.go:132-140 | removes the key from map and heap exactly when its expiry is not after now; otherwise changes nothing |
| TtlMap.TtlMap.FreeSpace | Godeps/_workspace/src/github.com/mailgun/ttlmap/ttlmap.go:142-148 | removes `count` entries (or all), only entries of smallest expiry, from map and heap alike, and changes no other entry |
| TtlMap.TtlMap.RemoveExpired | Godeps/_workspace/src/github.com/mailgun/ttlmap/ttlmap.go:150-167 | removes only expired entries, smallest expiry first, at most `iterations`; returns how many; stopping early means none left has expired |
| TtlMap.TtlMap.RemoveLastUsed | Godeps/_workspace/src/github.com/mailgun/ttlmap/ttlmap.go:169-178 | removes `iterations` entries of smallest expiry, or all, and changes no other entry |
| TtlMap.TtlMap.Set | Godeps/_workspace/src/github.com/mailgun/ttlmap/ttlmap.go:43-77 | rejects a non-positive TTL without change; otherwise stores the value to expire at toEpochSeconds' time (now + TTL up to 9223372036 seconds, wrapped beyond), leaves every other kept entry unchanged, never exceeds capacity, and evicts one entry of smallest expiry only when a new key meets a full map |
| TtlMap.TtlMap.SetNew | Godeps/_workspace/src/github.com/mailgun/ttlmap/ttlmap.go:50-64 | a new key in a full map first evicts one entry of smallest expiry, so the size stays; otherwise the key is added; no other kept entry changes |
| TtlMap.TtlMap.Get | Godeps/_workspace/src/github.com/mailgun/ttlmap/ttlmap.go:83-92 | yields the value exactly when the key is present and not expired; an expired entry is removed, anything else is unchanged |
| TtlMap.TtlMap.Increment | Godeps/_workspace/src/github.com/mailgun/ttlmap/ttlmap.go:94-118 | errors exactly on a non-positive TTL or a live non-integer value, changing nothing; a live integer becomes the sum with a refreshed expiry; an absent or expired key starts at `value`, as Set stores it: every other kept entry is unchanged, no entry is dropped unless a new key meets a full map, and then exactly one entry of smallest expiry is evicted |
| TtlMap.TtlMap.GetInt | Godeps/_workspace/src/github.com/mailgun/ttlmap/ttlmap.go:120-130 | (value, found) exactly for a live integer; (0, not found, no error) for an absent or expired key; an error exactly for a live non-integer; an expired key is removed from map and heap, anything else is unchanged |
| HipdatedConfig.NewSource | hipdated/config.go:16-22 | keeps the name; a nil option map becomes the empty one |
| HipdatedConfig.NewBackend | hipdated/config.go:29-35 | keeps the name; a nil option map becomes the empty one |
| HipdatedConfig.Config.NewConfig | hipdated/config.go:43-48 | no backend, no sources, no options |
| HipdatedConfig.Config.Merge | hipdated/config.go:50-60 | the other backend wins only when set; the other sources follow ours in order; every option of the other config takes its value, options only in ours keep theirs, and no other key appears |
| HipdatedConfig.Config.CopyOptions | hipdated/config.go:57-59 | the result has the keys of both maps, the second map's values on its keys and the first map's values elsewhere |
| Shared.NewChangeEvent | shared/struct.go:38-44 | stores type, host and endpoint verbatim |
| Shared.EndpointString | shared/struct.go:52-54 | the scheme, "://", then address ":" port, the port's decimal text reading back as the port |
| Shared.Hash | shared/struct.go:56-58 | the decimal text of the checksum of the endpoint's text |
| Shared.HashFollowsString | shared/struct.go:56-58 | endpoints with the same text have the same hash |
| Shared.NewEndpoint | shared/struct.go:60-66 | stores scheme, address and port verbatim |
| Shared.ParseUint32 | shared/struct.go:79 | succeeds exactly on decimal digits with value at most 2^32 - 1, yielding that value |
| Shared.NewEndpointFromUrl | shared/struct.go:68-85 | passes on a URL error; "Missing port in URL" when the host has no ':'; otherwise the address is the text before the first ':' and it succeeds exactly when the rest is a 32-bit decimal port |
| Shared.EndpointFromOwnHost | shared/struct.go:52-85 | an endpoint is read back from its own host:port text exactly when its address holds no ':' |
| HipdateStructs.NewChangeEvent | structs.go:9-15 | stores type, host and IP verbatim |
| HipdateStructs.HostKey | structs.go:22-24 | "frontend:" followed by the host, length of the host plus 9 |
| HipdateStructs.HostKeyInjective | structs.go:22-24 | distinct hosts have distinct keys |
| HipdateMain.AddedToAbsent | main.go:41-43 | a host added for the first time has the one-element list |
| HipdateMain.AddedAppends | main.go:41-43 | Add appends at the end of the host's list, grows it by exactly one (no deduplication) and touches no other host |
| HipdateMain.HostList.Add | main.go:41-43 | the host list after Add is the old one with `u` appended to `h`'s list |
| HipdateMain.Application.NewApplication | main.go:20-29 | keeps backend and client and starts with an empty IP map |
| DockerUtil.ParseHostnameVar | sources/docker/util.go:14-16 | one more piece than there are '|', no piece holds '|', and joining with '|' gives the input |
| DockerUtil.ParseHostnameVarUnique | sources/docker/util.go:14-16 | those properties determine the pieces uniquely |
| DockerUtil.GetHostnames | sources/docker/util.go:18-28 | empty without WEB_HOSTNAME; otherwise a non-empty list of '|'-free pieces that join back to its value |
| DockerUtil.GetHostnamesExamples | sources/docker/util_test.go:27-40 | "foo\|bar" gives [foo, bar] and "foo" gives [foo] |
| DockerUtil.EnvGetInt | sources/docker/util.go:35 | a signed 64-bit value; the parsed number when it fits, -1 otherwise |
| DockerUtil.GetPortAsWritten | sources/docker/util.go:30-41 | 80 without WEB_PORT; "Invalid port" exactly when the number is below 1; otherwise agrees with the number modulo 2^32 |
| DockerUtil.GetPortAsWrittenWraps | sources/docker/util.go:36-40 | WEB_PORT=4294967296 is accepted as port 0 |
| DockerUtil.GetPort | sources/docker/util.go:30-41 | 80 without WEB_PORT; otherwise succeeds exactly for a number from 1 to 2^32 - 1, which is the port; "Invalid port" otherwise |
| DockerUtil.GetPortAsWrittenExamples | sources/docker/util_test.go:8-25 | getPort as written on the tests' inputs: "8888" is port 8888, "foobar" is an invalid port, no WEB_PORT is port 80 |
| DockerUtil.GetPortReadsBack | sources/docker/util_test.go:8-19 | the corrected reading generalises the tests: every port from 1 to 2^32 - 1 is read back from its text and "foobar" is rejected; DockerUtil.GetPortAgrees carries this over to getPort as written |
| DockerUtil.GetPortAgrees | sources/docker/util.go:30-41 | the corrected and the written readings agree whenever the value fits in 32 bits |
| DockerUtil.ParseContainer | sources/docker/util.go:43-60 | an "http" endpoint at the container's IP, on the port getPort gives (agreeing with WEB_PORT modulo 2^32) or on 80 when getPort fails; the host names of its environment |
| DockerUtil.ParseContainerPortZero | sources/docker/util.go:43-60 | a container with WEB_PORT=4294967296 is served on port 0 |
| DockerUtil.ParseContainerIntended | sources/docker/util.go:43-60 | parseContainer over the corrected getPort: the port is WEB_PORT when it is from 1 to 2^32 - 1 and 80 otherwise, never 0 |
| DockerUtil.ParseContainerAgrees | sources/docker/util.go:43-60 | the written and the corrected parseContainer agree whenever WEB_PORT fits in 32 bits |
| DockerMain.NewContainerData | sources/docker/main.go:30-35 | stores IP and host names verbatim |
| DockerMain.GetHostnames | sources/docker/main.go:153-168 | empty without WEB_HOSTNAME, otherwise the '\|'-split of its value |
| DockerMain.RemoveUnknown | sources/docker/main.go:126-130 | removing an unknown id changes nothing and sends nothing |
| DockerMain.RemoveKnown | sources/docker/main.go:126-137 | removing a known id forgets it, keeps every other entry, and sends one "remove" per stored host, in order, with the stored IP |
| DockerMain.AddOverwrites | sources/docker/main.go:108-124 | adding overwrites the id's entry with (IP, hosts), keeps every other entry, and sends one "add" per host in order |
| DockerMain.AddThenRemove | sources/docker/main.go:108-137 | add then remove leaves the id absent and the rest as before; the "remove" events mirror the "add" events host by host with the same IP |
| DockerMain.EventDispatch | sources/docker/main.go:49-59 | die/stop/kill remove, start/restart add, any other status changes nothing |
| DockerMain.DockerSource.constructor | sources/docker/main.go:83-89 | no container known and nothing sent |
| DockerMain.DockerSource.HandleAdd | sources/docker/main.go:108-124 | the new state is the add step; a failed inspection is returned and changes nothing |
| DockerMain.DockerSource.HandleRemove | sources/docker/main.go:126-137 | the new state is the remove step |
| DockerMain.DockerSource.HandleEvent | sources/docker/main.go:49-59 | the new state is the dispatched step, and the error is always nil |
| SourcesDocker.ParseHostnameVar | sources/docker.go:121-127 | the value alone without '\|', its split otherwise |
| SourcesDocker.ParseHostnameVarIsSplit | sources/docker.go:121-127 | both branches are a plain split on '\|' |
| SourcesDocker.ParseEnv | sources/docker.go:130-143 | the loop builds the map of the entries read first to last |
| SourcesDocker.EnvMapAppend | sources/docker.go:133-140 | entries read later override earlier ones name by name |
| SourcesDocker.EnvMapEntry | sources/docker.go:134-138 | "name=value" sets exactly that name to that value, even when the value holds '=' |
| SourcesDocker.EnvMapSkips | sources/docker.go:135-136 | an entry without '=' changes nothing wherever it stands |
| SourcesDocker.EnvMapLaterWins | sources/docker.go:138 | a later entry of the same name overwrites an earlier one |
| SourcesDocker.GetHostnames | sources/docker.go:145-156 | empty without WEB_HOSTNAME, otherwise the '\|'-split of its value, which joins back to it |
| SourcesDocker.StartRemovesOnce | sources/docker.go:40-47 | a start or restart drops the container's IP and sends at most one "remove", for the first host |
| SourcesDocker.StopAddsEach | sources/docker.go:40-47 | a die, stop or kill records the IP and sends one "add" per host, in order |
| SourcesDocker.OtherStatusUnchanged | sources/docker.go:40-47 | any other status changes nothing |
| SourcesDocker.DockerSource.constructor | sources/docker.go:58-64 | no IP known and nothing sent |
| SourcesDocker.DockerSource.HandleAdd | sources/docker.go:79-85 | records the container's IP and sends one "add" |
| SourcesDocker.DockerSource.HandleRemove | sources/docker.go:87-97 | forgets a known IP and sends one "remove" with it; an unknown container changes nothing |
| SourcesDocker.DockerSource.HandleEvent | sources/docker.go:34-50 | a failed fetch is returned and changes nothing; otherwise the state after the per-host loop |
| FileSource.RecordEvents | sources/file/main.go:138-144 | one event per field after the first, in order, each with the record's host |
| FileSource.HostOnlyRecord | sources/file/main.go:140 | a record holding only its host sends nothing |
| FileSource.RecordsEventsAppend | sources/file/main.go:137-145 | the events of two runs of records are the first run's followed by the second's |
| FileSource.RecordsEventsAt | sources/file/main.go:137-145 | field j of record i is sent right after the events of the records before it |
| FileSource.RecordsEventsMirror | sources/file/main.go:69-70 | the same records give the same hosts and IPs, event by event, whatever the kind |
| FileSource.ReloadFailure | sources/file/main.go:64-71 | a failed reload still withdraws every old pair and leaves no records |
| FileSource.ReloadUnchanged | sources/file/main.go:63-72 | reloading an unchanged file withdraws and re-sends the same pairs in the same order |
| FileSource.FileSource.constructor | sources/file/main.go:42-47 | keeps the path, no records, nothing sent |
| FileSource.FileSource.ProcessRecords | sources/file/main.go:137-145 | sends exactly the events of the records, in order, and keeps the records |
| FileSource.FileSource.Initialise | sources/file/main.go:110-119 | a successful read is stored and sent as "add"; a failed one is returned and changes nothing |
| FileSource.FileSource.HandleFileEvent | sources/file/main.go:58-72 | another path or a non-plain modification changes nothing; otherwise the old pairs are removed, the new ones added, and the records replaced (empty after a failed read) |

## Left out

- The CRUD store, the change watch and the plugin registry of vulcand are not part of this model. Only their tests are available, not their code.
- Stats in `backend.go` (round-trip statistics, brackets, ratios): float arithmetic over a metrics library.
- NewKeyPair's certificate check (`tls.X509KeyPair`) is foreign.
- VulcandBackend.ConstantTimeCompare: the constant-time behaviour is not modelled, only the result.
- The `String` methods of hosts, listeners, locations, upstreams and endpoints in `backend.go` are left out. They are `fmt` debugging output.
- The minheap and timetools packages are not part of this model. The heap is its content (one expiry per key); a pop chooses any key of smallest expiry; the clock is an object with a mutable `now`.
- TtlMap.TtlMap.Increment: Go's `int` addition wraps at 64 bits; the model adds unbounded integers.
- TtlMap.TtlMap.Set: the error text prints the TTL in decimal; Go's `int` is 64 bits, here unbounded. The `time.Duration` overflow of a TTL above 9223372036 seconds is modelled (`TtlMap.ExpiryTime`).
- TtlMap.ExpiryTime: the clock reads whole seconds. A real clock's sub-second part can move a wrapped expiry by one second.
- TtlMap values are either integers or something else; what other values hold is not modelled.
- Stringifying values and `NewMap` (a real-time clock) are left out.
- DockerUtil.EnvGetInt: `docker.Env` is given as a decoded lookup table; its `TrimSpace` around the value and its handling of entries without '=' belong to the Docker client library and are not modelled.
- Goroutines, channels, wait groups, select loops, `Start`/`Stop`, logging and the fsnotify watcher are left out. Channel sends are appends to `events`.
- The `Initialise` methods of the two Docker sources, `NewDockerSource` (client connection, ping) and `NewFileSource` (option lookup) are left out. They only wire the client to the handlers modelled here.
- `processFile` (opening and CSV-parsing the file) is an input: the read result. The model requires a successful read to have no empty record, which the CSV reader guarantees.
- Flag, environment and JSON config loading (`ParseOptions`, `LoadConfig`) are I/O.
- `HostList.Dump` and `HostList.Pprint` are output over unordered map iteration.
- `main.go`'s own `getHostnames` uses functions of the root package that are not part of this model.
- `strings.ToLower` is modelled for ASCII letters only.

## Findings

| source | as written | input that shows it | evidently intended | confidence | as-written member | corrected member |
|---|---|---|---|---|---|---|
| sources/docker/util.go:36-40 | `getPort` rejects only values below 1, then converts to `uint32`, which keeps the low 32 bits | WEB_PORT=4294967296 gives port 0 and no error | reject any value above 4294967295 as an invalid port | high (proved; not executed) | DockerUtil.GetPortAsWrittenWraps | DockerUtil.GetPort |
| sources/docker/util.go:46-54 | `parseContainer` falls back to port 80 only when `getPort` returns an error, so a wrapped port 0 reaches the endpoint | WEB_PORT=4294967296 serves the container on port 0 | serve on WEB_PORT when it is a valid port, on 80 otherwise | high (proved; not executed) | DockerUtil.ParseContainerPortZero | DockerUtil.ParseContainerIntended |
