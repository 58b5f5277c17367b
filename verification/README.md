# Verification of the controller SDK logic

A controller process owns databases on behalf of several host programs. Each host talks to it through an SDK (Rust,
with a C interface on top, or Go). The SDK starts the controller when it is not running, holds one session with it,
and rebuilds that session when it is lost. This project models the logic of the SDKs and of the controller's command
line in Dafny, and proves what they promise. `dafny verify dfyconfig.toml` checks all of it.

- **Session recovery** (`desired`, `controller`, `session`, `session_runs`). The host attaches spaces and enables
  backends. The SDK remembers what was acknowledged and replays it into a new session. The controller is an adversary:
  any call may fail and any session may vanish between two calls; all that is known of it is the log of requests it
  acknowledged under each session. `ControllerClient` is the client as it is, with its fields and the pending flag; each
  of its operations is proved equal to a function, and the results about whole runs are about these functions.
- **Many tasks on one client** (`session_tasks`, `desired_slots`, `session_course`, `session_completion`,
  `session_stretches`, `session_schedules`, `session_mishaps`). The same client in every interleaving of its operations
  and renewal ticks; which steps put recovery off course, exactly; what being off course leads to; and rules that keep a
  run on course.
- **Startup lock** (`startup_lock`, `ensure_ready`). Many processes, one lock file, one clock. The machine has separate
  steps for creating the file, testing its age and removing it. `EnsureReady` is the loop of one process, checked to
  walk the control flow of that machine.
- **Handle registry of the C interface** (`handle_registry`, `handle_functions`). Threads create, use and free handles;
  the allocator may reissue any address it has back. The three functions are also given as programs and shown to walk
  the steps of the machine.
- **Base64 and JSON parameters** (`base64`, `json_params`). The encoder, the two decoders of the two crates, the two
  copies of the parameter conversion.
- **Query streams** (`query_stream`). Collecting a stream chunk by chunk.
- **Endpoints and the command line** (`text`, `ipv4`, `ipv6`, `socket_addr`, `endpoint`, `endpoint_forms`,
  `cli`, `spawn`). One endpoint
  text yields a URL, a bind address and a lock key; the SDK prints a command line that the controller parses.
- **Go recovery** (`go_client`). One operation, and one retry on a rebuilt session.

Six promises do not hold without a condition. Each has its condition proved, and runs or inputs that show why it is
needed.

- The startup lock excludes other holders in all runs if and only if this SDK does not spawn at all or a bound on its
  holds, computed from the timeouts, is below the stale age; this covers every configuration. The bound is startup
  timeout + retry interval + connect timeout, less one millisecond, when the retry interval is below the startup
  timeout, and at most that otherwise. In particular it is low enough when retry interval and connect timeout together
  are at most the larger of the startup timeout and 15 seconds.
- Exact recovery when tasks share a client. A state is on course when what the held session was told, completed by the
  rest of a running replay, is what the cache will be once every acknowledged change is remembered. From a state on
  course only three kinds of step can lead off it, each if and only if a condition on the state fails: a change
  acknowledged while a replay runs must leave alone the slots of the requests still to be sent, or say the same; a replay
  that begins while a change is owed must find the cache, or else the session, holding already what the change will leave
  (into a new session: the change must change nothing); a change remembered out of turn must come to the same. A run is
  on course throughout if and only if all its steps fit, and a state is on course if and only if the same run, continued
  with nothing more going wrong, ends exact. With one host task and any number of renewal ticks, two simple rules are
  enough: no change is acknowledged while a replay runs, and no replay begins while one is owed. Three runs each break
  one rule, keep the others, and end settled and wrong.
- A decoded base64 text is re-encoded to itself if and only if it is canonical.
- The SDK refuses port zero for spawning, but not if the endpoint is a port alone, with or without a colon, or names
  `localhost`: it lets port zero pass if and only if the endpoint has one of these forms and the port is written with
  zeros only. The spawned controller accepts its command line if and only if that is not so, the idle timeout is at
  least the minimum uptime and the lease time is positive.
- The startup lock key identifies the bind address of a local controller, where a local IPv6 host has to be spelled as
  it is printed. Other endpoints share a key if and only if their scheme and their authority agree letter for letter.
- A path, query or fragment after an endpoint is cut off for URL and lock key, but for the bind address if and only if the
  endpoint has a scheme: `127.0.0.1:19801/` can be connected to, and a controller cannot be spawned for it. After a port
  alone the rest is not cut off at all.

## Model

| member | source | states |
|---|---|---|
| SessionRuns.RecoveryIsExact | client/src/client.rs:1467-1553 | For every run of operations and every adversary: the cache is the fold of what the host had acknowledged since construction or shutdown; a held session with no replay pending was acknowledged exactly that, one with a replay pending only a part of it |
| SessionRuns.RunIsSound | client/src/client.rs:1467-1748 | The invariant behind it holds after every run |
| SessionRuns.StepKeepsSound | client/src/client.rs:355-471 | Every host operation keeps the invariant, whatever fails during it |
| SessionRuns.PerformKeepsSound | client/src/client.rs:1411-1432 | An operation changes the cache by exactly the acknowledged request it reports, and a shutdown empties it |
| SessionRuns.EnsureKeepsSound | client/src/client.rs:1467-1553 | Ensuring a session never touches the cache; success means the held session stands for all of it; failure never clears an unfinished replay |
| SessionRuns.ReplayResumes | client/src/client.rs:1500-1551 | After any number of replays that fail after any prefix, the first that succeeds leaves what one uninterrupted replay leaves; until then the replay stays pending and the session holds only cached requests |
| SessionRuns.FailedAttempts | client/src/client.rs:1609-1627 | Failed attempts keep the pending mark and the cache |
| SessionRuns.BindingsStayCovered | client/src/client.rs:1674-1688 | A host that enables only inside attached spaces never has a cached binding without its space |
| SessionRuns.ReplayAttachesBeforeEnabling | client/src/client.rs:1500-1550 | For such a host every replay from every reachable state attaches a binding's space before enabling the binding |
| SessionRuns.QuietOperationSucceeds | client/src/client.rs:1411-1415 | Once calls stop failing, the next operation succeeds from any state, whatever session was lost before |
| DesiredState.CompleteReplay | client/src/client.rs:1500-1550 | Replaying the whole cache over any part of it, in any order within each kind, gives exactly the cache |
| DesiredState.PartialReplay | client/src/client.rs:1500-1550 | Re-sending cached requests never leaves the cache, and what was sent stays recorded |
| DesiredState.SpacesComeFirst | client/src/client.rs:1501-1550 | In a covered cache each replayed enable follows the attach of its own space |
| DesiredState.KindsComeInOrder | client/src/client.rs:1501-1550 | Spaces come before SQLite bindings, and these before LanceDB bindings |
| ControllerModel.SendAllRecordsPrefix | client/src/client.rs:1501-1550 | A replay records a prefix of its requests under its own session, all of them exactly on success, and nothing elsewhere |
| ClientSession.ControllerClient.EnsureRegisteredSession | client/src/client.rs:1467-1553 | The method moves client and controller exactly as the specification function says |
| ClientSession.ControllerClient.ReplaySnapshot | client/src/client.rs:1501-1550 | The three replay loops send spaces, then SQLite, then LanceDB requests, and stop at the first failure |
| ClientSession.ControllerClient.SnapshotDesiredState | client/src/client.rs:1647-1658 | The snapshot lists exactly the cached requests |
| ClientSession.ControllerClient.Connect | client/src/client.rs:1411-1415 | Reach the controller, then ensure the session; success exactly when the last call was one that the controller admitted; the cache is left alone |
| ClientSession.ControllerClient.AttachSpace | client/src/client.rs:355-377 | The answer is success exactly when the last call was admitted; then that session's log ends with the newly acknowledged attach and the cache has the space under its key, and otherwise log and cache are as the connection left them |
| ClientSession.ControllerClient.DetachSpace | client/src/client.rs:380-394 | Success exactly when the last call was admitted; only the answer true is reported as true, acknowledged in the log, and removes the space and every binding in it |
| ClientSession.ControllerClient.EnableBackend | client/src/client.rs:417-447 | As for attaching: success exactly when admitted, and then the log ends with the enable and the binding stands under its key; the LanceDB operation has the same shape |
| ClientSession.ControllerClient.DisableBackend | client/src/client.rs:451-471 | Success exactly when admitted; only the answer true is reported as true and removes the binding; the LanceDB operation has the same shape |
| ClientSession.ControllerClient.QueryData | client/src/client.rs:537-560 | A data call succeeds exactly when the controller admitted it, and changes no desired state |
| ClientSession.ControllerClient.ListForSession | client/src/client.rs:1419-1432 | A listing call succeeds exactly when the controller admitted it, and never starts a session of its own |
| ClientSession.ControllerClient.ShutdownClient | client/src/client.rs:1303-1315 | Forgets everything in any case; if its two calls do not fail, the session held before is live no longer, and no other session is removed by it |
| ClientSession.PerformAnswers | client/src/client.rs:355-471 | Every operation but a shutdown, from any state: what it reports is success exactly when its last call was admitted, and a removal counts as acknowledged exactly when that call was also answered true |
| ClientSession.ActAnswers | client/src/client.rs:361-376 | Once a session is ensured: an acknowledged change is appended to the log of that session and applied to the cache, and nothing else changes either |
| ClientSession.CloseEndsSession | client/src/client.rs:1303-1315 | A shutdown forgets everything; when its calls go through, its session is live no longer, and every other live session that the environment does not end stays live |
| ClientSession.ControllerClient.RememberAttachedSpace | client/src/client.rs:1662-1670 | New state of the cache |
| ClientSession.ControllerClient.ForgetAttachedSpace | client/src/client.rs:1674-1688 | New state of the cache: the space and its bindings in both backends are gone |
| ClientSession.ControllerClient.RememberBinding | client/src/client.rs:1692-1706 | New state of the cache |
| ClientSession.ControllerClient.ForgetBinding | client/src/client.rs:1710-1718 | New state of the cache |
| ClientSession.ControllerClient.ClearDesiredSessionState | client/src/client.rs:1631-1643 | New state: no session, nothing pending, empty cache |
| SessionTasks.OneSessionAtATime | client/src/client.rs:1471-1498 | In every interleaving of any number of tasks: registrations equal "not registered" replies plus one while a session is held; only the held session can be live; one task at a time in the locked section |
| SessionTasks.NoReregistrationWithoutLoss | client/src/client.rs:1483-1492 | As long as no renewal is answered "not registered" the session stays the same and nothing is registered, whatever else fails |
| SessionTasks.StepKeepsConsistent | client/src/client.rs:1467-1553 | The invariant behind it is kept by every step of every task |
| SessionTasks.SoloTaskPerforms | client/src/client.rs:1411-1553 | A task that is not interrupted goes from idle to idle exactly as the sequential operation does, so both models are of the same code |
| SessionTasks.SoloTaskActs | client/src/client.rs:355-394 | The call and the remembering, from an ensured session on, are those of the sequential operation |
| SessionCourse.StepOnCourseExactly | client/src/client.rs:1467-1553 | From any reachable state on course, a step of any task stays on course if and only if it fits |
| SessionCourse.CourseExactly | client/src/client.rs:1467-1553 | A run of any number of tasks is on course throughout if and only if each of its steps fits |
| SessionCourse.FittingRunIsExact | client/src/client.rs:1467-1553 | In such a run a held session with no replay pending was told exactly what the host was told, plus what it is owed |
| SessionCourse.AckExactly | client/src/client.rs:1501-1550 | A change acknowledged mid-replay survives the replay if and only if every request still to be sent is one that the changed target holds |
| SessionCourse.SnapshotExactly | client/src/client.rs:1500-1551 | A replay of the cache leads to a target if and only if cache and session hold the target's entry in every slot |
| SessionCourse.CacheIsHistory | client/src/client.rs:1660-1748 | In every interleaving at all the cache adds up what the host was told |
| SessionCourse.StepKeepsBase | client/src/client.rs:1467-1553 | What every step of every task keeps, on course or not |
| SessionCompletion.CourseDecides | client/src/client.rs:1467-1553 | From any reachable state with a live session, the run continued with nothing more going wrong ends with nothing owed or pending, and exact if and only if the state was on course |
| SessionSchedules.AckFitsExactly | client/src/client.rs:1501-1550 | The condition on an acknowledgement, slot by slot |
| SessionSchedules.FreshReplayFitsExactly | client/src/client.rs:1483-1500 | A replay into a new session is harmless if and only if what is owed changes nothing |
| SessionSchedules.UndisturbedRunIsExact | client/src/client.rs:1467-1553 | Any number of tasks: three rules that are easy to check keep a run exact |
| SessionSchedules.OneHostIsExact | client/src/client.rs:1836-1839 | One host task and any number of renewal ticks or data calls: two rules are enough, and losses as such do no harm |
| SessionMishaps.LossForgetsAnAttach | client/src/client.rs:355-377 | A run that only lets a replay begin while a change is owed, and ends settled with a cached space the held session was never told of |
| SessionMishaps.LossUndoesADetach | client/src/client.rs:380-394 | A run that only has a change acknowledged while a replay runs, and ends settled with a detached space attached again |
| SessionMishaps.OverlapSwapsAttaches | client/src/client.rs:1662-1670 | A run that only remembers two changes out of turn, without any loss, and ends settled with cache and session disagreeing |
| SessionTasks.SoloTaskEnsures | client/src/client.rs:1467-1553 | The locked part of such a task ends as the sequential specification says |
| StartupLock.LockIsSafe | client/src/client.rs:1318-1392 | When holds are short, in every interleaving of any number of processes: one guard at most, the file exists exactly while a guard is held, every hold is younger than the stale age, no lock is judged stale |
| StartupLock.ShortWaitsAreTimely | client/src/client.rs:100-108 | Retry interval plus connect timeout up to the larger of startup timeout and 15 seconds is timely, so the defaults are |
| StartupLock.SafeExactlyWhenHoldsAreShort | client/src/client.rs:1318-1392 | For every configuration: all runs are safe if and only if no automatic spawning or longest hold below the stale age; mutual exclusion alone needs the same condition |
| StartupLock.TimelyHoldsAreShort | client/src/client.rs:1326-1329 | The simple sum is sufficient, and the same condition when the retry interval is below the startup timeout |
| StartupLock.SecondHolder | client/src/client.rs:2342-2353 | Whenever the condition fails, a run in which two processes hold the guard |
| StartupLock.TickKeepsInv | client/src/client.rs:1330-1363 | Time may pass without any hold becoming stale |
| StartupLock.ActKeepsInv | client/src/client.rs:1368-1392 | Every step of every process keeps mutual exclusion and the age bound |
| StartupLock.OldLockIsReclaimed | client/src/client.rs:1374-1385 | A lock left behind is reclaimed by the next process that comes to it exactly when it is as old as twice the larger of startup timeout and 15 seconds, and is otherwise left alone |
| EnsureReady.EnsureReady | client/src/client.rs:1318-1364 | Success exactly when the last connection attempt of this call reached a controller; failure only without automatic spawning, after a failure of lock or spawn, or once the startup timeout has passed since the first attempt ended. Ends within ceil(startup timeout / retry interval) + 1 iterations and within the stated time, spawns at most once and only under the guard, leaves no guard behind |
| EnsureReady.OneRound | client/src/client.rs:1334-1360 | One pass through the loop, and when it returns with which answer |
| EnsureReady.TryAcquireStartupGuard | client/src/client.rs:1368-1392 | Two attempts to create the file, with a stale file removed in between; walks the machine's steps |
| EnsureReady.SpawnOnce | client/src/client.rs:1346-1349 | Spawns exactly when a guard is held and no spawn was tried |
| EnsureReady.Site.DropGuard | client/src/client.rs:210-216 | Returning removes the file exactly when the guard is held |
| HandleRegistry.ReleasedAtMostOnce | ffi/src/lib.rs:896-919 | In every interleaving each shell is released and each client shut down at most once, and an operation runs only on resources still there, under the handle's mutex |
| HandleRegistry.TakenStaysTaken | ffi/src/lib.rs:912-914 | Resources taken by a free never come back, in any continuation |
| HandleRegistry.RegistryMatchesAllocator | ffi/src/lib.rs:3314-3327 | Registered pointers are distinct addresses of allocated shells of their own handles; a shell being freed is allocated and unregistered |
| HandleRegistry.NewHandleIsUnaliased | ffi/src/lib.rs:900-917 | A new handle's address belonged, if to any, only to handles already released |
| HandleRegistry.LookUpIsExact | ffi/src/lib.rs:4178-4200 | A pointer is accepted exactly when a live handle has that address, and then gives that handle |
| HandleRegistry.FreedStaysRefused | ffi/src/lib.rs:898-908 | From the step in which a free unregisters a pointer, through every continuation in which its address is not handed out again, every use of it is refused |
| HandleRegistry.SecondFreeIsHarmless | ffi/src/lib.rs:898-908 | Freeing a pointer that is not live changes no registry, allocator or handle |
| HandleRegistry.StepKeepsInv | ffi/src/lib.rs:896-919 | Every step of every thread keeps the invariant that links registry, allocator, mutexes and threads |
| HandleFunctions.Handles.RegisterClientHandle | ffi/src/lib.rs:3314-3327 | The new shell's address is registered for a new handle; ends where the machine's steps end |
| HandleFunctions.Handles.WithClientHandle | ffi/src/lib.rs:4178-4200 | Returns the operation's own answer, error included, exactly when the pointer is registered, and the registry is left alone; ends where the machine's steps end |
| HandleFunctions.Handles.ClientFree | ffi/src/lib.rs:896-919 | Unregisters, shuts down once and releases once, or does nothing; ends where the machine's steps end |
| Base64.EncodeBase64 | ffi/src/lib.rs:4409-4430 | The loop computes the encoding that the results below are about |
| Base64.DecodeFfi | ffi/src/lib.rs:4434-4462 | The loop with 64 as padding mark computes the decoding that the results below are about |
| Base64.DecodeSdk | client/src/client.rs:1956-1988 | The loop with 0 and two flags computes the same decoding, so the two agree on every text, errors included |
| Base64.DecodeEncode | ffi/src/lib.rs:4409-4462 | Decoding an encoded byte sequence gives it back, for every sequence |
| Base64.EncodeDecode | ffi/src/lib.rs:4434-4462 | Re-encoding a decoded text gives the same text if and only if the text is canonical in the sense of section 3.5 of RFC 4648 |
| Base64.DecodeAcceptsExactly | ffi/src/lib.rs:4436-4451 | Exactly which texts decode, and to how many bytes |
| Base64.EncodeLength | ffi/src/lib.rs:4411-4412 | The length of every encoding |
| Base64.EncodeIsRfc | ffi/src/lib.rs:4409-4430 | The encoding is that of section 4 of RFC 4648: the characters at the places that the four sextets of each 24-bit group name in the alphabet, written out as a text, and `=` for missing bytes |
| Base64.DigitIsPosition | ffi/src/lib.rs:4466-4475 | A byte is read as digit v exactly when it is the v-th character of that alphabet |
| Base64.AcceptedIsRfc | ffi/src/lib.rs:4434-4462 | Exactly the texts in whole quartets of characters of the alphabet decode, with `=` allowed in the last two places of each quartet |
| Base64.DecodeIsRfc | ffi/src/lib.rs:4453-4459 | A quartet of characters from given places of the alphabet gives the bytes of the 24-bit group of those places, less what padding cuts off |
| Base64.FirstMisfitIsReported | ffi/src/lib.rs:4440-4451 | Otherwise the error names the first character that cannot stand where it stands |
| Base64.QuartetFfi | ffi/src/lib.rs:4440-4459 | One round of the loop: the out-of-range mark 64 never reaches a result byte |
| JsonParams.ConvertAllSdk | client/src/client.rs:1892-1903 | Converts a list as the specification says, up to the first refusal |
| JsonParams.ConvertAllFfi | ffi/src/lib.rs:1739-1744 | The same specification for the other crate: the two agree on every list, in values and in refusals |
| JsonParams.ConvertSdk | client/src/client.rs:1907-1952 | One value |
| JsonParams.ConvertFfi | ffi/src/lib.rs:3931-3972 | One value, with the other decoder |
| JsonParams.ListExactly | client/src/client.rs:1902-1902 | A list is accepted exactly when every item is, item by item; otherwise the first refusal is the result |
| JsonParams.IntegersExactly | client/src/client.rs:1911-1925 | Integers keep their value; exactly those of 64 signed bits are accepted |
| JsonParams.BytesExactly | client/src/client.rs:1927-1946 | Which bytes come from which object: a `base64` text that decodes to them, and the type name under `type` or, where that is missing or blank, under `__type`, neither being anything but a text |
| JsonParams.ScalarsExactly | client/src/client.rs:1907-1951 | Null, booleans, doubles and texts come out as they are, each from its own kind of JSON only; lists are refused |
| JsonParams.ValueRoundTrip | ffi/src/lib.rs:3931-3972 | Every SQLite value has a JSON form that is converted back to it, bytes wrapped under either type key |
| QueryStream.StreamClient.Collect | ffi/src/lib.rs:3585-3622 | The calls made and the result are those of the specification, on every path |
| QueryStream.StreamClient.CollectJson | ffi/src/lib.rs:1745-1764 | On success the list holds, item by item, the RFC 4648 text of the controller's chunks; on failure the error is passed on |
| QueryStream.ClosedOnceAndLast | ffi/src/lib.rs:3620-3621 | An opened stream is closed exactly once and last, whatever failed; one not opened is not closed |
| QueryStream.AskedInOrder | ffi/src/lib.rs:3605-3610 | Chunks are asked for in order, once each, and none after a failed one |
| QueryStream.SuccessExactly | ffi/src/lib.rs:3600-3618 | Success exactly when metrics and all chunks arrive, with the controller's chunks in order; otherwise the first failure is the result |
| QueryStream.EncodedListDecodes | ffi/src/lib.rs:1755-1760 | The list is made of the RFC 4648 texts of the chunks, and decoding it gives the chunks back |
| Text.ValueOfDecimal | client/src/client.rs:1801-1805 | Printing a number of any size in decimal and reading it gives it back, without leading zeros |
| Text.DecimalOfValue | controller/src/cli.rs:92-98 | Without a leading zero a number is written in one way only |
| Text.ParseUnsignedDecimal | controller/src/cli.rs:92-98 | A printed number within the range is read as itself |
| Text.UnsignedExactly | controller/src/cli.rs:92-98 | A number is read from its decimal digits, after any zeros and perhaps a plus sign, within the range, and from nothing else |
| Text.TrimExactly | client/src/client.rs:116-116 | Trimming takes off white space around a text and nothing else |
| SocketAddr.NumberExactly | client/src/client.rs:2264-2272 | A port is read from its decimal digits, after any zeros, and from nothing else |
| Ipv6Text.Ipv6RoundTrip | client/src/client.rs:2319-2319 | Printing any IPv6 address, with the longest stretch of zeros left out or as a mapped IPv4 address, and parsing it gives it back |
| Ipv6Text.HexByPosition | client/src/client.rs:2319-2319 | A hexadecimal digit has the value of its position among the sixteen, in either case |
| Ipv6Text.FullForm | client/src/client.rs:2319-2319 | Eight groups of one to four digits, in either case and with any leading zeros, are read as their values |
| Ipv6Text.ShortForm | client/src/client.rs:2319-2319 | So are at most seven groups around one `::`, which stands for the zeros that are missing |
| SocketAddr.RoundTrip | client/src/client.rs:2264-2272 | A printed socket address, IPv4 or IPv6, is parsed back to itself |
| SocketAddr.ParseShape | client/src/client.rs:2314-2321 | What parses is the text of a host, a colon and a spelling of the port |
| Endpoint.UrlAgreesWithBind | client/src/client.rs:115-141 | Whenever there is a bind address there is a URL, with the same port and the same host, except that the `:port` form connects to 127.0.0.1 and binds 0.0.0.0 |
| Endpoint.KeyAgreesWithBind | client/src/client.rs:2239-2247 | The lock key is the local key of a port exactly when the endpoint binds to a local host with that port, an IPv6 host being spelled as it is printed |
| Endpoint.KeysEqualExactly | client/src/client.rs:2239-2260 | For any two texts at all: keys are equal exactly when both name a local host and the same port, or neither does and their URLs are equal |
| Endpoint.SharedLockExactly | client/src/client.rs:2239-2260 | An endpoint that binds locally shares its key with exactly the endpoints that name a local host and its port, with or without a bind address of their own, however they are spelled |
| Endpoint.RemoteLockExactly | client/src/client.rs:2239-2248 | Endpoints that do not bind locally share a key exactly when scheme and authority text are the same |
| Endpoint.RemoteSpellingsDiffer | client/src/client.rs:2239-2248 | Scheme, spelling of the port and spelling of an IPv6 host split the keys of one such address |
| Endpoint.PortZeroExactly | client/src/client.rs:132-141 | For every endpoint: it is resolved to port zero exactly when it is a port alone or names `localhost`, and the port is written with zeros only |
| Endpoint.LocalKeyExactly | client/src/client.rs:2251-2260 | For every text at all, the key is local exactly when the URL names a local host and that port |
| Endpoint.UrlIsStable | client/src/client.rs:2276-2303 | Normalising a URL again changes nothing |
| Endpoint.NormalizedShape | client/src/client.rs:2276-2303 | A normalised URL is a scheme and an authority without path, query, fragment or space |
| EndpointForms.NormalizeHttpExactly | client/src/client.rs:2276-2303 | For every text after a scheme: the URL is the scheme and what stands before the first `/`, `?` or `#`, trimmed, and there is none exactly when that is empty or holds a space |
| EndpointForms.SchemeForms | client/src/client.rs:2276-2330 | With a scheme, white space around the endpoint or its authority and a path, query or fragment change neither URL nor bind address nor lock key |
| EndpointForms.SchemelessForms | client/src/client.rs:115-141 | Without a scheme, an authority that is more than a port has the URL and the key it has after `http://`, whatever tail follows; it has that bind address exactly when no tail follows |
| EndpointForms.SpaceAroundDoesNotMatter | client/src/client.rs:2239-2247 | For every text at all, accepted or not, white space around it changes none of the three results |
| EndpointForms.PortForms | client/src/client.rs:115-141 | A port alone connects to 127.0.0.1 and binds 127.0.0.1, with a colon it binds 0.0.0.0 |
| EndpointForms.TailAfterPort | client/src/client.rs:115-141 | With a tail a port alone becomes a host name and cannot be bound |
| EndpointForms.TailAfterColonPort | client/src/client.rs:115-141 | With a tail a port with a colon has neither URL nor bind address |
| EndpointForms.LocalhostBinds | client/src/client.rs:2323-2325 | `localhost` and a port, with or without a scheme, bind 127.0.0.1 on that port |
| EndpointForms.LocalKeys | client/src/client.rs:2239-2260 | A port alone, with or without a colon, and each of the five local hosts with that port, with or without a scheme, share the key `local-controller:` and the port |
| Cli.ParseServerConfig | controller/src/cli.rs:18-63 | The loop over the arguments computes the specification function, errors included |
| Cli.FlagsAcceptedExactly | controller/src/cli.rs:22-58 | The loop accepts a list exactly when it consists of flags, each with a value that can be read |
| Cli.FirstTroubleDecides | controller/src/cli.rs:22-58 | After settings that can be read, the first argument that asks for help or names no flag, or the first flag whose value is missing, blank or unreadable, decides the error, whatever follows |
| Cli.EveryListIsRead | controller/src/cli.rs:22-58 | Every list of arguments is one of the two |
| Cli.UnknownArgumentIsRefused | controller/src/cli.rs:52-56 | An argument in a flag's place that is none of the five flags and no call for help is refused by name |
| Cli.NoArguments | client/src/types.rs:51-79 | No arguments: 127.0.0.1 on port 19801, managed, and durations of 300, 900 and 120 seconds |
| Cli.FlagsByName | controller/src/cli.rs:24-48 | Each of the five flags sets the field it is named after |
| Cli.ModeExactly | controller/src/cli.rs:81-90 | The two modes are read from their names in letters of either case, and from nothing else |
| Cli.BarePorts | controller/src/cli.rs:148-173 | A port alone is bound on 127.0.0.1, after a colon on 0.0.0.0, and port zero is refused |
| Cli.AcceptedIsValid | controller/src/cli.rs:60-63 | Every accepted configuration has a concrete address with a nonzero port, idle timeout at least minimum uptime, a positive lease time, and 64-bit durations |
| Cli.FinishExactly | controller/src/cli.rs:110-144 | Exactly which parsed configurations pass the final checks, and that only the bind text is rewritten |
| Cli.LastValueWins | controller/src/cli.rs:22-58 | When every value can be read, the result depends only on the last value of each flag |
| Cli.OrderDoesNotMatter | controller/src/cli.rs:18-63 | So two argument lists with the same last values have the same outcome |
| Cli.BindIsStable | controller/src/cli.rs:148-173 | Normalising a bind address again changes nothing |
| Cli.NextValue | controller/src/cli.rs:102-106 | The next argument, unless it is missing or blank |
| Spawn.LineIsReadBack | client/src/client.rs:1790-1811 | For every configuration the controller reads the printed line as exactly the bind address, mode and durations of the SDK, or refuses it for one of three conditions stated in terms of the configuration |
| Spawn.BoundWhereResolved | client/src/client.rs:132-141 | The bind text of an accepted line parses to the address the SDK resolved |
| Spawn.AcceptedExactly | client/src/client.rs:1790-1811 | From the configuration alone: the controller accepts the line if and only if port zero has not slipped through, idle timeout is at least minimum uptime, and the lease time is positive |
| Spawn.PortZeroIsPassedOn | client/src/client.rs:2307-2327 | Instances: `:0`, `0` and `localhost:0` pass the SDK, `0.0.0.0:0` does not |
| GoClient.Client.WithSession | client-go/controller/client.go:682-703 | Every call follows the retry scheme, and memory changes exactly by a successful operation |
| GoClient.AtMostTwice | client-go/controller/client.go:682-703 | The operation is invoked at most twice |
| GoClient.RetriedExactly | client-go/controller/client.go:801-807 | A failed operation is tried again, unless the reconnection fails, exactly when its error has code unavailable, not found or unauthenticated, or its text contains "client session" |
| GoClient.SecondRunsRebuilt | client-go/controller/client.go:694-703 | The second invocation needs a recoverable error of the first, and runs on a new connection under a session registered in between, into which every remembered space and binding was accepted before |
| GoClient.Client.EnsureRegistered | client-go/controller/client.go:662-678 | A missing session is registered and rebuilt; a failed replay leaves the session identifier set |
| GoClient.Client.ReplayDesiredState | client-go/controller/client.go:707-741 | Success means exactly the remembered requests were sent and accepted |
| GoClient.Client.Connect | client-go/controller/client.go:71-83 | What connecting does from each of the three starting states |
| GoClient.Client.Operation | client-go/controller/client.go:690-690 | One invocation; on success the three maps change by exactly that operation, on failure not at all |
| GoClient.Client.ResetConnection | client-go/controller/client.go:787-797 | Connection and session are gone, and the old connection is closed |

## Left out

- SocketAddr.RoundTrip: the grammar is that of the Rust standard library, which is not part of the repository.
- SessionRuns.RecoveryIsExact: host operations do not overlap (SessionCourse is about those that do), and a call that failed has had no effect on the controller; a removal whose reply is lost would break exactness.
- SessionCourse.CourseExactly: runs without shutdown. A run that leaves the course can come back to it, by losing the session.
- SessionSchedules.UndisturbedRunIsExact: the rules are sufficient; the exact condition is SessionCourse.CourseExactly.
- SessionTasks.OneSessionAtATime: runs without shutdown.
- StartupLock.LockIsSafe: no process dies while it holds the lock; local computation takes no time and sleeps last exactly as long as asked.
- EnsureReady.EnsureReady: the same two assumptions about time; the deadline addition does not overflow.
- HandleRegistry.LookUpIsExact: a pointer kept after its free is accepted again once the allocator has handed the same address out again.
- HandleFunctions.Handles.WithClientHandle: one thread and a mutex that is free; interleavings are the subject of HandleRegistry.
- JsonParams.ConvertAllSdk: works on parsed JSON; reading JSON text, and the rounding of numbers to doubles, are not modelled. A double is a real number here.
- QueryStream.StreamClient.CollectJson: the list before it is written as JSON text.
- GoClient.Client.WithSession: nothing is claimed about what a session held before the call has been told, since the Go SDK does not mark an unfinished replay; readiness (with its own polling and spawning) is one call that may fail, and the background renewal is left out.
- Cli.ParseServerConfig: the help text and the warning printed when the lease time exceeds the idle timeout.
- The order of a replay within spaces, SQLite bindings and LanceDB bindings is left open, so the results hold for the key order of the Rust maps and for any other.
- The tuning fields of the enable requests travel as one opaque text; backends of both kinds share one model with the kind as a parameter.
- Replies that succeed but lack their payload, and snapshots that cannot be mapped after a successful attach.
- The controller's own runtime: leases, reference counts, its shutdown decision, and the databases behind it.
- The renewal task's start and stop; a renewal tick is a connect.
- Poisoned mutexes.
- The hash that turns a lock key into a file name, and the directory it lies in.
- Field-by-field conversions between SDK types and protocol messages in all SDKs and in the server, and the C interface's out-slots and free functions for results: only easy members.
- Transport, process spawning and the scripts of the repository.
