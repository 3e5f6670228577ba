# ccproxy: a verified model of its stateful cores

ccproxy puts an OpenAI-style HTTP interface in front of `claude` subprocesses, and can let such a
subprocess work on a user's own files through a *bridge*: a daemon on the user's machine, connected
by a websocket and mounted on the server through FUSE. This project models the parts of it whose
guarantees concern whole runs, and proves those guarantees with Dafny 4.11:

    dafny verify dfyconfig.toml

Code that changes state in place is a class whose methods are proved against functions on a value
(`View()`, or the fields themselves). Where goroutines interleave, those functions are the atomic
steps of a state machine, a run is any sequence of steps, and the main results hold of every run.

| file | what it models |
|---|---|
| `Daemon.dfy` | the daemon's `dispatch`: permissions, errors, the echoed request id |
| `Transport.dfy`, `BridgeRun.dfy` | one bridge connection: pending map, reply channels, callers, read loop, daemon goroutines, timeouts, `Close`, in every interleaving |
| `BridgeRegistry.dfy` | the registry of live bridges and the life of each `/bridge` handler |
| `Sessions.dfy`, `SessionRun.dfy` | persistent sessions: creation, the two-step acquire, idle sweeps, shutdown |
| `StatCache.dfy`, `StatRace.dfy` | the FUSE stat cache against the daemon's tree, call by call and with calls that overlap |
| `FileBytes.dfy` | the bytes left and returned by the Write and Read RPCs |
| `PathClamp.dfy` | the lexical path clamp and its denylist |
| `Translate.dfy` | Claude events projected into chat chunks, and the buffered response |
| `TokenStore.dfy`, `Scopes.dfy` | bearer tokens, the authentication cache, scope lists |
| `Quota.dfy` | the daily token quota under concurrent requests |
| `RingBuffer.dfy`, `LineReader.dfy` | captured standard error; line reassembly and events |

Times are integers passed in by the caller. Request ids, tokens and directories are fresh by
counting; the argon2 hash, glob matching of one path segment and the JSON line parser are function
parameters; JSON payloads are opaque strings. Files are named below by path and line.

## What was found

* A request can lock a session that a sweep evicted after the registry lock was dropped
  (`internal/session/session.go:108`): it then runs in a removed directory, possibly beside another
  request of the same client. `SessionRun.EvictedInTheGap` is such a run. It happens exactly when,
  between the two halves, a shutdown step of that client comes or a sweep finds the session unlocked
  and idle for longer than the time to live (`SessionRun.LocksRegisteredIff`), and a rival of a holder
  waits for it exactly while the holder's session is registered (`SessionRun.RivalWaitsIff`).
* `InvalidateCache` drops the key "." for a top-level path, while the root is cached under "", so the
  root's stat goes stale (`StatCache.RootGoesStale`): exactly for an operation that adds or removes a
  top-level name while the root is remembered (`StatCache.RootAgreesIff`). A renamed directory leaves
  stale answers for what was cached below it (`StatCache.RenamedDirectoryGoesStale`, exactly when:
  `StatCache.RenameAgreesIff`).
* No lock spans a stat reply and its `cachePut`, so a reply can be overtaken by an operation and its
  invalidation and be remembered stale (`StatRace.OvertakenByAChmod`). Whatever the operations in
  between leave, it is right exactly when none of them restats the entry that ends up at the path, and
  that entry was there all along or was renamed to it with the same stat, or when nothing is there
  before and after (`StatRace.LatePutAgreesIff`).
* The `isUnder` re-check never catches an escape, because cleaning has already clamped the path; what
  it refuses are names inside the root that begin with ".." (`PathClamp.IsUnderRejectsExactly`, for
  example "..foo": `PathClamp.DotDotNameIsRefused`).
* A login that reads its row before a revocation and stores its cache entry after it leaves the revoked
  bearer accepted for up to one time to live (`TokenStore.RevokedInTheWindow`). A late put gives the
  verdict of the table exactly when the token has expired meanwhile, or was neither revoked nor rotated
  in the window and has its debug flag as before (`TokenStore.LatePutAgreesIff`); without a late put
  or an outstanding clear the two never differ (`TokenStore.SettledAnswersAgree`). The comment on `SetDebugCapture`
  (`internal/auth/store.go:311-313`) says a change waits for cached entries to expire, but the code
  clears the cache; the model follows the code.
* Streamed and buffered text can differ: once anything has been streamed, a message that was not is
  lost from the chunks (`Translate.UnstreamedMessageIsLost`). They are equal exactly when, from the
  first text delta on, the deltas spell the messages; or, if no message has text, no error came and
  there is a result, when the deltas spell the result's own text (`Translate.TextsAgreeIff`).

## Model

| member | source | states |
|---|---|---|
| Daemon.Dispatch | internal/bridgeclient/client.go:168-289 | the response carries the request's id and exactly one of result and error; a handler runs only for a known method that the daemon permits and whose parameters decode |
| Daemon.SetResult | internal/bridgeclient/client.go:331-345 | an error, a value, or a marshalling failure reported as an internal error; the frame is left as it is without either |
| Daemon.ResponseAnswers | internal/bridgeclient/client.go:168-284 | no answer of the daemon carries a result for an unknown or forbidden method |
| Daemon.MethodsAllowed | internal/bridgeclient/client.go:168-284 | by name: hello always, the three reading methods with well-formed parameters, the six writing ones only if writing is allowed, exec only if executing is; each refusal has its error code |
| Daemon.AnswersGoOut | internal/bridgeclient/client.go:331-345 | a handler's value goes out as the result, its error as the error |
| Transport.WsConn.TakeID | internal/bridge/transport.go:170 | ids are handed out by counting from 1 |
| Transport.WsConn.InsertPending | internal/bridge/transport.go:176-179 | a call's fresh reply channel is registered under its id |
| Transport.WsConn.DeletePending | internal/bridge/transport.go:180-184 | the deferred removal touches that id only |
| Transport.WsConn.TakePending | internal/bridge/transport.go:215-219 | lookup and removal are one critical section |
| Transport.WsConn.Send | internal/bridge/transport.go:224 | callable exactly when Go neither panics nor blocks |
| Transport.WsConn.CloseChan | internal/bridge/transport.go:225 | callable exactly when Go does not panic |
| Transport.WsConn.DeliverResponse | internal/bridge/transport.go:215-226 | a response of a pending id is put on that id's channel, which is then closed and unregistered; a stale one changes nothing |
| Transport.DrainOne | internal/bridge/transport.go:99-102 | closing and removing one entry leaves the same final state to reach |
| Transport.WsConn.DrainPending | internal/bridge/transport.go:97-103 | every registered channel is closed once, no other is touched, and the map ends empty |
| Transport.WsConn.Close | internal/bridge/transport.go:90-105 | only the first call does anything |
| BridgeRun.RunKeepsInv | internal/bridge/transport.go:90-226 | in every run ids are fresh, each pending entry belongs to one live call with an open empty channel, and the read loop owns the channel it has taken |
| BridgeRun.ChannelsAreSafe | internal/bridge/transport.go:90-226 | no reachable step sends on or closes a closed channel, and the read loop never blocks on a delivery, with stray and duplicate responses and with Close at any point |
| BridgeRun.RunKeepsHonest | internal/bridge/transport.go:150-226 | without stray responses every request on the wire was issued by a call, and every response under way was written by a daemon goroutine |
| BridgeRun.RepliesMatchRequests | internal/bridge/transport.go:150-226 | a Call that returns a frame returns what the daemon wrote for that very request, and no response reaches two calls |
| BridgeRun.RepliesCarryTheId | internal/bridge/transport.go:215-226 | even with stray responses a call only returns a frame with its own id, so no frame reaches two calls |
| BridgeRun.ResponseInHandIsReturned | internal/bridge/transport.go:186-226 | after every run a waiting call whose response the read loop has in hand, before or after the lookup, can be handed it and returns exactly it |
| BridgeRun.CallsCanBeAnswered | internal/bridge/transport.go:150-226 | in every reachable state with the connection up and the read loop reading, a new call can be made, answered by the daemon, and returns that answer, whatever else is in flight |
| BridgeRun.StatIsAnswered | internal/bridge/transport.go:150-226 | a run from the start in which a stat returns the daemon's result |
| BridgeRun.StaleResponseIsDropped | internal/bridge/transport.go:220-223 | a response of an id no longer registered changes nothing |
| BridgeRun.DeliveryIsDelivered | internal/bridge/transport.go:215-226 | without interruption the read loop's three steps put the frame on the call's channel and close it |
| BridgeRun.CallsCanFail | internal/bridge/transport.go:166-201 | at each point the failures of its own by which a call returns, its id unregistered |
| BridgeRun.DrainWakes | internal/bridge/transport.go:97-103 | the drain closes the channel of every registered call and of no other |
| BridgeRun.DrainedIsCancelled | internal/bridge/transport.go:90-105 | in every run a drained connection is cancelled |
| BridgeRun.CallsReturnWithinMeasure | internal/bridge/transport.go:150-201 | once the connection is cancelled, any continuation has at most a fixed number of caller steps |
| BridgeRun.NoCallHangsAfterClose | internal/bridge/transport.go:90-201 | after cancellation each unreturned call has an enabled step, including one that registers after the drain; when all have returned the pending map is empty |
| BridgeRun.ReadLoopCanStop | internal/bridge/transport.go:112-145 | after Close, wherever the read loop stands, it has a path to its end on which its sends and closes neither block nor panic |
| BridgeRegistry.Registry.Add | internal/bridge/registry.go:57-68 | a live entry is refused, a closed or missing one replaced |
| BridgeRegistry.Registry.Remove | internal/bridge/registry.go:72-81 | removes the entry only if it is still that connection's |
| BridgeRegistry.Registry.Find | internal/bridge/registry.go:85-96 | the registered connection if it is live |
| BridgeRegistry.Registry.Snapshot | internal/bridge/registry.go:100-110 | exactly the principals with a live entry, each once |
| BridgeRegistry.RegistersIff | internal/bridge/registry.go:57-96 | a connection is registered exactly if its principal has no live one, a closed one's entry being replaced; it is then the one found, and other principals are unaffected |
| BridgeRegistry.UnregistersOnly | internal/bridge/registry.go:72-96 | only that connection's own entry disappears |
| BridgeRegistry.ReconnectsIff | internal/server/bridge_route.go:88-110 | in every reachable state a handler past its hello gets the bridge exactly if no other handler has it live; else it is closed and nothing changes |
| BridgeRegistry.HandlersLeave | internal/server/bridge_route.go:68-110 | a failed hello closes uncounted; a done or refused handler can leave, which takes back its count and its entry |
| BridgeRegistry.StepKeepsLive | internal/bridge/registry.go:57-81 | no step of any handler moves or removes a live registration |
| BridgeRegistry.OneLiveBridgePerPrincipal | internal/server/bridge_route.go:59-110 | at most one live registered bridge per principal, which is the one looked up; every entry's handler completed its hello and has not left; the gauge counts the connected handlers |
| BridgeRegistry.LiveBridgeIsNeverDisplaced | internal/server/bridge_route.go:88-109 | a bridge still open at the end of a run has kept its entry throughout |
| Sessions.Manager.Acquire | internal/session/session.go:88-108 | finds the client's session, or creates one with its workspace, or reports the resolver's error and changes nothing |
| Sessions.Manager.SetCCSessionID | internal/session/session.go:120-125 | the first non-empty id sticks |
| Sessions.AcquireGives | internal/session/session.go:88-108 | the client's session whatever workspace is named, or a new one last used now, ephemeral with a directory of its own exactly if none is configured, or the resolver's error |
| Sessions.FirstCcIdIsKept | internal/session/session.go:120-125 | an empty id is ignored, the first other one is stored and stays |
| Sessions.SweepTakesIff | internal/session/session.go:174-193 | a sweep takes a session exactly if it is unlocked and was last used longer ago than the time to live |
| Sessions.CreateKeepsInv | internal/workspace/resolver.go:113-132 | a new session with a fresh directory keeps gauge, cleanups and directories accounted for |
| Sessions.EvictKeepsInv | internal/session/session.go:184-188 | so does an eviction |
| Sessions.Manager.EvictOne | internal/session/session.go:184-188 | Cleanup, removal from the map and the gauge together |
| Sessions.Manager.EvictIdle | internal/session/session.go:174-193 | exactly the unlocked sessions idle for longer than the time to live leave, all others are unchanged |
| Sessions.Manager.EvictAll | internal/session/session.go:195-205 | every session is cleaned up, the gauge is zero and no directory is left |
| SessionRun.SessionsAreAccountedFor | internal/session/session.go:88-205 | in every interleaving the gauge is the size of the map, Cleanup has run exactly once on each session that left it and never on another, and the directories are those of the registered ephemeral sessions |
| SessionRun.KindIsAsAsked | internal/workspace/resolver.go:113-132 | over every run a session has a directory of its own exactly if the acquire that created it named no configured workspace, and as long as it is registered |
| SessionRun.ShutdownLeavesNothing | internal/session/session.go:195-205 | a shutdown ends only with no session, gauge or directory left, and can take each one that is |
| SessionRun.ReleasedIsSpared | internal/session/session.go:111-114 | a release unlocks, and no sweep up to the time to live later takes the session |
| SessionRun.HolderSpawnsAndCaptures | internal/server/chat.go:162-196 | a holder spawns with the cc id known so far and stores the first one it learns |
| SessionRun.HoldersAreExclusive | internal/session/session.go:88-116 | one holder per session object; two holders of one client are never both registered |
| SessionRun.HolderHasItsDirectoryIff | internal/workspace/resolver.go:113-132 | a holder's ephemeral directory exists exactly while its session is registered |
| SessionRun.RivalWaitsIff | internal/session/session.go:88-110 | a request acquired while another of its client holds is given the held session, and has to wait, exactly when that session is still registered |
| SessionRun.UnregisteredIff | internal/session/session.go:174-205 | over any run a registered session stays in the map exactly when no shutdown step takes it and no sweep finds it unlocked and idle; once out it never comes back |
| SessionRun.LocksRegisteredIff | internal/session/session.go:88-116 | whatever happens between the two halves of an acquire, the session locked is still registered exactly when none of those steps lies between them |
| SessionRun.EvictedInTheGap | internal/session/session.go:108-110 | a run that evicts a session between the two halves of an acquire |
| SessionRun.HeldSessionIsNotSwept | internal/session/session.go:174-193 | a session registered when locked stays so through every sweep, until its release or a shutdown |
| SessionRun.CcSessionIdSticks | internal/session/session.go:120-125 | once set, the cc session id never changes over any run |
| SessionRun.LaterRequestsResumeTheSameId | internal/server/chat.go:162-196 | every later spawn on that session resumes that id |
| StatCache.FuseFS.CacheGet | internal/bridge/fs_fuse.go:104-116 | an expired entry is dropped, a valid one returned |
| StatCache.FuseFS.InvalidateCache | internal/bridge/fs_fuse.go:127-132 | the path's key and its directory's key are dropped, "." for a top-level path |
| StatCache.FuseFS.GetAttr | internal/bridge/fs_fuse.go:136-160 | answers from the cache or the stat RPC; only found and not-found are remembered |
| StatCache.RemembersForTheTTL | internal/bridge/fs_fuse.go:104-160 | an uncached lookup is the daemon's answer, or the failure of the call; a stat or a not-found is then repeated for 1500 ms whatever happens, and nothing else is remembered |
| StatCache.StatSays | internal/bridgeclient/fs_handlers.go:107-123 | the entry's stat, not-a-directory below a file, and else not-found |
| StatCache.FuseFS.Mutate | internal/bridge/fs_fuse.go:227-310 | a successful RPC invalidates the paths it names, a failed one changes nothing |
| StatCache.PathOpKeepsAgreement | internal/bridge/fs_fuse.go:227-288 | each single-path operation keeps every non-root entry equal to what the daemon would say |
| StatCache.CachedGetattrIsCurrent | internal/bridge/fs_fuse.go:104-310 | after any run whose renames move entries with nothing below, a cached answer has the existence and stat of a direct one for every non-root path |
| StatCache.RenameAgreesIff | internal/bridge/fs_fuse.go:290-300 | a rename keeps the answers the cache would give in agreement exactly when no path with an unexpired entry is carried along below its two paths |
| StatCache.RenamedDirectoryGoesStale | internal/bridge/fs_fuse.go:290-300 | renaming a directory whose child was looked up breaks agreement |
| StatCache.RootAgreesIff | internal/bridge/fs_fuse.go:127-140 | whatever an operation does, a rename or a chmod of the root itself included, the root's entry stays right exactly when the root is not remembered or no top-level name is added or removed |
| StatCache.RootGoesStale | internal/bridge/fs_fuse.go:127-140 | a top-level mkdir leaves the root's remembered stat stale |
| StatCache.RootStaysCurrent | internal/bridge/fs_fuse.go:127-132 | over a run without such operations while the root is remembered, its entry stays right |
| StatRace.SettledEntriesAgree | internal/bridge/fs_fuse.go:104-160 | with stat replies and puts, and operations and invalidations, as separate steps, an entry that no directory rename carries along is right unless an invalidation of it is outstanding or its key was dropped between its reply and its put |
| StatRace.CachedAnswersAreBounded | internal/bridge/fs_fuse.go:104-160 | in every run, directory renames and the root included, a cached answer is what the daemon had when it replied to that lookup, and was put in the past, at most one time to live ago |
| StatRace.LatePutAgreesIff | internal/bridge/fs_fuse.go:136-160 | an answer remembered after any calls since its stat reply is right for every outcome of those calls exactly when none restats the entry that ends up at the path, and it was there all along or was renamed to it with the same stat, or nothing is there before and after |
| StatRace.OvertakenByAChmod | internal/bridge/fs_fuse.go:120-160 | a reply overtaken by a chmod and its invalidation is remembered stale |
| FileBytes.FSHandlers.Write | internal/bridgeclient/fs_handlers.go:185-229 | the three write modes leave the bytes of the zero-filled reference, with the error of a negative size |
| FileBytes.FSHandlers.Read | internal/bridgeclient/fs_handlers.go:150-183 | the bytes at the offset, or from 0 if that is negative, capped; EOF exactly when they reach the end, or for a negative offset when the file is shorter than the cap; too-large exactly on a whole-file request of an oversized file |
| FileBytes.ReadsAMebibyteAtMost | internal/bridgeclient/fs_handlers.go:172-175 | the cap is 1048576 bytes, and applies to a missing or longer length |
| FileBytes.OnlyWholeFilesAreTooBig | internal/bridgeclient/fs_handlers.go:159-161 | the limit stops only a request for all of a larger file from its beginning |
| FileBytes.WriteIsAfter | internal/bridgeclient/fs_handlers.go:210-224 | seeking, zero-filling and overwriting is the reference write, byte by byte |
| FileBytes.TruncateIsAfter | internal/bridgeclient/fs_handlers.go:196-209 | an empty truncating write is the reference resize |
| FileBytes.FileHoldsLastWrites | internal/bridgeclient/fs_handlers.go:185-229 | after any sequence of operations each byte is that of the last operation deciding it, zero in gaps, and the size is the largest end written since it was last fixed |
| FileBytes.ReadToEndIsTheFile | internal/bridgeclient/fs_handlers.go:150-183 | reading on by the returned length until EOF terminates with exactly the file |
| PathClamp.Match | internal/bridgeclient/ignore.go:54-78 | true exactly when some pattern matches some raw segment |
| PathClamp.TrailingSlashIsIgnored | internal/bridgeclient/ignore.go:61-66 | a pattern matches the same with a trailing slash and without |
| PathClamp.CleanRewrites | internal/bridgeclient/fs_handlers.go:45 | empty segments and "." vanish, a name vanishes with the ".." after it, a ".." at the root vanishes alone, names stay |
| PathClamp.CleanIsSubsequence | internal/bridgeclient/fs_handlers.go:45 | cleaning keeps a subsequence of the raw segments, none empty, "." or ".." |
| PathClamp.JoinAppends | internal/bridgeclient/fs_handlers.go:46 | joining a cleaned path to the root appends its segments |
| PathClamp.IsUnderRejectsExactly | internal/bridgeclient/fs_handlers.go:45-70 | the re-check refuses exactly the cleaned paths whose first segment begins with ".." |
| PathClamp.DotDotNameIsRefused | internal/bridgeclient/fs_handlers.go:45-70 | "..foo", a name in the root itself, is refused as out of root |
| PathClamp.DenylistSeesRequested | internal/bridgeclient/fs_handlers.go:41-45 | no segment that survives cleaning matches a deny pattern, though the list is consulted before cleaning |
| PathClamp.ResolveClamps | internal/bridgeclient/fs_handlers.go:40-51 | an accepted path is the root followed by the kept segments; each refusal happens exactly for its reason |
| PathClamp.NamesResolve | internal/bridgeclient/fs_handlers.go:40-51 | a path of plain names is denied exactly if a pattern matches one, refused if the first begins with "..", and else that path under the root |
| PathClamp.RootIsAccepted | internal/bridgeclient/ignore.go:54-61 | the root is accepted under each of its names, whatever the patterns |
| Translate.Translator.EventToChunks | internal/translate/response.go:41-70 | one event's chunks and the new translator state, in each verbosity |
| Translate.Translator.AssistantText | internal/translate/response.go:72-87 | a message's text in one chunk unless it was already streamed |
| Translate.Translator.AssistantItems | internal/translate/response.go:134-175 | the items of a message in order, in verbose and narrated mode |
| Translate.Translator.UserResults | internal/translate/response.go:177-201 | one chunk per tool result, in verbose and narrated mode |
| Translate.Translator.EmitDelta | internal/translate/response.go:268-288 | the role goes out once |
| Translate.CollectText | internal/translate/response.go:77-82 | the concatenated text items |
| Translate.NonStreamingResponse | internal/translate/response.go:307-358 | text, finish reason and usage of the buffered response, with the fallback to the result's text |
| Translate.BufferedEndsWithResult | internal/translate/response.go:332-357 | text, or the result's own if there is none, finish reason and usage of a stream that ends with a result |
| Translate.BufferedOtherwise | internal/translate/response.go:325-334 | "stop" without a result, and "error" with the messages' text after an error message |
| Translate.StreamShape | internal/translate/response.go:41-302 | for every event sequence and verbosity: the role on exactly the first content chunk, a finish reason on exactly the chunks of results and stream errors, usage only on results, never tool calls |
| Translate.FinishReasons | internal/translate/usage.go:10-44 | a result's chunk has "length" for max_tokens, "tool_calls" for tool_use or in verbose mode once a tool was used, else "stop", and the two token counts with their sum; a stream error has "error" |
| Translate.VerboseFinish | internal/translate/response.go:106-127 | over whole verbose streams: "tool_calls" exactly if the result says so or a message before used a tool and it gives no other reason |
| Translate.OnlyTextDeltasStream | internal/translate/response.go:93-102 | only text deltas inside content-block deltas are streamed |
| Translate.TextItemsInOrder | internal/translate/response.go:77-82 | a message's text is its text items in order |
| Translate.ItemsRead | internal/translate/response.go:134-175 | the wording of text, tools and thinking in verbose and narrated mode |
| Translate.MessageReadsInOrder | internal/translate/response.go:134-243 | in both modes a message reads as its items in order |
| Translate.ResultsRead | internal/translate/response.go:177-264 | the wording of tool results and errors in both modes |
| Translate.ResultsReadInOrder | internal/translate/response.go:177-264 | one after the other in both modes, and nothing in text-only mode |
| Translate.StreamedTextIsTheChunks | internal/translate/response.go:54-102 | the text sent event by event is the concatenation of the chunks |
| Translate.SentIs | internal/translate/response.go:72-102 | a stream sends whole messages before the first delta and only deltas after it |
| Translate.TextsAgreeIff | internal/translate/response.go:307-339 | the exact condition for streamed and buffered text to be equal, for every stream |
| Translate.UnstreamedMessageIsLost | internal/translate/response.go:72-102 | a stream on which they differ |
| Translate.StreamEqualsBuffered | internal/translate/response.go:290-358 | with messages spelled by their deltas, or no deltas, some text and one final result, the chunks give the buffered text, finish reason and usage |
| TokenStore.BearerRoundTrip | internal/auth/token.go:58-91 | parsing accepts exactly the generated shape and takes it apart again |
| TokenStore.TokenDb.QueryByPrefix | internal/auth/store.go:231-236 | the row with that prefix, if any |
| TokenStore.TokenDb.Auth | internal/auth/store.go:213-252 | cache hit, miss, expiry and storing, as the specification function says |
| TokenStore.TokenDb.Create | internal/auth/store.go:161-209 | succeeds exactly when the name is not blank and id and prefix are free; the stored scopes read back as given |
| TokenStore.TokenDb.RevokeToken | internal/auth/store.go:329-340 | deletes the row and clears the cache, or reports an unknown id |
| TokenStore.TokenDb.RotateToken | internal/auth/store.go:344-376 | a new prefix and hash, nothing else changed, cache cleared; a collision rolls back |
| TokenStore.TokenDb.SetDebug | internal/auth/store.go:314-326 | flips the flag and clears the cache, or reports an unknown id |
| TokenStore.TokenDb.Seed | internal/auth/store.go:386-413 | only an empty table and a well-formed bearer are seeded |
| TokenStore.AcceptsIff | internal/auth/store.go:213-252 | with a sound cache, a bearer is accepted exactly if it is ccp_, eight characters, an underscore and 24 more that some row's prefix and hash fit, before that row's expiry; the token is that row's |
| TokenStore.AcceptsAfterAnyRun | internal/auth/store.go:213-413 | the same after any sequence of calls |
| TokenStore.AddedOpens | internal/auth/store.go:161-209 | a new token's bearer is accepted until it expires |
| TokenStore.RevokedIsRefused | internal/auth/store.go:329-340 | after a revocation that token's bearer is refused at once, every other one is worth what it was |
| TokenStore.RotatedOpens | internal/auth/store.go:344-376 | after a rotation the new bearer gives the same token |
| TokenStore.RotatedIsRefused | internal/auth/store.go:344-376 | and the old one is refused |
| TokenStore.DebugIsSeen | internal/auth/store.go:314-326 | from the switch on the token carries the new flag |
| TokenStore.SeededOpens | internal/auth/store.go:386-413 | a seeded bearer gives a chat token without expiry or limits |
| TokenStore.UseIsRecorded | internal/auth/store.go:422-429 | a use sets the last-used time and changes no verdict |
| TokenStore.RemembersForTwoMinutes | internal/auth/store.go:219-250 | an accepted login is repeated from the cache for 120 seconds or until the token expires, then the table is asked |
| TokenStore.HitIsPlain | internal/auth/store.go:213-252 | with a sound cache one login gives the plain verdict and keeps the cache sound |
| TokenStore.CachedEqualsPlain | internal/auth/store.go:213-413 | after any sequence of calls cached authentication equals a plain table lookup, apart from the last-used time |
| TokenStore.CachedAnswersAreBounded | internal/auth/store.go:231-250 | with row read and cache put, and commit and cache clear, as separate steps under a clock that never goes back, a cached answer is the plain answer of the table version read, and was stored in the past, at most one time to live ago |
| TokenStore.SettledAnswersAgree | internal/auth/store.go:329-376 | in every interleaving a cached answer is that of the current table unless a clear is outstanding or the cache was cleared between the entry's row read and its put |
| TokenStore.AcceptedAgreesIff | internal/auth/store.go:219-229 | a bearer the cache accepts gets the verdict of the table exactly when its row is still there |
| TokenStore.CachedAnswerAgreesIff | internal/auth/store.go:213-252 | the same after any interleaving |
| TokenStore.RevokedInTheWindow | internal/auth/store.go:231-250 | a revocation and its clear between the two are missed |
| TokenStore.RowInTheWindow | internal/auth/store.go:314-376 | what any calls between a row read and its put make of the row: gone exactly after a revocation or a rotation of the token, its debug flag the one set last |
| TokenStore.LatePutAgreesIff | internal/auth/store.go:231-250 | after a late put the bearer gets the verdict of the table exactly when the token has expired, or was neither revoked nor rotated in between and has its debug flag as before |
| Scopes.ParseScopes | internal/auth/scopes.go:50-67 | the trimmed non-empty pieces, or the first invalid one |
| Scopes.CheckedIs | internal/auth/scopes.go:61-79 | accepted exactly when all pieces are valid; otherwise the one reported is the first that is not |
| Scopes.ValidScopes | internal/auth/scopes.go:69-79 | the fixed scopes, the wildcard and named workspaces, and nothing else |
| Scopes.GrantsIff | internal/auth/scopes.go:31-47 | a scope grants itself, the wildcard every workspace and nothing else |
| Scopes.TrimKeepsTheInside | internal/auth/scopes.go:57 | trimming drops exactly the surrounding space |
| Scopes.PiecesInOrder | internal/auth/scopes.go:54-66 | blank pieces are dropped, the others trimmed and kept in order |
| Scopes.DedupInPlace | cmd/ccproxy/token.go:126-134 | the loop over its own backing array computes the deduplication |
| Scopes.DedupKeepsFirsts | cmd/ccproxy/token.go:126-134 | one of each, in order of first occurrence |
| Scopes.DedupKeepsHas | internal/auth/scopes.go:31-47 | no permission verdict changes |
| Scopes.ColumnRoundTrip | internal/auth/store.go:507-519 | a joined list of parsed scopes reads back as the same list |
| Scopes.CreatedTokenHasTheScopes | cmd/ccproxy/token.go:121-140 | the list created, with or without deduplication, is the list stored, with the same verdicts; the second ParseScopes accepts it exactly when the first did, or reports the same scope |
| Quota.Limiter.CheckDailyTokens | internal/ratelimit/limiter.go:81-98 | passes exactly below the limit, or without one |
| Quota.Limiter.RecordUsage | internal/ratelimit/limiter.go:102-115 | adds a positive amount to that token and day and leaves all others |
| Quota.Limiter.DailyUsage | internal/ratelimit/limiter.go:119-127 | the day's total, zero without a row |
| Quota.AdmitsIff | internal/ratelimit/limiter.go:81-98 | in every reachable state a request is let through exactly if there is no limit or what was recorded that day is below it |
| Quota.RecordsInFull | internal/ratelimit/limiter.go:102-115 | a positive amount is added to its token and day, in total and in history, and to no other |
| Quota.NewDayStartsAtZero | internal/ratelimit/limiter.go:85-98 | a new day starts at zero for every token and lets its first request through |
| Quota.OvershootIsBounded | internal/server/chat.go:54-61 | in every interleaving the total is the sum recorded that day, and below the limit plus what has been recorded since the last passing check by the requests then in flight or let through later because the check's query failed |
| Quota.OvershootPerRequest | internal/server/chat.go:409-427 | with one recording per request, the overshoot is below one maximal amount per such request |
| RingBuffer.WriteOne | internal/claude/ringbuffer.go:22-29 | one byte drops the oldest once the buffer is full, wrapping at the end |
| RingBuffer.Ring.Write | internal/claude/ringbuffer.go:19-31 | everything written is accounted for |
| RingBuffer.Ring.String | internal/claude/ringbuffer.go:33-43 | exactly the last bytes written, as many as the capacity, in order |
| LineReader.ReadWholeLine | internal/claude/spawn.go:258-275 | however the reader cuts it, between two carriage returns too, the next line comes back whole and nothing of the following one is consumed |
| LineReader.ReadEvents | internal/claude/spawn.go:202-254 | each non-empty line gives exactly one event in order, then the read and exit errors; none is lost at the end |
| LineReader.LineIsParsed | internal/claude/spawn.go:209-223 | a line that parses gives its event, another non-empty one a parse error |
| LineReader.EndIsReported | internal/claude/spawn.go:224-252 | a read error and a failed exit are each reported at the end |
| LineReader.LinesCoverTheStream | internal/claude/spawn.go:256-275 | the lines with their terminators are the whole stream, each line being its part without "\r\n" or else "\n" |

## Left out

- Websocket, HTTP, SSE, SQLite and JSON encoding: the wire is a bag of frames, tables are maps. Malformed,
  unknown and daemon-issued request frames, and a daemon's bye, appear as the read loop exiting or `Close` beginning.
- `nextID` is an unbounded counter: the wrap-around of a 64-bit counter is not modelled. Watch events, connection metrics and logging are not modelled.
- Write deadlines and the request context of `Call`: a write can fail, sent or not, and a waiting call can time out, at any moment.
- Translate.Translator.UserResults: the wording of tool results and of narrated tool inputs is carried by the event, because stripping reminders, truncating and Go's map order are presentation.
- Strings are sequences of characters: the byte length of a bearer with characters outside ASCII is not modelled.
- Chunk ids, model names and creation times: copied unchanged into every chunk.
- StatCache.CachedGetattrIsCurrent: a failed RPC is taken to have left the tree unchanged, although a call that timed out may have been carried out; edits on the daemon's side and links are excluded.
- Readdir and Read of the FUSE layer, mounting and the mount manager: they keep no state of their own, or depend on foreign calls.
- PathClamp.ResolveClamps: symbolic links; and the library functions Clean, Join and Rel are given by their documented results.
- StatRace.SettledEntriesAgree: for paths a directory rename carries along see `StatCache.RenameAgreesIff`.
- StatCache.PathOpKeepsAgreement: permissions are not consulted; a chmod that takes search permission from a directory makes a direct stat below it fail, while the cache still answers.
- StatCache.FuseFS.GetAttr: the stat reply and its put are one step in this method; `StatRace` takes them apart.
- TokenStore.LatePutAgreesIff: in the window no call hands out the prefix of the bearer again, prefixes being random; `TokenStore.CachedAnswerAgreesIff` does without.
- FileBytes.FSHandlers.Write: an operating-system error occurs before anything is touched; a disk filling up during a write is not modelled.
- Quota.OvershootIsBounded: the bound is stated for days on which some check passed; requests carried over midnight can record on a day without one. Usage whose recording fails is not counted, as in the code.
- The requests-per-minute bucket: x/time/rate is not part of this model.
- TokenStore.TokenDb.Auth: one clock reading per call, in whole seconds; constant-time comparison is equality.
- LineReader.ReadEvents: after its end the reader keeps reporting the same end; the captured standard error in an event is omitted.
- Confirmation prompts, exec, chmod modes, subprocess signals, mount resolution and the precedence of headers and defaults: each is settled by reading one function or belongs to the operating system.
