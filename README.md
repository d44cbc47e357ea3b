# ampi backend, modelled in Dafny

ampi is a GTK front panel for a guitar amplifier running on a small Linux
box. Behind its tabs sit the logic modelled here:

- a Jack wiring engine that keeps the audio graph connected as a named
  configuration says;
- a JSON-RPC client for the Guitarix amplifier, with its table of pending
  calls, its request ids, its line framing of received bytes and its
  observers;
- a process supervisor (`Nanny`) that starts, stops and restarts a child
  process and watches its output, together with a `/proc` process finder;
- the backing-track player of the tracks tab, which drives an mplayer-style
  slave process through text commands;
- the USB audio interface monitor;
- the colour of log lines in the log view.

Threads, sockets, subprocesses, timers and widgets are replaced by values
and explicit events. Examples: whether a spawn succeeds, a chunk a reader
thread has read, a reader thread's exit, the list of udev devices, the
ports and connections of the Jack server. Each source file is one module:

| module | file | source |
|---|---|---|
| `Common` | common.dfy | shared helpers: `Option`, bytes, `split`/`join` on a separator, `os.path.basename`, decimal numerals |
| `Jack` | jack.dfy | `ampi_app/jack.py` |
| `Guitarix` | guitarix.dfy | `ampi_app/guitarix.py` |
| `Proc` | proc.dfy | `ampi_app/proc.py` |
| `Tracks` | tracks.dfy | `ampi_app/tracks_tab.py` |
| `Dev` | dev.dfy | `ampi_app/dev.py` |
| `LogColors` | logcolors.dfy | `ampi_app/main.py` (the `TextBufferHandler` colour and tag logic) |

**Jack.** A configuration is a list of (kind, source, destination) rules.
`Compile` turns it into the two tables `source_wiring` and `sink_wiring`.
Reconciling a port against its entry has three parts:
- `Diff`: the operations the reconciliation issues.
- `Apply`: their effect on the connection set.
- `Reconciled`: the intended graph.

`ApplyDiff` proves that the operations give the intended graph.
`ReconcileIdempotent` proves that a second pass issues nothing.
`Phase` describes a whole pass of `apply_wiring` over one side. The client
class `JackClient` compiles the tables with the loop of the source, except
that a rule without a far endpoint stores an empty set where the source
stores the empty dict `{}` (see Findings). `ShippedConfigsCompile` shows
that the two differ on no shipped configuration. The client reconciles each
port against a `Server` object that records every connect and disconnect.

**Guitarix.** Messages are JSON values, not text. The reader loop of `_run`
has a pure specification (`LineStep`, `ProcessLines`) and a method that
follows the loop (`HandleLines`). The `Client` class holds the `_results`
table, the `_req_id` counter, the observers and the reader's buffer. Two
defects of the source are modelled as written, and proved:

- `_handle_error` builds its exception from the undefined name `result`
  (ampi_app/guitarix.py:245). An error response for a pending call
  therefore raises `NameError` in the reader thread. The call stays
  pending, and the reader ends with its socket still open
  (`ErrorResponseKillsReader`).
- After a line that does not parse, `_run` still handles `msg`
  (ampi_app/guitarix.py:186-191).
  - If an earlier line of the same reader parsed, `msg` is that earlier
    message, which is handled a second time (`ParseErrorRepeatsMessage`).
  - If no line has parsed yet, `msg` is unbound and the reader dies
    (`FirstParseErrorKillsReader`).

Both defects apply to the model as a whole, since the model keeps them.

**Proc.** `_log_output` creates a fresh `threading.local()` on every call,
so the partial line at the end of one chunk is dropped rather than joined
with the next chunk (ampi_app/proc.py:219-227). The model keeps that
behaviour: `LogLines` works on one chunk alone, and `SplitLineLosesHead`
exhibits a line split across two chunks that is logged only from its second
part.

`Nanny.write` on a child started without an input pipe takes the
child's `stdin`, which is then `None`, and calls `write` on it. That raises
`AttributeError` (ampi_app/proc.py:207-216), and `Write` returns
`PipeMissing` for it.

A reader thread that outlives `stop` (its join timed out) and ends after a
new `start` clears the new child. The nanny then reports the child gone
while it runs (`StaleReaderClearsNewChild`).

**Tracks.** The player commands, `_load_track` and the play toggle are
methods of `TracksTab` over a `Proc.Nanny` started with an input pipe. The
lines the player receives are proved equal to `CommandLine`/`LoadCommands`,
and `CommandWords` proves that the player reads back the words that were
sent.

**Dev, LogColors.** `is_present` and the colour search of `_get_tag` are
loops proved equal to declarative definitions (`AnyRelevant`, `Bucket`).
The tag cache is a class whose tags are exactly the ones created on the
buffer.

## Model

| member | source | states |
|---|---|---|
| `Jack.GetWirings` | ampi_app/jack.py:162-163 | the configuration names, exactly and in `WIRING` order |
| `Jack.CompileKeys` | ampi_app/jack.py:42-52 | a table has an entry for a (kind, port) exactly when some rule names that port on that side |
| `Jack.CompileEntries` | ampi_app/jack.py:42-52 | a peer is in an entry iff some rule adds it and no later rule of that port lacks the far endpoint (a reset overwrites earlier peers) |
| `Jack.AddedLiveStep` | ampi_app/jack.py:42-52 | one more rule: a reset of the entry leaves no peer added, a rule adding the peer adds it, any other rule changes nothing |
| `Jack.RuleWithBothEndpoints` | ampi_app/jack.py:43-50 | a rule with both endpoints adds the far endpoint to the near one's entry and leaves every other entry alone |
| `Jack.AsWrittenAgrees` | ampi_app/jack.py:42-52 | whenever the loop as written finishes, its table (with `{}` read as empty) equals the corrected one |
| `Jack.AsWrittenSucceeds` | ampi_app/jack.py:42-52 | the loop as written finishes when no rule adds to an entry an earlier rule reset, and the entries left as `{}` are the reset ones |
| `Jack.ShippedNoAddAfterReset` | ampi_app/jack.py:11-25 | in both shipped configurations, on both sides, no reset is followed by an add to the same entry |
| `Jack.ShippedConfigsCompile` | ampi_app/jack.py:11-57 | both shipped configurations compile as written on both sides, to exactly the tables `LoadConfig` stores |
| `Jack.ResetThenAddFails` | ampi_app/jack.py:45-47 | a reset followed by a rule for the same port fails as written (adding to the dict `{}`), while the corrected table holds the later peer |
| `Jack.RuleFor` | ampi_app/jack.py:96-106 | a port has rules iff its type is audio or midi and the table has an entry for (kind, name) |
| `Jack.DiffOps` | ampi_app/jack.py:107-121 | a reconciliation of a port issues only operations at that port: a disconnect exactly for each connected peer not wanted, a connect exactly for each wanted existing peer not yet connected |
| `Jack.ApplyDiffEdges` | ampi_app/jack.py:109-121 | issuing the diff removes exactly the edges to dropped peers and adds exactly the edges to joined peers |
| `Jack.DiffReconciles` | ampi_app/jack.py:109-121 | dropping the unwanted peers and joining the missing existing ones gives the reconciled graph |
| `Jack.ApplyDiff` | ampi_app/jack.py:109-121 | applying the operations one reconciliation issues yields exactly the reconciled graph |
| `Jack.ReconciledPeers` | ampi_app/jack.py:109-121 | after reconciliation the port's peers are the wanted peers it had plus the wanted peers that exist |
| `Jack.ReconcileIdempotent` | ampi_app/jack.py:109-121 | a second reconciliation with no external change issues no operation |
| `Jack.EmptyEntryDisconnectsAll` | ampi_app/jack.py:46-47 | a port whose entry is empty keeps no connections after reconciliation |
| `Jack.ReconcileIsLocal` | ampi_app/jack.py:109-121 | connections not at the reconciled port are kept or absent exactly as before |
| `Jack.ReconcileExample` | ampi_app/jack.py:109-121 | rule A to {B, C} with A-B and A-D connected and C existing: exactly disconnect A-D and connect A-C |
| `Jack.PhaseEmpty` | ampi_app/jack.py:157-160 | a pass over no ports changes nothing |
| `Jack.PhaseStep` | ampi_app/jack.py:157-160 | reconciling one more governed port extends the pass by exactly that port |
| `Jack.PhaseSkip` | ampi_app/jack.py:96-105 | a port of unknown type or without rules leaves the pass unchanged |
| `Jack.PhaseSettles` | ampi_app/jack.py:157-160 | after a whole pass, re-reconciling any governed port of that side issues nothing |
| `Jack.Server.ConnectPorts` | ampi_app/jack.py:121 | the connection is added and logged, ports unchanged |
| `Jack.Server.DisconnectPorts` | ampi_app/jack.py:112 | the connection is removed and logged, ports unchanged |
| `Jack.JackClient.constructor` | ampi_app/jack.py:28-36 | disconnected, status "disconnected" reported when a callback is set, first configuration loaded |
| `Jack.JackClient.LoadConfig` | ampi_app/jack.py:38-57 | the name and both compiled tables are stored; when connected the whole graph is rewired |
| `Jack.JackClient.LoadWiring` | ampi_app/jack.py:165-169 | found iff a shipped configuration has that name, whose tables are then stored and, when connected, the graph rewired; otherwise (KeyError) name, tables, ports, edges and the operation log are unchanged |
| `Jack.JackClient.Connect` | ampi_app/jack.py:59-80 | already connected: nothing; connected iff opening and activating succeed, then "connected" reported and every port wired; on failure the server is untouched |
| `Jack.JackClient.PortRegistered` | ampi_app/jack.py:85-93 | unregistration changes nothing; an output port is reconciled as a source, otherwise an input port as a sink |
| `Jack.JackClient.ReconcilePort` | ampi_app/jack.py:95-121 | no rule: nothing; otherwise the graph becomes `Reconciled` and the operations logged are exactly the `Diff` |
| `Jack.JackClient.DropUnwanted` | ampi_app/jack.py:107-112 | exactly the current peers that are not wanted are disconnected and logged |
| `Jack.JackClient.JoinMissing` | ampi_app/jack.py:113-121 | exactly the wanted peers not connected before and existing are connected and logged |
| `Jack.JackClient.ReconcileAll` | ampi_app/jack.py:157-160 | the graph after reconciling every port of one side is that side's `Phase`; the log only grows |
| `Jack.JackClient.ApplyWiring` | ampi_app/jack.py:151-160 | no-op when disconnected; otherwise the graph after the source pass then the sink pass |
| `Guitarix.Lookup` | ampi_app/guitarix.py:212-213 | a member is found iff the object has that key, and the value found is the key's |
| `Guitarix.In` | ampi_app/guitarix.py:198-204 | `key in msg` is defined on strings, arrays and objects and raises on anything else |
| `Guitarix.RequestShape` | ampi_app/guitarix.py:110-117 | an outgoing message has "jsonrpc" "2.0", the method and the params, and an "id" only for a call |
| `Guitarix.RequestId` | ampi_app/guitarix.py:142-143 | an id is a non-empty decimal numeral |
| `Guitarix.RequestIdsDiffer` | ampi_app/guitarix.py:142-143 | different counter values give different ids |
| `Guitarix.Broadcast` | ampi_app/guitarix.py:106-108 | one `gx_<event>` callback per observer, in registration order |
| `Guitarix.Arguments` | ampi_app/guitarix.py:200 | missing params give no arguments; params that cannot be unpacked raise |
| `Guitarix.HandleReply` | ampi_app/guitarix.py:210-246 | no id: logged; an unhashable id (list or object): raises; a result for a pending id resolves it with the result's value; an error for a pending id raises NameError; an unknown or answered id, or an id of another type: logged |
| `Guitarix.React` | ampi_app/guitarix.py:197-208 | a message resolves a call only if it has no "method" and the call is pending |
| `Guitarix.Dispatch` | ampi_app/guitarix.py:191 | handling a message never adds entries, never changes an answered entry, only appends events, and records the message |
| `Guitarix.LineStep` | ampi_app/guitarix.py:186-191 | one line keeps the same progress guarantees, including after a parse error |
| `Guitarix.ProcessLines` | ampi_app/guitarix.py:184-191 | the lines of a buffer, in order, keep the same progress guarantees |
| `Guitarix.ResultResolves` | ampi_app/guitarix.py:198-226 | any object without "method" whose "result" and "id" answer a pending call resolves exactly that call with the value |
| `Guitarix.StaleResultIgnored` | ampi_app/guitarix.py:198-246 | any result or error without "method" for an unknown or already answered id changes nothing |
| `Guitarix.ResultBeforeError` | ampi_app/guitarix.py:202-205 | a reply with both "result" and "error" is handled as a result, and raises only for an unhashable id |
| `Guitarix.UnexpectedIgnored` | ampi_app/guitarix.py:206-208 | an object with none of "method", "result" and "error" is only logged |
| `Guitarix.ServerReplyResolves` | ampi_app/guitarix.py:198-226 | a reply `{"jsonrpc": "2.0", "result": v, "id": k}` to a pending call resolves it with v |
| `Guitarix.ErrorResponseKillsReader` | ampi_app/guitarix.py:198-246 | any object with "error" and "id" but no "method" or "result" for a pending call ends the reader and leaves the call pending |
| `Guitarix.MethodFirst` | ampi_app/guitarix.py:198-203 | a message holding both "method" and "result" resolves nothing |
| `Guitarix.RequestIsMethodMessage` | ampi_app/guitarix.py:198-201 | a message of the client's own request shape would be delivered to the observers as a notification |
| `Guitarix.ParseErrorRepeatsMessage` | ampi_app/guitarix.py:186-191 | a line that does not parse delivers the previous message's events a second time |
| `Guitarix.FirstParseErrorKillsReader` | ampi_app/guitarix.py:186-191 | a parse error before any line has parsed ends the reader |
| `Guitarix.HandleLines` | ampi_app/guitarix.py:184-191 | the loop over the complete lines, stopping at the first exception, ends in `ProcessLines` of them |
| `Guitarix.ProcessLinesAppend` | ampi_app/guitarix.py:180-192 | a list of complete lines split into two parts and processed one part after the other gives the same state as processing the whole list |
| `Guitarix.Normalize` | ampi_app/guitarix.py:39-44 | a string is one token, an iterable its set of items, None or an empty iterable none |
| `Guitarix.Register` | ampi_app/guitarix.py:46-50 | the observer's tokens become old tokens plus new; others unchanged; a new observer is appended |
| `Guitarix.RegisterKeepsDistinct` | ampi_app/guitarix.py:47-50 | each observer appears once after registering |
| `Guitarix.TokensOfAbsent` | ampi_app/guitarix.py:47 | an observer has no tokens iff it is not registered |
| `Guitarix.Listens` | ampi_app/guitarix.py:74-76 | at most one `listen` per observer, never an empty one |
| `Guitarix.ListensAppend` | ampi_app/guitarix.py:74-76 | subscriptions follow registration order: those of two registries in a row are the first's, then the second's |
| `Guitarix.ListensCovers` | ampi_app/guitarix.py:74-76 | every observer with tokens has its set subscribed to, and every subscription is some observer's set |
| `Guitarix.FailPending` | ampi_app/guitarix.py:91-95 | same ids; each pending entry becomes the "Disconnected" error, each answered entry stays as it was |
| `Guitarix.NoResolveAfterDisconnect` | ampi_app/guitarix.py:91-95 | after a disconnect no late result resolves anything |
| `Guitarix.FailPendingIdempotent` | ampi_app/guitarix.py:91-95 | disconnecting twice is disconnecting once |
| `Guitarix.FreshId` | ampi_app/guitarix.py:142-146 | the next id is not in the table, and every id in it was issued since the start |
| `Guitarix.TakeId` | ampi_app/guitarix.py:136-146 | below 100 pending calls, the next id is new and the table with or without it stays within 100 issued ids |
| `Guitarix.Client.constructor` | ampi_app/guitarix.py:27-36 | disconnected, no pending calls, no observers, counter at its starting value |
| `Guitarix.Client.CallObservers` | ampi_app/guitarix.py:106-108 | appends exactly the broadcast events; nothing else changes |
| `Guitarix.Client.ListenAll` | ampi_app/guitarix.py:74-76 | appends exactly the `listen` calls for the observers' tokens |
| `Guitarix.Client.AddObserver` | ampi_app/guitarix.py:38-54 | registers the normalised tokens; when connected subscribes to them and tells that observer "connected" |
| `Guitarix.Client.Disconnect` | ampi_app/guitarix.py:83-96 | socket dropped, every pending call failed with "Disconnected", every observer told |
| `Guitarix.Client.Connect` | ampi_app/guitarix.py:59-77 | connected: nothing; half-open: torn down first; on success connected with an empty buffer, subscriptions made, observers told |
| `Guitarix.Client.SendCall` | ampi_app/guitarix.py:110-128 | no socket: "Disconnected", nothing sent; socket error: nothing sent; otherwise exactly the request is sent |
| `Guitarix.Client.Notify` | ampi_app/guitarix.py:130-133 | a request without an id, with the errors of `_send_call` |
| `Guitarix.Client.BeginCall` | ampi_app/guitarix.py:135-148 | 100 pending: refused unchanged; otherwise the counter rises by one and a fresh id is pending while its request is sent, or removed when sending fails |
| `Guitarix.Client.FinishCall` | ampi_app/guitarix.py:149-164 | the entry is removed on every path; its value is returned, its error raised, or a timeout raised if nothing came |
| `Guitarix.Client.ReaderReceive` | ampi_app/guitarix.py:180-192 | the complete lines of buffer plus chunk are processed in order and the partial line is kept; an exception ends the reader without disconnecting |
| `Guitarix.Client.ReceiveLines` | ampi_app/guitarix.py:183-192 | with a newline in the data: its complete lines are processed and the partial line is kept, or the reader ends |
| `Guitarix.Client.ReaderExit` | ampi_app/guitarix.py:193-195 | the reader disconnects the client and clears its thread |
| `Proc.CommandName` | ampi_app/proc.py:36 | the command line up to, not including, its first NUL |
| `Proc.Listed` | ampi_app/proc.py:20-44 | a directory is listed iff it is a directory with a numeric name and a readable cmdline, with that name and exe |
| `Proc.ListedPid` | ampi_app/proc.py:24-27 | the directory named by pid n lists pid n |
| `Proc.List` | ampi_app/proc.py:19-44 | exactly the listable directories are listed |
| `Proc.Find` | ampi_app/proc.py:45-53 | a process is found iff it is listed and matches the query |
| `Proc.FindAppend` | ampi_app/proc.py:45-53 | `find` filters entry by entry and keeps list order |
| `Proc.BareNameMatches` | ampi_app/proc.py:51-52 | a bare name finds the process named so or started by a path ending in it |
| `Proc.PathQueryIsExact` | ampi_app/proc.py:47-49 | a query with '/' matches iff name or exe equals it |
| `Proc.StripCR` | ampi_app/proc.py:230 | the longest prefix not ending in carriage returns, the rest being all carriage returns |
| `Proc.LogLines` | ampi_app/proc.py:218-231 | the logged lines are the chunk's complete lines with trailing carriage returns stripped |
| `Proc.PartialChunkLogsNothing` | ampi_app/proc.py:226-229 | a chunk without a newline logs nothing |
| `Proc.SplitLineLosesHead` | ampi_app/proc.py:219-227 | a line split across two chunks is logged only from its second part |
| `Proc.LogLinesAtLineEnd` | ampi_app/proc.py:226-231 | chunks cut at line ends log the same lines as the whole |
| `Proc.Nanny.constructor` | ampi_app/proc.py:98-116 | not started, not meant to run, and the kill list killed |
| `Proc.Nanny.Start` | ampi_app/proc.py:121-165 | a no-op while started; otherwise the kill list is killed and, if spawning works, a child and two fresh readers exist, the flag is set and `callback(True)` reported |
| `Proc.Nanny.Spawn` | ampi_app/proc.py:133-165 | a child and two readers with fresh handles, the flag set, `callback(True)` reported |
| `Proc.Nanny.LetItStop` | ampi_app/proc.py:167-168 | only the flag is cleared |
| `Proc.Nanny.Stop` | ampi_app/proc.py:170-205 | flag cleared, not started, a child terminated if there was one, kill list killed |
| `Proc.Nanny.Write` | ampi_app/proc.py:207-216 | no child: nothing; no input pipe: AttributeError; otherwise the data is written |
| `Proc.Nanny.ReaderOutput` | ampi_app/proc.py:143-147 | standard output goes to `stdout_callback` when set; otherwise lines are logged at INFO (stdout) or WARNING (stderr) |
| `Proc.Nanny.ReaderExit` | ampi_app/proc.py:247-266 | the reader's own handle is cleared; the first to find a child clears it, reports `callback(False)` and schedules a restart iff it should be running |
| `Proc.Nanny.ClearThread` | ampi_app/proc.py:247-252 | the ending reader is gone and clears its handle only if it is the current stdout or else stderr reader |
| `Proc.Nanny.ChildExited` | ampi_app/proc.py:254-266 | no child: nothing; otherwise the child is cleared, `callback(False)` reported and a restart scheduled iff it should be running |
| `Proc.Nanny.RestartIfNeeded` | ampi_app/proc.py:268-278 | nothing unless it should run, there is no child and it is not started; then, as `start`, the kill list is killed, and a working spawn gives a child and two fresh readers and reports `callback(True)` while a failed one leaves it not started |
| `Proc.Nanny.Restart` | ampi_app/proc.py:280-283 | stop if started (terminating the child, killing the kill list, clearing the flag), then start; started and meant to run iff the spawn works; `callback(True)` only then; nothing written, logged or scheduled |
| `Proc.BothReadersExit` | ampi_app/proc.py:247-266 | for any running child, its two readers exiting in either order report `callback(False)` once, schedule one restart iff it should run, and leave the nanny not started |
| `Proc.StaleReaderClearsNewChild` | ampi_app/proc.py:247-258 | a reader of a stopped child that ends after a restart clears the new child |
| `Tracks.CommandLine` | ampi_app/tracks_tab.py:120-124 | the line ends in a newline and before it holds the joined arguments, prefixed with "pausing " when not playing and not "pause" |
| `Tracks.CommandWords` | ampi_app/tracks_tab.py:120-124 | for space-free arguments the player reads back exactly the arguments, after "pausing" when prefixed |
| `Tracks.FirstWord` | ampi_app/tracks_tab.py:120-124 | a space-free word and a space split off as the first word |
| `Tracks.PrefixedLine` | ampi_app/tracks_tab.py:121-124 | a prefixed command line starts with "pausing " |
| `Tracks.PauseIsPlain` | ampi_app/tracks_tab.py:121-122 | "pause" is never prefixed |
| `Tracks.LoadKeepsPaused` | ampi_app/tracks_tab.py:129-135 | four commands with a file, else one; "stop" prefixed iff not playing, every later command prefixed |
| `Tracks.LastIndex` | ampi_app/tracks_tab.py:184 | the position of the last occurrence, or none iff the character does not occur |
| `Tracks.LastIndexIs` | ampi_app/tracks_tab.py:184 | a character with none after it is the last occurrence |
| `Tracks.StripExt` | ampi_app/tracks_tab.py:184 | a prefix of the name; when shorter it ends before the last '.' and is not all dots |
| `Tracks.StripExtOf` | ampi_app/tracks_tab.py:184 | `<stem>.<ext>` loses exactly the extension when the stem is not all dots |
| `Tracks.DisplayName` | ampi_app/tracks_tab.py:184-185 | no '/' and no '_' in the shown name, never longer than the base name |
| `Tracks.DisplayNameOfTrack` | ampi_app/tracks_tab.py:184-185 | `<dir>/<stem>.<ext>` is shown as the stem with spaces for underscores |
| `Tracks.TrackList` | ampi_app/tracks_tab.py:178-187 | exactly the regular, non-hidden files, each with its display name |
| `Tracks.TracksTab.constructor` | ampi_app/tracks_tab.py:26-97 | a player nanny with an input pipe, not started; not playing, no track, title "-- no track --", Play and Stop disabled |
| `Tracks.TracksTab.PlayerCommand` | ampi_app/tracks_tab.py:117-127 | the player receives exactly the command line when a child runs, nothing otherwise; whether a child runs, the started state and every other field of the nanny are unchanged |
| `Tracks.TracksTab.LoadTrack` | ampi_app/tracks_tab.py:129-135 | not playing afterwards; the player receives exactly `LoadCommands` when a child runs, nothing otherwise; every other field of the nanny, the track, title, buttons and reloads unchanged |
| `Tracks.TracksTab.StopTrack` | ampi_app/tracks_tab.py:130-131 | "stop" sent with the old playing state when a child runs, then not playing; every other field of the nanny and of the tab unchanged |
| `Tracks.TracksTab.SendFile` | ampi_app/tracks_tab.py:133-135 | the player receives exactly the three file commands when a child runs, nothing otherwise; every other field of the nanny unchanged |
| `Tracks.TracksTab.UpdateButtonStates` | ampi_app/tracks_tab.py:137-143 | raises without a player; otherwise enabled iff started and a track is selected |
| `Tracks.TracksTab.PlayClicked` | ampi_app/tracks_tab.py:151-153 | `playing` negated, then "pause" sent unprefixed when a child runs; track, title, buttons, reloads, whether a child runs and every other field of the nanny unchanged |
| `Tracks.TracksTab.TrackSelected` | ampi_app/tracks_tab.py:158-165 | track remembered and shown; buttons updated; when started the track is loaded (not playing, `LoadCommands` sent if a child runs); otherwise `playing` unchanged; nothing sent without a child; when it raises the buttons are unchanged; no reload scheduled; whether a child runs and every other field of the nanny unchanged |
| `Tracks.TracksTab.PlayerOutput` | ampi_app/tracks_tab.py:167-172 | the pause marker clears `playing`; otherwise an empty line or blank output schedules a reload |
| `Tracks.TracksTab.StopPlayer` | ampi_app/tracks_tab.py:103-106 | the nanny is stopped and dropped; playing state, track, title, buttons and reloads unchanged |
| `Dev.Uevent` | ampi_app/dev.py:17-29 | presence for a relevant add or change, absence for a relevant remove, nothing otherwise |
| `Dev.Callbacks` | ampi_app/dev.py:24-29 | the callback is called once with that report when set, never otherwise |
| `Dev.IsPresent` | ampi_app/dev.py:31-37 | true iff some device is a USB sound card |
| `Dev.AddedDeviceIsPresent` | ampi_app/dev.py:21-25 | the device of a presence report makes `is_present` true once listed |
| `Dev.RemovedDeviceIsAbsent` | ampi_app/dev.py:26-37 | removing the only relevant device leaves none present |
| `Dev.IrrelevantDeviceIgnored` | ampi_app/dev.py:21 | other devices report nothing and do not change presence |
| `LogColors.ThresholdsIncrease` | ampi_app/main.py:24-30 | the `LOG_COLORS` thresholds strictly increase |
| `LogColors.BucketFrom` | ampi_app/main.py:45-50 | the downward search finds the last threshold at most the level, else the first entry |
| `LogColors.Bucket` | ampi_app/main.py:45-50 | the entry whose interval holds the level, the first taking all below, the last all above |
| `LogColors.ColorSearch` | ampi_app/main.py:45-50 | the upward search of `_get_tag` gives the colour of the level's bucket |
| `LogColors.BucketUnique` | ampi_app/main.py:45-50 | only one entry's interval holds a level |
| `LogColors.BelowInfoIsGrey` | ampi_app/main.py:45-48 | levels below INFO, including below DEBUG, are "#505050" |
| `LogColors.CriticalIsRed` | ampi_app/main.py:49-50 | levels from CRITICAL up are "#ff0000" |
| `LogColors.GreatestThresholdBelow` | ampi_app/main.py:45-48 | between DEBUG and CRITICAL the colour is that of the greatest threshold not above the level |
| `LogColors.BucketMonotone` | ampi_app/main.py:45-50 | a higher level never falls in a lower bucket |
| `LogColors.TagName` | ampi_app/main.py:51 | the tag is named "log_level_" and the level |
| `LogColors.NumeralSign` | ampi_app/main.py:51 | a level's numeral starts with '-' iff the level is negative |
| `LogColors.TagNamesDistinct` | ampi_app/main.py:51 | distinct levels give distinct tag names |
| `LogColors.TextBufferHandler.constructor` | ampi_app/main.py:36-39 | no cached tags, none created |
| `LogColors.TextBufferHandler.GetTag` | ampi_app/main.py:41-54 | a known level returns the cached tag and creates none; a new one creates and caches a tag with the level's name and colour |

## Left out

- Concurrency: the locks, the condition variable a call waits on, the 10 s
  call timeout and the thread joins. Events happen one at a time. The
  results of a wait are the three outcomes of `FinishCall`. The race in
  `call` is not modelled: it checks the 100-entry cap outside the lock.
- Sockets, `json.dumps`/`json.loads` and UTF-8 decoding. Messages are
  values. A received line's decoding is a function parameter, so the bytes
  of a request are not modelled.
- `GuitarixMethods` and the `api.listen(*tokens)` call. A `listen` is
  recorded as the token set it subscribes to.
- The observer `getattr` dispatch: a scheduled callback is recorded for
  every observer, whether or not it has a `gx_<event>` method.
- The order in which members of a received object were written, and
  duplicate keys. Objects are member lists, and lookup takes the first
  member with the key.
- `int()` on directory names accepts only non-empty digit runs in the
  model. Python also accepts signs, surrounding white space and
  underscores.
- Decoding of `cmdline` and `readlink`: names are strings.
- `killall` as an effect: the names passed to it are recorded. Signals,
  polling and the wait for processes to die are not modelled.
- `subprocess.Popen`, `os.kill`, `time.sleep` and the `/proc` reads are
  replaced by parameters (`spawnOk`, the directory listing).
- The order of the connect and disconnect calls within one reconciliation.
  The log of one reconciliation is compared with `Diff` as a set.
- Jack's port lookup `get_port_by_name` is modelled as "the name is an
  existing port". Errors of `jack.Client`, `activate` and `close` are
  parameters of `Connect`.
- GLib `idle_add`/`timeout_add`: a scheduled `restart_if_needed` or
  `_load_track` is counted (`restartsScheduled`, `pendingReloads`), not
  run.
- The nanny's `callback` into the tracks tab (`_update_player_status`). It
  is a separate call to `UpdateButtonStates`.
- Floating-point formatting of volume and tempo: command arguments are
  strings.
- The GTK widgets and the layout code of the tabs and the main window.
- `update_jackd_proc_status`, `_volume_changed`, `_tempo_changed` and
  `_stop_clicked` are calls of the modelled operations from timers and
  widgets.
- `os.path.splitext` is modelled for base names only, which is the only
  way `update_tracklist` uses it.
- `Jack.Server.ConnectPorts`: never fails. `jack.connect` can raise
  `JackError` (ampi_app/jack.py:121, 149), which would end the rest of that
  reconciliation and of the pass. The Jack server's refusals are not
  modelled.
- `Jack.Server.DisconnectPorts`: never fails, although `jack.disconnect`
  can raise `JackError` (ampi_app/jack.py:112, 140), for the same reason.
- `Proc.Nanny.Write`: never raises `OSError`. Writing to or flushing the
  pipe of a child that has died can raise it (ampi_app/proc.py:215-216).
  The pipe is not modelled. `Tracks.TracksTab.PlayerCommand` therefore never
  takes its branch that logs that error (ampi_app/tracks_tab.py:125-127).
- `Tracks.CommandWords`: proved for arguments without spaces only. A track
  file name holding a space is sent unquoted (ampi_app/tracks_tab.py:120,
  133), and the player reads it as several words.
- `Proc.Nanny.Stop`: keeps every reader thread among `readers`, not only
  the threads that outlive the join timeout. A reader that ends during the
  join is modelled by its `ReaderExit` after `Stop`, which has the same
  effect on the nanny. `StaleReaderClearsNewChild` is therefore an
  over-approximation for a reader that really died within the timeout.
  The warning it logs is not modelled.

## Findings

| source | as written | input that shows it | evidently intended | confidence | as-written member | corrected member |
|---|---|---|---|---|---|---|
| ampi_app/jack.py:47 | a rule without a destination stores `{}` (an empty dict) as the source's entry, so a later rule for the same source calls `add` on a dict and raises AttributeError; the same happens for sinks at line 52 | rules `("audio", "A", None)` then `("audio", "A", "B")` | `set()`, so that the later rule adds B to an emptied entry | not executed | `Jack.ResetThenAddFails` | `Jack.CompileEntries` |
