# Tethra verification

A Dafny model of the stateful parts of Tethra, an SSH client with synced vault and
agent sessions, with proofs of what every run of them guarantees.

| module | models |
|---|---|
| `Osc133`, `OutputPump`, `LocalPty` | the path of terminal output: local reader, mark scanner, batching pump with backpressure |
| `PromptPanel` | the input box with optimistic echo, slash commands and uncover fallback |
| `InputChain` | the per-session promise chain in front of the backend |
| `MarkFeed` | the replay splitter of the browser harness |
| `SyncFilter` | the filter for synchronized terminal updates |
| `PromptBroker`, `Debounce` | host-key prompts and debounced background sync under every interleaving |
| `SyncEngine`, `SyncHistory` | last-write-wins sync of vault rows between devices through a directory backend, under every interleaving of edits, pulls and pushes |
| `DeviceAuth`, `SyncServer` | sessions, rate limiter and authorization gate of the sync server |
| `SshConfig`, `Versions`, `QuickConnect`, `SessionWatch` | configuration import, release order, quick connect, watch reports and attention |

Each component is stated twice: as functions on a state value, about which the theorems are
proved, and as a class or loop in the form of the source whose contract ties it to those
functions; the straight-line methods of `PromptBroker.Desk`, `InputChain.InputChains` and
`Debounce.Scheduler` each equal one branch of the step function and have no row below. Runs are sequences of atomic steps (a lock-protected section, a callback, a
message, a key) in any order the source allows. `dafny verify dfyconfig.toml` checks
everything.

Statements that turned out not to hold in general are kept as the code has them, with the
exact condition and a failing input:

- the first block event of a message is placed behind its own bytes only if the backlog fits
  one chunk (`AlignedIffBacklogFits`, `EarlyEventsAreCounted`, `MisplacedMark`);
- the mark scanner misses a mark behind an ESC without partner or behind an unterminated OSC
  sequence (`MarkSeenIffGround`, `MarkSeenIff`, `DoubledEscHidesMark`, `OpenOscHidesMark`);
- the replay splitter is chunk-independent only for marks ended by BEL, of at most 25 bytes
  and on one line (`ChunkIndependentIffSafe`, `CutLosesMark`);
- the terminal filter doubles the 65th parameter byte of a control sequence
  (`PassesUnchangedIff`, `OverlongDoublesByte`);
- a slow but honest echo on an empty line uncovers the prompt (`HonestUncoversIff`,
  `SlowEchoUncovers`), and a spent grace counter outlives an Enter or a session change
  (`GraceHoldsIff`, `SpentGraceSurvives`);
- concurrent edits with equal version and time never converge: PROJECT.md lines 286-287
  promise a third tie-break by id, but both copies have the same id and the code keeps the
  local one (`ContentsAgreeIff`, `TiedStaysApart`);
- a row written by another device between pull and push is skipped until the next revision
  (`SplitSyncHonestIff`, `InterleavedWriteIsSkipped`, `InterleavedStaysMissing`);
- a row taken out of sync and shared again can stay behind the backend: its better version was
  skipped while the cursor moved past it (`EditKeepsCursorIff`, `AnyHistoryConverges`,
  `ResharedStaysBehind`); a restart of the engine repairs both cases (`RestartHeals`);
- a delivered yes is lost when the announcement fails or the wait has just found its time over
  (`AcceptedIffDelivered`, `YesBeforeFailedAnnouncement`, `LateYesIsRejected`);
- sanitizing a configuration text twice can differ from once (`SanitizeTextIdempotentIff`,
  `DoubleCrIsNotStable`);
- an unreadable verifier file makes a server without shared secret look open
  (`AuthorizedIffExplained`, `UnreadableLooksOpen`);
- a quick-connect text loses its target when the host itself ends in a colon and digits
  (`RoundTripIff`, `ColonHostIsMisread`);
- while the prompt is uncovered a slash in the middle of a line is taken for a command
  (`RunWrites`, `UncoveredSwallowsSlash`, `TabsUncover`);
- a configuration line with an equals sign right behind its keyword is misread when its value
  contains blanks (`EqualsFormReadIff`).

## Model

| member | source | states |
|---|---|---|
| Osc133.MarksIncrease | crates/core/src/terminal/osc133.rs:48-56 | marks of a message end at strictly increasing offsets inside it |
| Osc133.AdvanceConcat | crates/core/src/terminal/osc133.rs:48-116 | the scanner state after a stream does not depend on how the stream is cut |
| Osc133.MarksConcat | crates/core/src/terminal/osc133.rs:48-116 | the marks of a stream do not depend on how it is cut; only offsets are rebased |
| Osc133.ScanInvertsEncode | crates/core/src/terminal/osc133.rs:58-116 | from any sequence of text bytes, two-byte escapes and OSC sequences the byte machine reads back exactly one mark per decodable sequence that BEL or ST ends, at its last byte; cancelled and overlong ones give none |
| Osc133.ScanReadsEveryStream | crates/core/src/terminal/osc133.rs:58-116 | every byte stream is such a sequence with at most one unfinished piece, so on all input the marks found are those of the grammar and the scanner state is that of the unfinished piece |
| Osc133.MarkSeenIffGround | crates/core/src/terminal/osc133.rs:58-116 | for every scanner state and every text in front of it a mark of any length is announced, after the marks of the text, if and only if the text leaves the scanner in ground and the body has at most 256 bytes |
| Osc133.MarkSeenIff | crates/core/src/terminal/osc133.rs:58-116 | on bytes, for every stream: a mark behind complete tokens and an unfinished one is announced if and only if there is no unfinished one, neither an ESC without partner nor an open OSC sequence |
| Osc133.MarkSeenAfterTextIff | crates/core/src/terminal/osc133.rs:59-75 | behind text without OSC sequences, with colours, cursor moves or any other escapes, a mark is announced if and only if the text does not end in an odd number of ESC bytes |
| Osc133.DoubledEscHidesMark | crates/core/src/terminal/osc133.rs:66-75 | a mark behind one extra ESC is not announced |
| Osc133.OpenOscHidesMark | crates/core/src/terminal/osc133.rs:84-103 | a mark behind an unterminated OSC sequence is not announced: its introducer only cancels that sequence |
| Osc133.Osc133Parser.FeedByte | crates/core/src/terminal/osc133.rs:58-116 | the in-place step equals the scanner step |
| Osc133.Osc133Parser.PushIndexed | crates/core/src/terminal/osc133.rs:48-56 | the in-place loop returns the marks of the message and the state after it |
| OutputPump.SmallRunIsLossless | apps/tauri/src-tauri/src/output_pump.rs:40-91 | for messages of at most one chunk, at every point of every run: emitted bytes followed by waiting bytes are the received bytes, less than one chunk waits, nothing is dropped, every Data event has 1 to 65536 bytes, and the block events are those of the whole stream, each announced less than one chunk before its own end |
| OutputPump.CloseIsComplete | apps/tauri/src-tauri/src/output_pump.rs:78-84 | after closing, the emitted bytes are the received bytes and exactly one Closed event ends the log |
| OutputPump.AlignedIffBacklogFits | apps/tauri/src-tauri/src/output_pump.rs:45-68 | of the marks of one message of at most one chunk, all but the first are announced exactly behind their own bytes, and the first is if and only if the bytes waiting before the message and those up to the mark fit one chunk |
| OutputPump.EarlyEventsAreCounted | apps/tauri/src-tauri/src/output_pump.rs:40-91 | in every run of messages of at most one chunk the number of block events announced early equals the number of messages whose first mark did not fit one chunk together with the backlog |
| OutputPump.MisplacedMark | apps/tauri/src-tauri/src/output_pump.rs:45-58 | a two-message run of small messages in which a mark is announced too early |
| OutputPump.PlaceMarkFacts | apps/tauri/src-tauri/src/output_pump.rs:50-57 | what one mark does to the stream, the backlog, the events and the offset of its announcement |
| OutputPump.DropMiddleShape | apps/tauri/src-tauri/src/output_pump.rs:154-161 | an oversized backlog becomes its first and last EDGE bytes around one marker, within one byte of the limit |
| OutputPump.RunIsAccountedFor | apps/tauri/src-tauri/src/output_pump.rs:40-91 | for messages of any size, at every point of every run: the stream is the received one with non-empty gaps each replaced by one marker, as many as there are Data events flagged dropped; the flag is down between steps, at most 192 KiB wait, and runs of small messages have no gap |
| OutputPump.SettledReceive | apps/tauri/src-tauri/src/output_pump.rs:59-68 | one message keeps the ledger balanced, and a message of at most one chunk never causes a drop, whatever happened before |
| OutputPump.RunIsMarked | apps/tauri/src-tauri/src/output_pump.rs:45-77 | for messages of any size, whatever was dropped, the block events are those of the whole received stream |
| OutputPump.CloseIsAccountedFor | apps/tauri/src-tauri/src/output_pump.rs:78-84 | closing after any run: all kept bytes are out with one marker per gap, flagged Data events count the gaps, no block event is missing, one Closed ends the log |
| OutputPump.BytesAreConserved | apps/tauri/src-tauri/src/output_pump.rs:140-161 | bytes out plus bytes lost equal bytes in plus one marker per drop |
| OutputPump.NewestSurvives | apps/tauri/src-tauri/src/output_pump.rs:154-161 | the stream ends like the received bytes on at least the last EDGE of them, or is all of them |
| OutputPump.TickEmits | apps/tauri/src-tauri/src/output_pump.rs:87-89 | a tick emits the oldest waiting bytes, one chunk at most, in one Data event, and nothing when nothing waits |
| OutputPump.TickDelivers | apps/tauri/src-tauri/src/output_pump.rs:40-91 | for messages of at most one chunk, after a tick the emitted bytes alone are all received bytes and nothing waits |
| OutputPump.ThreeTicksDeliver | apps/tauri/src-tauri/src/output_pump.rs:87-89 | whatever was received, three ticks without a message empty the backlog |
| OutputPump.SmallMessageWaits | apps/tauri/src-tauri/src/output_pump.rs:59-68 | a message without a mark that does not fill a chunk is not emitted before the next tick |
| OutputPump.DropsIffFull | apps/tauri/src-tauri/src/output_pump.rs:59-63 | a message without a mark causes a drop exactly if the backlog then exceeds 256 KiB |
| OutputPump.SignalsAreAnnounced | apps/tauri/src-tauri/src/output_pump.rs:69-76 | over every run the attention signals of the messages are announced, all of them and in order |
| OutputPump.Forwarder.Flush | apps/tauri/src-tauri/src/output_pump.rs:140-152 | the in-place flush equals the specified one |
| OutputPump.Forwarder.CutMiddle | apps/tauri/src-tauri/src/output_pump.rs:154-161 | the in-place cut equals the specified one |
| OutputPump.Forwarder.EmitMarks | apps/tauri/src-tauri/src/output_pump.rs:48-58 | the mark loop equals placing the marks one by one |
| OutputPump.Forwarder.OnMessage | apps/tauri/src-tauri/src/output_pump.rs:44-77 | the message arm of the loop equals the specified step |
| OutputPump.Forwarder.OnClose | apps/tauri/src-tauri/src/output_pump.rs:78-84 | the closing loop drains everything, then emits Closed |
| LocalPty.ReadLoop | crates/platform-desktop/src/local_pty.rs:76-91 | the reader sends copies of each filled buffer until end of file, an error or a closed channel; every message fits one chunk |
| LocalPty.LocalSessionIsLossless | crates/platform-desktop/src/local_pty.rs:15-91 | for every interleaving of reads and ticks a closed local session has emitted exactly the bytes read, without a drop, with the block events of the whole stream |
| PromptPanel.Reachable | apps/ui/src/components/PromptPanel.tsx:128-148 | in every reachable state the prediction base is the mirror, the mirror is what is shown, a composed command starts with a slash, and uncovered means exactly three counted misses |
| PromptPanel.ConfirmKeepsText | apps/ui/src/components/PromptPanel.tsx:190-218 | a confirming look moves text from prediction to mirror and leaves their concatenation unchanged |
| PromptPanel.ConvergesInTwoLooks | apps/ui/src/components/PromptPanel.tsx:168-237 | a stable shell line is mirrored within two looks from any covered state and then nothing changes |
| PromptPanel.ConvergesAtOnceIff | apps/ui/src/components/PromptPanel.tsx:205-214 | one look suffices exactly when the read does not contradict the prediction inside its grace |
| PromptPanel.HonestEcho | apps/ui/src/components/PromptPanel.tsx:168-354 | for every interleaving of keys, echoes, looks and isolated contradicting reads, from any counters, a covered box shows the starting line plus everything typed and Enter records exactly that; from a non-empty line the box stays covered |
| PromptPanel.SlowEchoUncovers | apps/ui/src/components/PromptPanel.tsx:219-236 | from an empty line an honest but slow shell does uncover the prompt |
| PromptPanel.GraceHoldsIff | apps/ui/src/components/PromptPanel.tsx:205-213 | after every honest play, from an empty or non-empty line and with any grace counter, a contradicting read leaves the text in place if and only if the grace is not spent: the last read before it was a true one |
| PromptPanel.SpentGraceSurvives | apps/ui/src/components/PromptPanel.tsx:128-148 | a run from the initial state in which the grace spent before an Enter or a session change lets a single contradicting read drop the newly typed text |
| PromptPanel.HonestUncoversIff | apps/ui/src/components/PromptPanel.tsx:219-236 | an honest session on an empty line uncovers the prompt if and only if three looks found nothing echoed yet, each after two or more forwards ending in an edit key, where earlier misses count unless the first look follows a non-edit key |
| PromptPanel.CommandModeIsLocal | apps/ui/src/components/PromptPanel.tsx:282-329 | while a slash command is composed only Ctrl chords, or Enter on /clear, write to the PTY |
| PromptPanel.EncodeKeyIff | apps/ui/src/components/PromptPanel.tsx:32-78 | a key is encoded exactly as a separate table says: named keys, Ctrl letters as codes 1 to 26 in either case, single characters as themselves, nothing with Meta or while composing |
| PromptPanel.RunWrites | apps/ui/src/components/PromptPanel.tsx:356-441 | over every run the shell gets exactly what the table says for each key, in order; slash commands write only clear, looks and session changes write nothing |
| PromptPanel.HonestSent | apps/ui/src/components/PromptPanel.tsx:332-441 | after every honest play that leaves the box covered, what was sent is what was typed, character by character, and Enter appends a carriage return |
| PromptPanel.BackspaceUndoes | apps/ui/src/components/PromptPanel.tsx:340-343 | Backspace takes back the last predicted character, and the shell is told of both |
| PromptPanel.NamedKeyEndsPrediction | apps/ui/src/components/PromptPanel.tsx:343-353 | every other named key ends the prediction, only Enter records the text, only Tab and Delete count as edits |
| PromptPanel.NoLineBlanks | apps/ui/src/components/PromptPanel.tsx:168-189 | without a line to read the box is empty |
| PromptPanel.SwitchForgets | apps/ui/src/components/PromptPanel.tsx:128-148 | nothing of one session's line, command or misses is carried to the next |
| PromptPanel.ForwardsOutliveSwitch | apps/ui/src/components/PromptPanel.tsx:128-148 | forwards made before a session change count towards the first miss after it |
| PromptPanel.CommandIsComposed | apps/ui/src/components/PromptPanel.tsx:282-325 | on an empty line a slash and the characters after it are shown as composed and stay out of the shell |
| PromptPanel.CommandEnds | apps/ui/src/components/PromptPanel.tsx:256-316 | Escape leaves command mode, Backspace shortens the command or leaves, Enter runs and records exactly /clear |
| PromptPanel.UncoveredSwallowsSlash | apps/ui/src/components/PromptPanel.tsx:284-297 | while uncovered without a prediction a slash in the middle of a line opens command mode and never reaches the shell |
| PromptPanel.TabsUncover | apps/ui/src/components/PromptPanel.tsx:219-236 | a run that reaches such a state |
| PromptPanel.UncoveredIffThree | apps/ui/src/components/PromptPanel.tsx:219-236 | uncovered exactly when three looks were counted since the last clearing step of the run |
| PromptPanel.UncoverHasThreeCauses | apps/ui/src/components/PromptPanel.tsx:219-236 | every run that ends uncovered contains three counted looks with no clearing step or session change from the first on |
| PromptPanel.OnlySwitchCovers | apps/ui/src/components/PromptPanel.tsx:128-148 | once uncovered, only a session change covers again |
| PromptPanel.PromptBox.RefreshMirror | apps/ui/src/components/PromptPanel.tsx:168-237 | the in-place reconciliation equals the specified one |
| PromptPanel.PromptBox.CountMiss | apps/ui/src/components/PromptPanel.tsx:219-236 | the in-place miss counting equals the specified one |
| PromptPanel.PromptBox.HandleLocalCommandKey | apps/ui/src/components/PromptPanel.tsx:256-329 | the in-place slash-command handling equals the specified one |
| PromptPanel.PromptBox.PredictKey | apps/ui/src/components/PromptPanel.tsx:332-354 | the in-place prediction equals the specified one |
| PromptPanel.PromptBox.OnKeyDown | apps/ui/src/components/PromptPanel.tsx:413-441 | the key handler equals the specified one |
| PromptPanel.PromptBox.OnSessionChange | apps/ui/src/components/PromptPanel.tsx:128-148 | the reset equals the specified one; mismatch and forward counters survive |
| InputChain.StepKeepsInv | apps/ui/src/lib/ipc.ts:557-580 | every interleaved callback keeps the chain linked: a send waits on the last unfinished one of its session, and a session without an entry has none |
| InputChain.StepRefinesFifo | apps/ui/src/lib/ipc.ts:559-580 | every callback is a step of the session's FIFO queue or invisible to it |
| InputChain.SessionsAreIndependent | apps/ui/src/lib/ipc.ts:567-578 | a callback never shows on another session |
| InputChain.OnlyOneCalls | apps/ui/src/lib/ipc.ts:551-571 | at most one backend call per session is outstanding; everything before it has settled and everything after it waits |
| InputChain.RunIsFifo | apps/ui/src/lib/ipc.ts:551-580 | in every run calls made followed by sends waiting are exactly the accepted sends in call order, whatever fails or is cleaned up |
| InputChain.SuppressedIffSilenced | apps/ui/src/lib/ipc.ts:542-565 | from the start of the application, calls made followed by sends waiting are exactly the sends that were forced or made while no suppression was in force |
| InputChain.Progress | apps/ui/src/lib/ipc.ts:569-578 | no send is ever stuck: an unfinished one leaves its session a step to take, also after failures |
| InputChain.RunKeepsNoStale | apps/ui/src/lib/ipc.ts:573-578 | a map entry always has its clean-up still to run, so when everything is cleaned up the map is empty |
| InputChain.InputChains.SendTerminalInput | apps/ui/src/lib/ipc.ts:559-580 | a suppressed send changes nothing; any other is chained behind the stored promise and replaces it |
| MarkFeed.MatchIsMark | apps/ui/src/lib/ipc.mock.ts:493-493 | what the search finds is a text the expression matches |
| MarkFeed.MarkIsMatch | apps/ui/src/lib/ipc.mock.ts:493-493 | every text the expression matches is found, with that end |
| MarkFeed.ScanFacts | apps/ui/src/lib/ipc.mock.ts:500-532 | one pass emits the bytes up to the last match and places every recognised mark at its end offset |
| MarkFeed.PushAllConserves | apps/ui/src/lib/ipc.mock.ts:492-549 | for every stream and chunking the emitted data is a prefix of the bytes fed and at most 24 bytes are held back |
| MarkFeed.HeldBack | apps/ui/src/lib/ipc.mock.ts:534-541 | an incomplete safe mark is held back from its first byte |
| MarkFeed.ChunkIndependentIffSafe | apps/ui/src/lib/ipc.mock.ts:486-551 | block events and their byte offsets are the same for every chunking if and only if every recognised mark ends in BEL, has at most 25 bytes and no line break |
| MarkFeed.CutLosesMark | apps/ui/src/lib/ipc.mock.ts:533-540 | for every unsafe recognised mark, a cut that makes the splitter miss it |
| MarkFeed.LettersAreAnnounced | apps/ui/src/lib/ipc.mock.ts:493-532 | a stream of text and marks announces exactly the letters A to D of its marks, as capitals, in order, with parameters and end offsets, for every chunking if its marks are safe |
| MarkFeed.Splitter.EmitMatches | apps/ui/src/lib/ipc.mock.ts:503-532 | the search loop equals the specified scan |
| MarkFeed.Splitter.FeedChunk | apps/ui/src/lib/ipc.mock.ts:486-551 | the in-place feed equals the specified one |
| PromptBroker.RunIsSafe | apps/tauri/src-tauri/src/lib.rs:500-560 | every interleaving keeps the broker's invariant on senders, channels, answers and decisions |
| PromptBroker.AcceptedIffDelivered | apps/tauri/src-tauri/src/lib.rs:505-559 | in every run a finished prompt was accepted exactly when it was announced and one respond call delivered yes before the wait found its time over; no prompt is answered twice; a registered sender belongs to a call still running |
| PromptBroker.YesBeforeFailedAnnouncement | apps/tauri/src-tauri/src/lib.rs:542-545 | a run in which a delivered yes is lost because the announcement fails afterwards |
| PromptBroker.LateYesIsRejected | apps/tauri/src-tauri/src/lib.rs:547-551 | a run in which a yes delivered between the last look at the channel and the end of the wait is reported as delivered and rejected |
| PromptBroker.WaitingCanBeAnswered | apps/tauri/src-tauri/src/lib.rs:505-516 | in every run a prompt being waited for, neither answered nor cleared, can be answered: respond finds its sender and the answer decides |
| PromptBroker.ClearedIsRejected | apps/tauri/src-tauri/src/lib.rs:518-520 | a prompt unanswered when the broker is cleared is rejected in every continuation |
| Debounce.PassesIffLast | apps/tauri/src-tauri/src/sync.rs:357-367 | a task goes on to sync if and only if no other mutation happened between its scheduling and its waking |
| Debounce.LastMutationSyncs | apps/tauri/src-tauri/src/sync.rs:357-367 | when every task has woken, the last mutation's task has passed |
| Debounce.RunPassesAreSpaced | apps/tauri/src-tauri/src/sync.rs:20-21 | n passing tasks span at least n - 1 debounce periods |
| DeviceAuth.LimiterAnswersLikeHistory | crates/sync-server/src/device_auth.rs:64-76 | the pruned list of every address answers like its full history of accepted attempts |
| DeviceAuth.RefusedIffWindowFull | crates/sync-server/src/device_auth.rs:64-76 | an attempt is refused exactly when five accepted ones of its address lie in the last window |
| DeviceAuth.SixSpanTheWindow | crates/sync-server/src/device_auth.rs:21-22 | any six consecutive accepted attempts of an address span at least the window |
| DeviceAuth.FifthDecides | crates/sync-server/src/device_auth.rs:64-76 | an attempt is refused exactly if the fifth latest accepted one of its address is less than 60 seconds old |
| DeviceAuth.AcceptedIffFifthOld | crates/sync-server/src/device_auth.rs:64-76 | so which attempts are accepted is decided by times alone |
| DeviceAuth.PruneMirrors | crates/sync-server/src/device_auth.rs:50-55 | the pruned session map answers exactly as the full issue history would |
| DeviceAuth.IssueMirrors | crates/sync-server/src/device_auth.rs:38-48 | issuing a bearer keeps map and history in agreement |
| DeviceAuth.AuthRateLimiter.CheckAndRecord | crates/sync-server/src/device_auth.rs:65-75 | the in-place check equals the specified one |
| DeviceAuth.SessionStore.IssueBearer | crates/sync-server/src/device_auth.rs:38-48 | stores the bearer with its expiry a day ahead |
| DeviceAuth.SessionStore.IsValid | crates/sync-server/src/device_auth.rs:50-55 | prunes expired bearers and answers by what is left |
| SyncServer.AuthorizedIffExplained | crates/sync-server/src/server.rs:241-280 | in every run a request is authorized if and only if its header is Bearer with the shared secret, its encoding or a token issued less than a day ago and since the last restart, or it bears nothing while there is no secret and no readable record of an enrolment |
| SyncServer.EnrolAnswerIff | crates/sync-server/src/server.rs:321-347 | in every run the answer to an enrolment: 409 after a success, 401 unless the header carries the secret or there is none and enrolling is allowed, 400 for a bad key, created exactly otherwise if hashed and saved |
| SyncServer.LoginAnswerIff | crates/sync-server/src/server.rs:349-372 | in every run the answer to a login: 429 when throttled, 404 before enrolment, 400 for a bad key, a bearer exactly if the key verifies against the enrolled one, 401 otherwise |
| SyncServer.RecordIsHash | crates/sync-server/src/server.rs:336-346 | the record is the hash of the key of the enrolment that succeeded |
| SyncServer.IssueOrigin | crates/sync-server/src/server.rs:349-372 | every live bearer was answered to a login since the last restart whose key verified against the verifier that is still stored |
| SyncServer.VerifierIsPermanent | crates/sync-server/src/server.rs:321-347 | once stored the verifier never changes, not across restarts either, so open mode does not return while the record is readable |
| SyncServer.EnrolledOnce | crates/sync-server/src/server.rs:326-330 | at most one enrolment ever succeeds, across restarts too |
| SyncServer.ThrottledIffWindowFull | crates/sync-server/src/server.rs:354-361 | a login is throttled exactly when five accepted attempts of its address lie in the last minute since the last restart |
| SyncServer.UnreadableLooksOpen | crates/sync-server/src/server.rs:241-260 | a run in which an enrolled server without shared secret grants access while the record cannot be read |
| SyncServer.Gate.OnAccess | crates/sync-server/src/server.rs:241-273 | the handler equals the specified one |
| SyncServer.Gate.OnEnroll | crates/sync-server/src/server.rs:321-347 | the handler equals the specified one, error answers included |
| SyncServer.Gate.OnLogin | crates/sync-server/src/server.rs:349-372 | the handler equals the specified one, error answers included |
| SyncEngine.WinsIsStrictOrder | crates/core/src/sync/conflict.rs:8-30 | the conflict rule is a strict weak order whose ties are exactly equal version and time |
| SyncEngine.UnbeatenIsLatest | crates/core/src/sync/conflict.rs:8-30 | unbeaten means later or equal by version and then by time |
| SyncEngine.LastWriteWins | crates/core/src/sync/conflict.rs:8-30 | after two rounds from honest cursors every copy of a row is one that existed before and is as late, by version and then time, as every copy that existed |
| SyncEngine.SharedRowSpreads | crates/core/src/sync/engine.rs:225-244 | a row shared anywhere reaches the backend and every device that does not keep its own row local |
| SyncEngine.LocalRowsStay | crates/core/src/sync/engine.rs:227-232 | no sync touches a local-only row or makes a row local-only |
| SyncEngine.RevisionNeverFalls | crates/core/src/sync/file.rs:157-162 | the revision moves up by at most one and never falls, not even at its largest value |
| SyncEngine.ApplyPulled | crates/core/src/sync/engine.rs:225-239 | the apply loop gives the same rows in whatever order the backend lists them |
| SyncEngine.PushItems | crates/core/src/sync/file.rs:129-164 | the push loop stores every winner and bumps the saturating revision once if anything was written |
| SyncEngine.FileBackend.PullSince | crates/core/src/sync/file.rs:115-127 | returns everything or nothing depending on the cursor |
| SyncEngine.FileBackend.PushAll | crates/core/src/sync/file.rs:129-164 | the in-place push equals the specified one |
| SyncEngine.Engine.Sync | crates/core/src/sync/engine.rs:221-252 | pull, apply, push and cursor update equal the specified sync |
| SyncEngine.SyncFacts | crates/core/src/sync/engine.rs:213-260 | after an undisturbed sync from an honest cursor the device has seen everything on the backend, beats nothing there, and its cursor is honest |
| SyncEngine.FinishFacts | crates/core/src/sync/engine.rs:221-252 | from any cursor and whoever wrote since the pull, the backend ends beating or equalling the device, has only improved, and was written only if the device had something better |
| SyncEngine.HonestIff | crates/core/src/sync/engine.rs:246-252 | over any syncs a device's cursor is honest afterwards exactly if it was before or another device wrote |
| SyncEngine.OthersWriteIff | crates/core/src/sync/engine.rs:225-244 | whether another device writes during a round can be read off the start: some device's shared row beats the backend and the device in question, if its turn comes first, has none as good |
| SyncEngine.TwoRoundsLevelIff | crates/core/src/sync/engine.rs:188-260 | from any state, after every device has synced twice in any orders: the second round wrote nothing, and a device holds the backend's stamps for everything shared if and only if its cursor was honest at the start or another device has news for the first round, in the sense of `OthersWriteIff` |
| SyncEngine.TwoRoundsConverge | crates/core/src/sync/engine.rs:188-260 | so from honest cursors every device ends with the backend's stamps for everything shared |
| SyncEngine.ContentsAgreeIff | crates/core/src/sync/conflict.rs:8-18 | two rounds give every holder the same contents if and only if the unbeaten copies already had the same contents |
| SyncEngine.TopStays | crates/core/src/sync/conflict.rs:16-18 | a copy nothing beats stays where it is, whoever syncs |
| SyncEngine.AllInventNothing | crates/core/src/sync/engine.rs:225-244 | every copy after any syncs was a copy before them |
| SyncEngine.AllOnlyRaise | crates/core/src/sync/engine.rs:225-244 | no copy is lost, and a copy is replaced only by one that beats it |
| SyncEngine.EditKeepsCursorIff | crates/core/src/vault/repository.rs:1158-1165 | a version-raising edit keeps the cursor honest exactly unless it shares a row a current device knows the backend holds better |
| SyncEngine.SplitSyncHonestIff | crates/core/src/sync/engine.rs:221-252 | when others write between pull and push the cursor stays honest if and only if the device needed nothing of what they changed; it does if they changed nothing |
| SyncEngine.InterleavedWriteIsSkipped | crates/core/src/sync/engine.rs:246-252 | a row first written by another device between pull and push is claimed by the cursor and not fetched by the next sync |
| SyncHistory.HistoryKeepsOrder | crates/core/src/sync/engine.rs:213-260 | in every history of edits, split syncs, failures and restarts no cursor is ahead of what it was read from and every change of the backend shows in its revision |
| SyncHistory.StepHonestIff | crates/core/src/sync/engine.rs:221-252 | a device's own step leaves its cursor honest if and only if it is harmless: no shared edit below what a current device knows the backend holds, no push after others changed something it needed |
| SyncHistory.OthersDoNoHarm | crates/core/src/sync/engine.rs:221-252 | no step of another device makes a cursor dishonest |
| SyncHistory.RestartHeals | crates/core/src/sync/engine.rs:101-118 | a new engine, whose cursor starts at zero, is honest whatever went wrong before |
| SyncHistory.FailKeepsWhatWasPulled | crates/core/src/sync/engine.rs:225-244 | a sync that fails after its pull leaves the device with everything it pulled and its cursor as it was |
| SyncHistory.CarefulIsHarmless | crates/core/src/vault/repository.rs:1045-1070 | a device that shares no row it kept local and pushes only at the revision it pulled does only harmless steps |
| SyncHistory.CarefulStaysHonest | crates/core/src/sync/engine.rs:221-252 | so such a device stays honest through every history, however careless the others are |
| SyncHistory.AnyHistoryConverges | crates/core/src/sync/engine.rs:188-260 | after every history from an unused system, two rounds bring a device level with the backend if and only if its cursor was honest at the end of the history or another device has news for the first round, as read off rows, backend and order; they do for every device whose own steps were harmless or careful |
| SyncHistory.ResharedStaysBehind | crates/core/src/vault/repository.rs:1045-1070 | a history in which a row taken out of sync and shared again stays behind the backend for ever, whoever syncs |
| SyncHistory.TiedStaysApart | crates/core/src/sync/conflict.rs:8-18 | a history with two edits of equal version and time after which each device keeps its own contents, whoever syncs |
| SyncHistory.InterleavedStaysMissing | crates/core/src/sync/engine.rs:221-252 | a history in which a row first written between another device's pull and push never reaches that device, whoever syncs |
| SshConfig.ReadPrint | crates/core/src/ssh_config.rs:180-193 | every directive survives being printed and read again |
| SshConfig.ReadRendered | crates/core/src/ssh_config.rs:180-193 | a directive is read back however it is indented, whatever blanks and equals signs follow a blank behind its keyword, and whatever blanks and comment follow |
| SshConfig.EqualsFormReadIff | crates/core/src/ssh_config.rs:185-187 | with an equals sign right behind the keyword a directive is read back if and only if its value has no whitespace |
| SshConfig.KeywordsAnyCase | crates/core/src/ssh_config.rs:143-164 | Host, Match and Include count in any case and nothing else does |
| SshConfig.KeptLinesAre | crates/core/src/ssh_config.rs:135-178 | exactly the lines outside Match sections are kept, in order, directives as keyword, blank and value, other lines as they are |
| SshConfig.SplitIsClean | crates/core/src/ssh_config.rs:180-193 | what a line splits into: keyword without whitespace, trimmed value not starting with an equals sign, no comment |
| SshConfig.InMatchIff | crates/core/src/ssh_config.rs:143-156 | a line is in a Match section exactly when the last Host or Match before it is a Match |
| SshConfig.SanitizeIsIdempotent | crates/core/src/ssh_config.rs:135-178 | sanitizing the kept lines again keeps all of them unchanged |
| SshConfig.SanitizeTextIdempotentIff | crates/core/src/ssh_config.rs:135-178 | sanitizing a text twice equals once if and only if no directive-free line outside Match sections ends in a carriage return after line splitting |
| SshConfig.DoubleCrIsNotStable | crates/core/src/ssh_config.rs:166-175 | a text that loses a carriage return on each pass |
| SshConfig.SanitizeKeepsAliases | crates/core/src/ssh_config.rs:107-178 | sanitizing leaves the concrete aliases and their order unchanged |
| SshConfig.AliasesAreImportable | crates/core/src/ssh_config.rs:107-133 | aliases are distinct, free of patterns, and exactly the concrete names of Host lines |
| SshConfig.CandidateIff | crates/core/src/ssh_config.rs:107-133 | a name is imported exactly if a Host line lists it and it holds no pattern character |
| SshConfig.HostLineDeclares | crates/core/src/ssh_config.rs:117-131 | a Host line in any case declares its concrete names in order |
| SshConfig.DistinctIsFirstOccurrence | crates/core/src/ssh_config.rs:127-129 | names are kept by first occurrence |
| SshConfig.WarnedIff | crates/core/src/ssh_config.rs:146-164 | each warning appears once, exactly when its directive occurs |
| SshConfig.SanitizeText | crates/core/src/ssh_config.rs:135-178 | the loop builds the specified text and warnings |
| SshConfig.ConcreteAliases | crates/core/src/ssh_config.rs:107-133 | the loops with a seen set collect the specified aliases |
| Versions.IsNewer | crates/sync-server/src/updates.rs:52-73 | the early-return loop equals lexicographic comparison of zero-padded components |
| Versions.IsStrictWeakOrder | crates/sync-server/src/updates.rs:52-73 | irreflexive, asymmetric, transitive, and incomparable means equal up to zeros |
| Versions.SpellingIsIgnored | crates/sync-server/src/updates.rs:53-61 | a leading v, or anything after a dash, never changes a version |
| Versions.TrailingZeroIsIgnored | crates/sync-server/src/updates.rs:63-72 | a trailing zero component gives an equivalent version |
| Versions.VersionRoundTrip | crates/sync-server/src/updates.rs:53-61 | a printed version reads back as its numbers, with or without a leading v and a dash suffix |
| Versions.PrintedOrder | crates/sync-server/src/updates.rs:52-73 | printed releases compare as their numbers do |
| QuickConnect.RoundTripIff | apps/ui/src/components/Launcher.tsx:811-839 | the tile's text reads back as the same target exactly under a stated condition on user, host and port |
| QuickConnect.RoundTrip | apps/ui/src/components/Launcher.tsx:667-669 | it does for every trimmed user, every trimmed host without at sign or colon, and every port in range |
| QuickConnect.ColonHostIsMisread | apps/ui/src/components/Launcher.tsx:811-839 | every host that ends in a colon and a port number, shown without port, reads back as the shorter host with that port |
| QuickConnect.ParseIsDialable | apps/ui/src/components/Launcher.tsx:811-839 | every accepted text has a trimmed user, a host and a port in 1 to 65535 |
| QuickConnect.PaddingIsIgnored | apps/ui/src/components/Launcher.tsx:811-839 | blanks around the text, the user and the host do not matter and the last at sign splits |
| SyncFilter.Concat | apps/ui/src/terminal/syncFilter.ts:32-94 | state and output do not depend on how the stream is cut |
| SyncFilter.PlainPasses | apps/ui/src/terminal/syncFilter.ts:33-35 | the shortcut for chunks without ESC equals the byte loop |
| SyncFilter.PassesUnchangedIff | apps/ui/src/terminal/syncFilter.ts:40-92 | outside synchronized updates the stream passes unchanged if and only if no control sequence reaches a 65th parameter byte |
| SyncFilter.RunConserves | apps/ui/src/terminal/syncFilter.ts:58-92 | each such overflow emits exactly one byte too many |
| SyncFilter.OverlongDoublesByte | apps/ui/src/terminal/syncFilter.ts:66-78 | such a sequence comes out with its 65th byte doubled |
| SyncFilter.FrameIsRewritten | apps/ui/src/terminal/syncFilter.ts:103-140 | text, escapes and complete, broken-off or overlong control sequences come out token by token unchanged, except that inside a synchronized update a full erase becomes a repaint and a scrollback erase disappears, and a 65th parameter byte is doubled |
| SyncFilter.EveryStreamIsRewritten | apps/ui/src/terminal/syncFilter.ts:32-140 | every byte stream is made of such tokens and what the filter still holds, so on all input, inside and outside updates, the output is the tokens rewritten one by one |
| SyncFilter.RewriteIff | apps/ui/src/terminal/syncFilter.ts:119-136 | inside an update CSI J with first parameter 3 disappears and with 2 becomes the repaint; everything else comes out as it went in |
| SyncFilter.UpdateSwitchesIff | apps/ui/src/terminal/syncFilter.ts:106-117 | an update opens with CSI ? h and closes with CSI ? l exactly when one field is 2026, blanks aside |
| SyncFilter.ControlSequence | apps/ui/src/terminal/syncFilter.ts:58-92 | which bytes make a control sequence: 64 bytes from blank to question mark and one from at sign to tilde; broken off by another byte it passes unchanged |
| SyncFilter.SyncClearFilter.HandleCsi | apps/ui/src/terminal/syncFilter.ts:106-139 | the in-place handling equals the specified rewriting |
| SyncFilter.SyncClearFilter.Push | apps/ui/src/terminal/syncFilter.ts:32-94 | shortcut and loop together equal the specified output and state |
| SessionWatch.ParseWatch | apps/tauri/src-tauri/src/mux.rs:811-880 | one result per wanted name in order, read from the lines up to the end marker |
| SessionWatch.OnlyTheBlockMatters | apps/tauri/src-tauri/src/mux.rs:817-828 | for every output only the lines between the markers are read: without an end marker all after the begin marker, without a begin marker none |
| SessionWatch.WaitingIffLastBell | apps/tauri/src-tauri/src/mux.rs:829-861 | for every output a session is reported waiting exactly when the last line about it carries a bell as its last alert |
| SessionWatch.ReportReadsBack | apps/tauri/src-tauri/src/mux.rs:829-880 | a report printed line by line reads back: who waits, whether watching is supported and the message |
| SessionWatch.StateIsDecided | apps/ui/src/lib/sessionAttention.ts:17-39 | after any updates the state is that of the last update allowed to decide it |
| SessionWatch.WaitingHasCause | apps/ui/src/lib/sessionAttention.ts:17-39 | nobody is shown waiting without a bell, notification or watch update that said so and was not overruled |
| SessionWatch.LastUpdateDecides | apps/ui/src/lib/sessionAttention.ts:17-39 | bel, osc and tmux decide at once, silence never, any other source only away from waiting |
| SessionWatch.DetailsAreKept | apps/ui/src/lib/sessionAttention.ts:35-38 | a message and a watch flag stay until a deciding update brings a new one |

## Left out

- OSC body decoding: `Osc133` takes the reading of an OSC body (UTF-8 check, `133;X` fields, exit code) as a parameter, so every statement holds for any decoding.
- Attention scanning: the signals found in a message are part of the pump's input; the scanner itself is not part of this model.
- OutputPump.MisplacedMark: shows the failing family for marks ended by BEL behind one byte less than a chunk, not every failing input; the condition is in `AlignedIffBacklogFits`.
- MarkFeed.ChunkIndependentIffSafe: block events carry the raw parameter bytes; turning them into an exit code is a function of those bytes and is not modelled.
- Timing: ticks, timeouts and wake-ups are steps that may come at any time the source allows; durations matter only in `Debounce` and `DeviceAuth`.
- PromptPanel.HonestEcho: an uncovered box shows nothing, so for an empty starting line the statement is about covered states only.
- Focus handling, running-command gating and rendering of the prompt panel: keys and looks are simply not steps while a command runs.
- Promise results: the chain's order is modelled, the value each caller receives is not.
- PromptBroker: a `decide` call dropped in mid-wait by its caller is not a step.
- Debounce: the generation counter is unbounded, so its wrap-around after 2^64 schedules is not modelled; what a passing task does with the vault and engine is not either.
- SyncServer: handlers run one at a time, so two enrolments racing on the record file are not modelled, and a failed save leaves the record as it was; base64, Argon2 and the choice of client address are parameters.
- SyncEngine: vault headers, re-keying and encryption are not modelled, rows and stored items carry the same payload, and items another program wrote that do not decode are not considered; the file writes of one push are one step.
- SyncHistory: a device runs one sync at a time, applying and pushing are one step, and the two rounds after a history are made of whole syncs; histories stay below 2^64 steps, where the revision counter saturates.
- SshConfig: resolving hosts with the external parser is not part of this model; whitespace follows Unicode as Rust does.
- QuickConnect: labels and the other fields of a host draft would only add easy members.
- SessionWatch: the shell script that prints the report is not modelled, only its reader.
- Asset URL rewriting, tunnels, SFTP transfers, window layout, command blocks, settings and installers are not modelled: they add easy members or depend on the windowing system.
