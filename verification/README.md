# Ember: models and proofs

Ember is a client for coding agents: an editor session that talks to a remote extension host, and a
launcher that follows the sessions of a main server. This project models the parts of it that carry
state over whole runs, each as a sans-IO machine, and proves what those runs keep.

| module | what it models |
|---|---|
| `Frames`, `Protocol`, `Network`, `Recovery`, `Answers` | the persistent connection: 13-byte framing from arbitrary chunks, the numbered-message endpoint (`PersistentProtocol`), two endpoints over a network that loses, repeats and reorders frames, what replays and pauses do, and what an endpoint tells, acknowledges and gives up |
| `Text`, `Mirror`, `Coords`, `OpenDocuments`, `OpenRuns` | the line-array text mirror edited end to start, UTF-16 columns, how an edit carries a range, an open file with its versions, resets and saves, and the copy the extension host keeps of it |
| `Wire`, `Transcripts`, `Conversations`, `ClientState`, `ClientRuns`, `Readers`, `Reports`, `Ordering` | the client's view of the server: one conversation reduced from out-of-order events and what it shows of its log, the whole state with its indexes, change reports and cache, its runs, what a reader sees after each input, and what causes each report |
| `Parsing`, `Ipc`, `Rpc`, `Z32`, `Bytes`, `Formats` | the codecs: the recursive tagged serializer, the RPC messages, z-base-32 keys, and the bytes as the other side reads them |
| `Keys`, `Ids`, `Decorations`, `CodeLens`, `LensRuns`, `Diagnostics`, `Squiggles` | decoration ids and the two bridges that draw with them: what is drawn, where, under which id, and what a click or a late reply reaches |
| `Outboxes` | messages typed while the agent is busy |

Each component that changes in place is a class whose methods are proved against a function on plain
values (the object's `View()`, or its fields, before and after the call). The theorems are about those
functions: invariants of every reachable state, both directions of an exact condition, or agreement with a
simpler definition. `Reachable`, `Runs`, `After`, `At`, `Lived` and `Ran` say what a run is in each module.

Some conditions are part of the results, because the code meets the property exactly there:

- framing gives a frame back if and only if its payload is at most `MAX_FRAME_LEN`;
- the serializer and the RPC codec write lengths as `u32`, so a value comes back if and only if every length in
  it is below 2^32;
- after a save the recorded disk text is the buffer's if and only if the file has a byte-order mark or the
  buffer does not begin with U+FEFF;
- the extension host shows at every moment whether a document is dirty if and only if no save of another version is
  done while nothing is unsaved: a save that finishes after its file was reloaded tells the host the document is dirty,
  and it is not (`OpenRuns.DirtyAgreesExactly`, `OpenRuns.LateSaveShowsDirty`);
- messages of the outbox stay out in the order they were put in if and only if after each failed one only the same
  text had gone out when the failure is reported (`Outboxes.OrderKeptExactly`);
- the documentation of `Changes::projects` (`ember/client/src/state.rs:93-95`) promises to report a changed pin or
  archive mark of a session. The code does so if and only if the input is a `SessionUpdated` push, or it carries a
  record (`SessionLoaded`, a `SessionCreated` push, one of a `SessionsLoaded` list) that, taken in its turn, is not stale
  and moves its session in the project list; the session itself is always named in `sessions`. The model follows the
  code: `ClientRuns.MarksTold` is the exact condition, `ClientRuns.PinLeftUntold` gives runs that show the difference.

Session records are taken to count their events from zero (`ClientRuns.Sane`); nothing is assumed of single events.
Text and JSON libraries are parameters of the codecs, of which two facts are assumed (`Parsing.Faithful`: decoding
inverts encoding; `Parsing.CutsShow`: a rendering cut short by 4 GiB or more does not decode to the same value).

## Model

| member | source | states |
|---|---|---|
| `Network.ExactlyOnceInOrder` | ember/editor-conn/src/protocol.rs:117-265 | main result: in every state reachable over a network that loses, repeats and reorders frames, what one end delivered is a prefix of what the other end was given to send, in both directions |
| `Network.NothingForgotten` | ember/editor-conn/src/protocol.rs:51-75 | main result: in every reachable state the unacknowledged queue is exactly ids `outgoing_ack_id+1..=outgoing_msg_id`, in order, with the payloads sent, and own ack <= peer received <= own sent |
| `Network.ReachableInv` | ember/editor-conn/src/protocol.rs:149-265 | the invariant behind both: queue, wire and held frames are honest, acknowledged, received and sent numbers are in order |
| `Network.RunKeeps` | ember/editor-conn/src/protocol.rs:117-265 | every run of enabled calls, from any state of the invariant, keeps it |
| `Network.StepKeeps` | ember/editor-conn/src/protocol.rs:117-265 | every single call of a public method, by either end, keeps it |
| `Network.SendKeeps` | ember/editor-conn/src/protocol.rs:117-129 | a send disturbs neither direction |
| `Network.SendWrites` | ember/editor-conn/src/protocol.rs:117-129 | a send numbers its message, queues it and, unless reconnecting, writes it, or holds it while paused |
| `Network.RegularKeeps` | ember/editor-conn/src/protocol.rs:149-185 | taking a numbered frame, whether the next one, an old one or one past a gap, keeps the invariant in both directions |
| `Network.ReceiveKeeps` | ember/editor-conn/src/protocol.rs:149-209 | taking any frame the peer ever wrote, at any time and any number of times, keeps the invariant |
| `Network.TrimExact` | ember/editor-conn/src/protocol.rs:152-165 | trimming the queue at an acknowledgement drops exactly the frames it covers |
| `Network.EndReconnectKeeps` | ember/editor-conn/src/protocol.rs:252-265 | replaying everything after a reconnect keeps the invariant |
| `Network.TickKeeps` | ember/editor-conn/src/protocol.rs:213-230 | a tick acknowledges only what was received |
| `Recovery.ReconnectRecoversAll` | ember/editor-conn/src/protocol.rs:252-265 | main result: from any reachable state, whatever was lost, feeding the peer the frames of an unpaused `end_reconnect` in order leaves it having delivered everything sent |
| `Recovery.ReplayRequestRecoversAll` | ember/editor-conn/src/protocol.rs:188-197 | main result: the same for the answer to any replay request the peer ever wrote |
| `Recovery.FreshTransportRecovers` | ember/editor-conn/src/protocol.rs:242-265 | beginning a reconnect lifts any pause, so a new transport always recovers |
| `Recovery.RecoveryOverBytes` | ember/editor-conn/src/protocol.rs:252-265 | the same through the wire format: the replay encoded, cut into any chunks and decoded again |
| `Recovery.ReplayCatchesUp` | ember/editor-conn/src/protocol.rs:166-185 | frames with consecutive numbers that begin no later than what is owed deliver exactly the missing messages |
| `Recovery.PauseTransparent` | ember/editor-conn/src/protocol.rs:108-114 | main result: over any run of calls between two reconnects, frames written plus frames held are, in order, the frames a never-paused endpoint writes, and it is told the same |
| `Recovery.ReplayRequestsSpaced` | ember/editor-conn/src/protocol.rs:166-185 | main result: over any run of calls between two reconnects, any two calls that ask for a replay are more than ten seconds apart |
| `Recovery.StepTransparent` | ember/editor-conn/src/protocol.rs:108-265 | the same for one call |
| `Recovery.ReachableHoldable` | ember/editor-conn/src/protocol.rs:57-75 | every endpoint of every reachable state meets the premise of that theorem |
| `Answers.ToldWhatWasSaid` | ember/editor-conn/src/protocol.rs:117-209 | main result: in every reachable state an end was told only what the other said: the numbered messages are exactly those delivered, every control message was given to the other end to send, and the end of the connection is told only if the other end said goodbye |
| `Answers.TellsExactly` | ember/editor-conn/src/protocol.rs:166-209 | which frames tell what: a control frame its payload, a disconnect frame the end, a numbered frame its message if it is the next; nothing else tells anything |
| `Answers.ControlArrives` | ember/editor-conn/src/protocol.rs:132-136 | a control message sent while not paused is one frame that tells any receiver exactly it and changes nothing else of the receiver but the clock |
| `Answers.GoodbyeArrives` | ember/editor-conn/src/protocol.rs:139-146 | a goodbye is one frame, written once and past a pause, that tells any receiver the end |
| `Answers.GivenUpExactly` | ember/editor-conn/src/protocol.rs:213-230 | main result: over any life of calls, a tick gives the connection up exactly when it is not reconnecting, nothing was heard for twenty seconds, and twenty seconds passed since it was last given up or began anew |
| `Answers.AcknowledgedExactly` | ember/editor-conn/src/protocol.rs:213-230 | main result: over any life, a tick acknowledges everything exactly when something delivered is not acknowledged and the last of it came two seconds ago |
| `Answers.KeepAliveAcknowledges` | ember/editor-conn/src/protocol.rs:233-238 | a keep-alive acknowledges all that was delivered |
| `Answers.QuietWhileHushed` | ember/editor-conn/src/protocol.rs:108-209 | over any life, from a pause to its end nothing is written but a goodbye |
| `Answers.GapAskedExactly` | ember/editor-conn/src/protocol.rs:166-185 | over any life, a message past the next one has a replay asked for exactly when none was asked for on this transport in ten seconds |
| `Answers.QueuedAreWritten` | ember/editor-conn/src/protocol.rs:117-129 | over any life, a queued message without a time of writing was sent in a reconnect that has not ended |
| `Answers.ReplayWritesAll` | ember/editor-conn/src/protocol.rs:252-265 | a replay or the end of a reconnect stamps every queued message, and only those |
| `Protocol.PersistentProtocol.constructor` | ember/editor-conn/src/protocol.rs:77-93 | a new endpoint has sent and received nothing |
| `Protocol.PersistentProtocol.Emit` | ember/editor-conn/src/protocol.rs:108-114 | a frame is written, or held while paused unless it is the final disconnect |
| `Protocol.PersistentProtocol.Send` | ember/editor-conn/src/protocol.rs:117-129 | refines the send step the network theorems are about |
| `Protocol.PersistentProtocol.SendControl` | ember/editor-conn/src/protocol.rs:132-136 | refines the control step |
| `Protocol.PersistentProtocol.SendDisconnect` | ember/editor-conn/src/protocol.rs:139-146 | refines the disconnect step, written past a pause |
| `Protocol.PersistentProtocol.AcceptAck` | ember/editor-conn/src/protocol.rs:149-165 | drops acknowledged messages in a loop; equals the trimming step |
| `Protocol.PersistentProtocol.Resend` | ember/editor-conn/src/protocol.rs:188-197 | stamps and writes the whole queue in order |
| `Protocol.PersistentProtocol.Receive` | ember/editor-conn/src/protocol.rs:149-209 | refines the receive step for every frame type |
| `Protocol.PersistentProtocol.Tick` | ember/editor-conn/src/protocol.rs:213-230 | refines the tick step and answers whether the connection timed out |
| `Protocol.PersistentProtocol.SendKeepAlive` | ember/editor-conn/src/protocol.rs:233-238 | refines the keep-alive step |
| `Protocol.PersistentProtocol.BeginReconnect` | ember/editor-conn/src/protocol.rs:242-249 | drops what is held, lifts the pause, marks reconnecting |
| `Protocol.PersistentProtocol.EndReconnect` | ember/editor-conn/src/protocol.rs:252-265 | refines the end-of-reconnect step: an acknowledgement, then the queue |
| `Frames.ChunkedFramesArrive` | ember/editor-conn/src/frame.rs:79-134 | main result: the encodings of frames within the limit, cut anywhere, come out as exactly those frames, in order, with an empty buffer |
| `Frames.ChunkIndependence` | ember/editor-conn/src/frame.rs:99-134 | main result: any split of any byte stream, well formed or not, gives the same frames, the same failure and the same rest |
| `Frames.FramesRoundTrip` | ember/editor-conn/src/frame.rs:79-134 | decoding inverts encoding exactly when every payload is at most `MAX_FRAME_LEN` |
| `Frames.NoneEarly` | ember/editor-conn/src/frame.rs:114-134 | cut the stream anywhere: exactly the frames whole by then come out |
| `Frames.DrainExtends` | ember/editor-conn/src/frame.rs:99-134 | bytes that arrive later never change what earlier bytes decoded to |
| `Frames.EncodeInto` | ember/editor-conn/src/frame.rs:79-85 | appends the 13-byte header and the payload |
| `Frames.FrameDecoder.NextFrame` | ember/editor-conn/src/frame.rs:114-134 | takes the first whole frame, waits for more bytes, or refuses an oversized length and keeps the buffer |
| `Frames.FrameDecoder.Push` | ember/editor-conn/src/frame.rs:99-101 | appends the chunk |
| `Frames.FrameDecoder.Pump` | ember/editor-conn/src/frame.rs:99-134 | pushing a chunk and pulling until nothing is whole drains exactly what the specification drains |
| `Text.SplitLines` | ember/editor-conn/src/document.rs:83-101 | the one-pass splitter computes the recursive definition of lines broken at `\r\n`, `\r` and `\n` |
| `Text.LinesOfJoin` | ember/editor-conn/src/document.rs:83-101 | joining unbroken lines and splitting again gives them back |
| `Text.JoinOfLines` | ember/editor-conn/src/document.rs:83-110 | splitting a text and joining the lines with `\n` or `\r\n` gives it back exactly when all its breaks are that one |
| `Text.SpliceFlat` | ember/editor-conn/src/document.rs:239-256 | replacing a range of lines is replacing a range of the joined text |
| `Text.SpliceAgrees` | ember/editor-conn/src/document.rs:239-256 | a splice leaves every place before it where it was |
| `Text.SpliceUnbroken` | ember/editor-conn/src/document.rs:239-256 | a splice leaves no line break inside a line |
| `Mirror.LocateExact` | ember/editor-conn/src/document.rs:185-206 | a position is accepted exactly when some scalar boundary has that line and UTF-16 column |
| `Mirror.OffsetIsUnits` | ember/editor-conn/src/document.rs:209-215 | an offset is the number of UTF-16 units of the joined text before the place |
| `Mirror.LocateMonotone` | ember/editor-conn/src/document.rs:185-206 | positions are ordered as the places they name |
| `Mirror.MultiCursorEdit` | ember/editor-conn/src/document.rs:259-298 | main result: edits are accepted exactly under the three checks, rejected without a trace, and otherwise the new text is the old one with all ranges replaced at once, every reported offset and length exact in the old text, the version new and larger |
| `Mirror.Simultaneous` | ember/editor-conn/src/document.rs:239-298 | applying the sorted edits one by one on the changing lines is replacing all at once, whatever was replaced before |
| `Mirror.EndToStartSorts` | ember/editor-conn/src/document.rs:264-267 | the edits are a permutation, last range first |
| `Mirror.EndToStartStable` | ember/editor-conn/src/document.rs:264-267 | edits at the same start keep their order |
| `Mirror.ReplaceAllIsFlush` | ember/editor-conn/src/document.rs:301-315 | `replace_all` never fails, reports the whole old text as one change and leaves exactly the new text |
| `Mirror.DocumentMirror.constructor` | ember/editor-conn/src/document.rs:124-134 | the mirror of a text has its lines and line end |
| `Mirror.DocumentMirror.ByteIndex` | ember/editor-conn/src/document.rs:185-206 | the counting loop finds the boundary the specification names, or refuses |
| `Mirror.DocumentMirror.RangeIsValid` | ember/editor-conn/src/document.rs:226-235 | the range check and its error |
| `Mirror.DocumentMirror.ApplyOne` | ember/editor-conn/src/document.rs:239-256 | splices the lines in place as specified, or fails leaving them |
| `Mirror.DocumentMirror.Apply` | ember/editor-conn/src/document.rs:259-298 | refines the specification the multi-cursor theorem is about, state and event both |
| `Mirror.DocumentMirror.ReplaceAll` | ember/editor-conn/src/document.rs:301-315 | refines its specification |
| `Mirror.DocumentMirror.SetEol` | ember/editor-conn/src/document.rs:318-331 | changes the line end and the version, nothing else |
| `Mirror.DocumentMirror.MarkSaved` | ember/editor-conn/src/document.rs:333-335 | clears the dirty mark, nothing else |
| `Coords.TransformRefinesOffsets` | ember/editor/src/coords.rs:200-224 | main result: a carried range consists of positions of the post-edit document whose flat offsets are the simple shift-and-clip of the old offsets |
| `Coords.DroppedExactly` | ember/editor/src/coords.rs:200-224 | main result: the result is `None` exactly when a non-empty range lies wholly inside the edit |
| `Coords.DisjointKeepsText` | ember/editor/src/coords.rs:200-224 | main result: a range disjoint from the edit covers the same text before and after |
| `Coords.InsertEnd` | ember/editor/src/coords.rs:173-181 | the computed end of an insertion is the position after the inserted text |
| `Coords.ShiftedPlace` | ember/editor/src/coords.rs:185-193 | a position after the edit is shifted by the difference of the flat lengths |
| `Coords.KeptPlace` | ember/editor/src/coords.rs:200-208 | a position before the edit keeps its flat offset |
| `Coords.OffsetOrder` | ember/editor/src/coords.rs:20-24 | positions and flat offsets are ordered alike |
| `Coords.ExthostRoundTrip` | ember/editor/src/coords.rs:31-88 | the two coordinate systems convert into each other without loss |
| `Coords.CharToUtf16` | ember/editor/src/coords.rs:119-130 | the column of the n-th scalar, or nothing past the end |
| `Coords.Utf16ToChar` | ember/editor/src/coords.rs:133-145 | the scalar at a column, or nothing exactly when no scalar starts there |
| `Coords.ClampCol` | ember/editor/src/coords.rs:148-158 | the largest boundary at or below the column |
| `Coords.ClampRange` | ember/editor/src/coords.rs:161-170 | a range of the document, and the given one if it already is one |
| `OpenDocuments.VersionsIdentifyContent` | ember/editor/src/document.rs:193-251 | main result: over any run the mirror version is `ext_base + widget_version`, never goes back, and is the same only if the bytes to save are |
| `OpenDocuments.HonestSave` | ember/editor/src/document.rs:240-251 | main result: after any run a finished save clears dirty only if the version saved is current, and then the bytes written are what would be written now |
| `OpenDocuments.ChangeAllOrNothing` | ember/editor/src/document.rs:193-207 | a change is taken exactly when its version is the next and its range valid; it moves both versions on by one, and one not taken leaves the document wholly unchanged |
| `OpenDocuments.SavedTextIsDiskText` | ember/editor/src/document.rs:182-251 | after saving, the recorded disk text is the buffer exactly unless the file has no byte-order mark and the buffer itself begins with U+FEFF |
| `OpenDocuments.TypedMarkIsLost` | ember/editor/src/document.rs:182-251 | a reachable document that fails it: U+FEFF typed into an empty file opened without a mark, then saved |
| `OpenDocuments.OpenedAndSaved` | ember/editor/src/document.rs:79-107 | saving a file just opened writes back its very bytes exactly when all its line breaks are of the kind detected |
| `OpenDocuments.OwnSaveMatchesDisk` | ember/editor/src/document.rs:226-251 | what a finished save wrote is recognised when the file is read again |
| `OpenDocuments.OpenDocument.constructor` | ember/editor/src/document.rs:79-107 | opening a file |
| `OpenDocuments.OpenDocument.ApplyWidgetChange` | ember/editor/src/document.rs:193-207 | refines the change step |
| `OpenDocuments.OpenDocument.Reset` | ember/editor/src/document.rs:212-224 | refines the reset step; the version moves on past every earlier one |
| `OpenDocuments.OpenDocument.Saved` | ember/editor/src/document.rs:240-251 | refines the saved step |
| `OpenRuns.OpenHolds` | ember/editor/src/document.rs:79-107 | an opened document holds the file: its lines, clean, and the bytes to save are the file's exactly when its line breaks are of one kind |
| `OpenRuns.ResetHolds` | ember/editor/src/document.rs:212-224 | a reset replaces everything by the file given, whatever the document held, one version later, at widget version 0 of the given generation, without a cursor |
| `OpenRuns.SinceReload` | ember/editor/src/document.rs:193-251 | main result: over any run, after a reload with no change taken since, the document is the reloaded file: lines, mark, generation, version |
| `OpenRuns.DiskKnown` | ember/editor/src/document.rs:226-251 | over any run, what is known to be on disk is the text last read or last saved |
| `OpenRuns.ChangeReplaces` | ember/editor/src/document.rs:193-207 | a change taken replaces exactly the text between its two positions, and changes nothing of the file the document came from |
| `OpenRuns.CursorBehindInsert` | ember/editor/src/document.rs:193-207 | the cursor after a change is the place right behind the inserted text |
| `OpenRuns.SavedChanges` | ember/editor/src/document.rs:240-251 | a finished save changes the text known to be on disk and the dirty mark, nothing else; bytes that are no text leave the former |
| `OpenRuns.RefusedFor` | ember/editor-conn/src/document.rs:226-298 | why a change is refused: the error of its first bad range, else an overlap, else its version |
| `OpenRuns.HostKeepsUp` | ember/editor/src/document.rs:110-251 | main result: over any run, the copy the extension host keeps by replaying the calls alone has the text, line end and version of the document |
| `OpenRuns.DirtyAgreesExactly` | ember/editor/src/document.rs:193-251 | main result: the host shows at every moment whether the document is dirty if and only if no save of another version is done while nothing is unsaved |
| `OpenRuns.LateSaveShowsDirty` | ember/editor/src/document.rs:240-251 | a session that fails it: a save done after the file was reloaded |
| `Transcripts.ScheduleConverges` | ember/client/src/transcript.rs:103-116 | main result: after offering events of one log in any order with any duplication, the transcript is the in-order reduction of the longest contiguous prefix offered, and exactly the rest is held |
| `Transcripts.SchedulesAgree` | ember/client/src/transcript.rs:103-116 | main result: two schedules of the same events end in the same transcript, indexes and held events included |
| `Transcripts.RunSound` | ember/client/src/transcript.rs:103-221 | main result: over every run at most one item streams and `streaming` points at it, and both indexes map each id to the last item carrying it |
| `Transcripts.ReduceSound` | ember/client/src/transcript.rs:118-211 | every kind of event keeps that |
| `Transcripts.NothingPendingAfterTurn` | ember/client/src/transcript.rs:193-201 | right after a turn ends no approval is pending and nothing streams |
| `Transcripts.Transcript.Apply` | ember/client/src/transcript.rs:103-116 | refines the offering step, drain loop included |
| `Transcripts.Transcript.Drain` | ember/client/src/transcript.rs:112-114 | applies held events for as long as the next one is there |
| `Transcripts.Transcript.ReduceOne` | ember/client/src/transcript.rs:118-211 | refines the reduction of one event |
| `Transcripts.Transcript.EndStreaming` | ember/client/src/transcript.rs:215-221 | ends the stream in place |
| `Transcripts.Transcript.AbandonPending` | ember/client/src/transcript.rs:194-199 | abandons exactly the pending approvals |
| `Conversations.ReduceShows` | ember/client/src/transcript.rs:118-211 | with exact indexes, every kind of event does to the items what it does when each is found by search: which item is appended or replaced, with which fields, all others staying |
| `Conversations.ScheduleShows` | ember/client/src/transcript.rs:103-211 | main result: whatever order events come in, the conversation shows the log up to the first event missing: its items, its streaming text, its usage |
| `Conversations.StreamedText` | ember/client/src/transcript.rs:125-142 | main result: over every log the streaming message is the texts of its deltas in order, numbered as the first, since the last event that ended a stream; and nothing streams without a delta since |
| `Conversations.FinalReplaces` | ember/client/src/transcript.rs:136-142 | the final message takes the place of what was streamed, or comes last |
| `Conversations.SaidOnce` | ember/client/src/transcript.rs:120-209 | main result: over every log, what the user said, errors, notices and ends of turns are shown exactly once each, in order, with number and text |
| `Conversations.CardsAndApprovals` | ember/client/src/transcript.rs:143-201 | main result: over every log, the last card of each call and the last approval of each id say what the log says of them: the last result, the last answer, or that the turn ended without one |
| `Conversations.UsageSums` | ember/client/src/transcript.rs:189-192 | usage is the sum of all reports |
| `Conversations.OfferAnswered` | ember/client/src/transcript.rs:103-116 | an offered event is a duplicate exactly if it came before, taken if it is the first missing, and else reports that one as missing |
| `ClientRuns.EveryReportComplete` | ember/client/src/state.rs:326-429 | main result: after any run, restarts included, whatever a reader sees differently after an input is named by its report: project list, sessions and their status, transcripts, computers, connection, team views (old and new team), stored teams, project records, cache; and every open session that starts to lack events is asked for |
| `ClientRuns.ReportComplete` | ember/client/src/state.rs:326-429 | the same for one input, with the invariants kept, nothing moved back, and the revision advancing exactly when the report names something |
| `ClientRuns.GapsAskedFor` | ember/client/src/state.rs:433-503 | an open session that starts to lack events is in `resync` of the same report |
| `ClientRuns.FetchClosesGap` | ember/client/src/state.rs:464-503 | main result: a fetch that brings every event after the transcript's last, up to the record's end, leaves it lacking nothing, with only later events still held |
| `ClientRuns.RunKeeps` | ember/client/src/state.rs:326-560 | main result: in every reachable state read marks, team links, derived projects and transcript indexes agree with what they derive from; open sessions are read to their end |
| `ClientRuns.NothingGoesBack` | ember/client/src/state.rs:433-560 | main result: over every run no session goes away, and neither its `last_seq` nor its `last_seen` decreases |
| `ClientRuns.RestartShowsTheSame` | ember/client/src/state.rs:210-233 | main result: after `from_cache(to_cache(s))` the sessions, each launcher status, the project list and the computers are the same |
| `ClientRuns.CacheRoundTrip` | ember/client/src/state.rs:210-233 | the cache gives back exactly what it is meant to hold |
| `ClientRuns.ComputersAgree` | ember/client/src/state.rs:532-550 | once projects are known, a computer lists exactly the projects that assign it, once each and by name |
| `ClientRuns.TeamsAgree` | ember/client/src/state.rs:289-291 | the team a session is in is stored under its own id and lists it |
| `ClientRuns.ProjectsAreListed` | ember/client/src/state.rs:248-263 | projects by name, each with exactly its sessions, most recently active first |
| `ClientRuns.MarksTold` | ember/client/src/state.rs:91-95 | the exact condition, for every input in every state: when some session gets another pin or archive mark, `projects` is set if and only if the input is pushed metadata, or a record of it, taken in its turn, is not stale and moves its session in the list |
| `ClientRuns.PinLeftUntold` | ember/client/src/state.rs:326-461 | runs in which a pin arrives with a record, loaded or pushed as created, and `projects` is not set |
| `ClientRuns.UpsertedKeeps` | ember/client/src/state.rs:433-461 | taking a record keeps the invariants and tells what it changed |
| `ClientRuns.OnEventKeeps` | ember/client/src/state.rs:464-503 | so does an event |
| `ClientRuns.TeamPutKeeps` | ember/client/src/state.rs:506-522 | so does a whole team |
| `ClientRuns.LinkedTold` | ember/client/src/state.rs:506-522 | whoever changes team, both teams are told |
| `ClientRuns.ProjectsTakenKeeps` | ember/client/src/state.rs:369-379 | so does a project list |
| `ClientRuns.ViewOpenedKeeps` | ember/client/src/state.rs:396-403 | opening a view keeps the invariants, reads the session to its end and asks for its events |
| `ClientRuns.MarkedSeenKeeps` | ember/client/src/state.rs:552-560 | so does marking a session seen |
| `ClientState.State.constructor` | ember/client/src/state.rs:185-207 | nothing is known |
| `ClientState.State.FromSnapshot` | ember/client/src/state.rs:210-220 | the state of a cache |
| `ClientState.State.MarkSeen` | ember/client/src/state.rs:552-560 | refines the mark, inserting a missing one as zero |
| `ClientState.State.Upsert` | ember/client/src/state.rs:433-461 | refines the taking of a record |
| `ClientState.State.OnEvent` | ember/client/src/state.rs:464-503 | refines the taking of an event |
| `ClientState.State.PutTeam` | ember/client/src/state.rs:506-522 | refines the taking of a team |
| `ClientState.State.Repoint` | ember/client/src/state.rs:510-519 | the retain and the member loop leave exactly the members pointing at the team, and collect the teams they left |
| `ClientState.State.UnlinkSession` | ember/client/src/state.rs:524-528 | refines the unlinking of a session |
| `ClientState.State.DeriveComputerProjects` | ember/client/src/state.rs:532-550 | the loop leaves each computer with its assigned projects, and says whether any changed |
| `ClientState.State.Apply` | ember/client/src/state.rs:326-429 | refines the whole reaction to an input, report and revision included |
| `Wire.TakeMeta` | ember/client/src/wire.rs:99-105 | takes title, pin and archive mark and nothing else, and says exactly whether that changed anything |
| `Readers.RecordsSeen` | ember/client/src/state.rs:326-503 | main result: after any run, each input leaves every session's record as the server last said: a loaded record unless the one held counts more events, a pushed status, number, time and native id, fetched events' number and time, pushed metadata |
| `Readers.NewestIs` | ember/client/src/state.rs:433-461 | of a list of records, the one kept is the held one if all others count fewer events, and else the last of those that count most |
| `Readers.PushedStatusShows` | ember/client/src/state.rs:464-483 | after any run, an event pushed past the end of a stored session shows its status, number and time, and a native session its id; one not past it changes nothing; all other fields stay |
| `Readers.FetchedStatusStays` | ember/client/src/state.rs:389-395 | after any run, fetched events leave every session's status |
| `Readers.MarksSeen` | ember/client/src/state.rs:433-560 | main result: after any run, an open session is read to its end, and a closed one as far as it was first counted, not at all if created while watched or heard of after the first list, or to where it was closed |
| `Readers.UnreadExactly` | ember/client/src/state.rs:310-322 | a finished session shows as unread exactly while it is closed and has events past its read mark; every other status shows as itself |
| `Readers.OpenSeen` | ember/client/src/state.rs:329-415 | which views are open, whether a list was loaded, and the connection, after each input |
| `Readers.TeamsSeen` | ember/client/src/state.rs:505-528 | main result: after any run, a team that comes new or changed is the view of its members and of no one else, a session said to be in none has none, all others keep theirs |
| `Readers.ProjectsSeen` | ember/client/src/state.rs:360-379 | projects and computers after each input are those last said; of a computer only its projects are derived |
| `Readers.TranscriptsHear` | ember/client/src/state.rs:389-503 | main result: over every run, an opened conversation is what it makes of the events that came since it was opened, pushed or fetched |
| `Readers.ViewShowsTheLog` | ember/client/src/state.rs:389-503 | main result: over every run in which the events that came are those of one log, an opened conversation shows that log up to the first event that has not come |
| `Reports.NothingWithoutCause` | ember/client/src/state.rs:326-429 | main result: after any run, what a report names shows differently, or is what the input itself opened, closed or listed |
| `Reports.ListAskedForExactly` | ember/client/src/state.rs:326-486 | the list of sessions is asked for again exactly when pushes were missed or something came for a session not stored |
| `Reports.EventsAskedForWithCause` | ember/client/src/state.rs:396-503 | a session's events are asked for only if its view lacks some, or just opened, or they were just fetched |
| `Ids.IdsIdentify` | ember/editor/src/ids.rs:59-89 | main result: over any run with fewer than 2^56 allocations, two answers are the same id exactly when the key is the same and was known all the while |
| `Ids.NeverReissued` | ember/editor/src/ids.rs:78-83 | an id answered before its document was forgotten is never answered again |
| `Ids.SameIdUnlessDropped` | ember/editor/src/ids.rs:59-89 | main result: over any run, a key gets the same id again exactly when nothing in between dropped it: its document was not forgotten, and no recomputation of its space left its id out |
| `Ids.IdLayout` | ember/editor/src/ids.rs:42-72 | the number of the space above the 56 bits of the counter |
| `Ids.AnswersCarrySpace` | ember/editor/src/ids.rs:59-76 | ids are not zero and carry their space |
| `Ids.AskedEachDistinct` | ember/editor/src/ids.rs:59-68 | different keys get different ids |
| `Ids.DecorationIds.Id` | ember/editor/src/ids.rs:59-68 | refines the table step |
| `Ids.DecorationIds.ForgetDocument` | ember/editor/src/ids.rs:81-83 | the loop over the keys drops exactly those of the document and leaves the counter |
| `Ids.DecorationIds.Keep` | ember/editor/src/ids.rs:87-89 | the loop over the keys drops exactly the dead ones of one space of the document |
| `CodeLens.LensesResolveAfterAnyRun` | ember/editor/src/codelens.rs:100-209 | main result: after any run of lists, resolves, edits, closings and other id traffic, drawing a document gives each lens an id no other has, which leads to the command whose title is shown |
| `CodeLens.EveryLensResolves` | ember/editor/src/codelens.rs:153-189 | the same for one drawing of lists with sound keys |
| `CodeLens.TakenSound` | ember/editor/src/codelens.rs:100-113 | keys are of their provider and no two of a list are the same |
| `CodeLens.ProvidersDiffer` | ember/editor/src/codelens.rs:108-110 | keys of different providers differ |
| `CodeLens.CodeLenses.SetList` | ember/editor/src/codelens.rs:100-124 | refines the storing of a list: its lenses and keys, what to resolve, what to release |
| `CodeLens.CodeLenses.Resolved` | ember/editor/src/codelens.rs:127-136 | a reply for an older list, a missing lens or without a command changes nothing |
| `CodeLens.LensCarriedExactly` | ember/editor/src/codelens.rs:139-151 | a lens keeps its key through an edit; it loses its command, and stays where it was, exactly when its non-empty range is wholly replaced, and else has the carried offsets |
| `CodeLens.CodeLenses.OnEdit` | ember/editor/src/codelens.rs:139-151 | the loops over lists and lenses carry each of them so |
| `CodeLens.CodeLenses.Decorations` | ember/editor/src/codelens.rs:153-182 | the nested loops compute the specified ids, targets and decorations |
| `CodeLens.CodeLenses.RemoveProvider` | ember/editor/src/codelens.rs:192-200 | drops the provider everywhere and releases exactly its cached lists |
| `CodeLens.CodeLenses.Close` | ember/editor/src/codelens.rs:203-209 | drops the document and its targets and releases exactly its cached lists |
| `LensRuns.EveryLensShown` | ember/editor/src/codelens.rs:153-182 | main result: a drawing shows each titled lens of the document exactly once, with its title, kind and the version asked for, at its own range if the document has it, and else at that range clamped |
| `LensRuns.LensesShownAfterAnyRun` | ember/editor/src/codelens.rs:100-209 | main result: the same after any run |
| `LensRuns.TakenExactly` | ember/editor/src/codelens.rs:100-113 | a stored list holds the readable lenses of the reply, in order, each as received |
| `LensRuns.UnresolvedExactly` | ember/editor/src/codelens.rs:114-120 | the lenses to resolve are exactly those without a command, in order |
| `LensRuns.SetExactly` | ember/editor/src/codelens.rs:100-124 | storing a list numbers it anew, asks for the first `cap` of those, releases the list it replaces, and touches no other |
| `LensRuns.ReplyMeetsItsLens` | ember/editor/src/codelens.rs:100-151 | main result: over every run, a resolve reply is taken exactly while the list it was asked for is still current, and changes the command of that very lens alone |
| `LensRuns.ReleasedWhenGone` | ember/editor/src/codelens.rs:100-209 | main result: over every run, a list is released exactly when it goes: replaced, closed, or its provider removed |
| `LensRuns.OthersLeadOn` | ember/editor/src/codelens.rs:127-209 | after any run, whatever happens to other documents leaves each drawn id leading where it did |
| `LensRuns.ClosedLeadsNowhere` | ember/editor/src/codelens.rs:203-209 | after a closing no id leads into the document, and every other leads where it did |
| `LensRuns.EditCarriesEach` | ember/editor/src/codelens.rs:139-151 | an edit carries every lens of its document and none of another |
| `LensRuns.KeyText` | ember/editor/src/codelens.rs:104-110 | a key is the provider, the line the lens starts on and which lens of that line it is, between bars |
| `Diagnostics.SquigglesIdentified` | ember/editor/src/diagnostics.rs:137-184 | main result: within one computed list no two squiggles share an id, none is zero, all carry their space |
| `Diagnostics.SquigglesIdentifiedAfterAnyRun` | ember/editor/src/diagnostics.rs:137-184 | the same for every table a run of id traffic leads to |
| `Diagnostics.LabelsDistinct` | ember/editor/src/diagnostics.rs:139-151 | no two markers of a document have the same key, whatever bars their texts hold |
| `Diagnostics.KeptExactly` | ember/editor/src/diagnostics.rs:113-125 | an edit drops exactly the markers whose non-empty range it wholly replaces, keeps the others in order, and leaves each at a range of the edited document |
| `Diagnostics.EditSaysTheSame` | ember/editor/src/diagnostics.rs:113-125 | an edit that wholly replaces no marker changes no key |
| `Diagnostics.MovedKeepIds` | ember/editor/src/diagnostics.rs:137-184 | markers that only moved keep their ids when drawn again |
| `Diagnostics.SquiggleShows` | ember/editor/src/diagnostics.rs:154-170 | a squiggle is a range of the document, and empty only on an empty line |
| `Diagnostics.ChangedEachExactly` | ember/editor/src/diagnostics.rs:66-97 | of every document named the last entry counts; nothing else changes |
| `Diagnostics.ClearedExactly` | ember/editor/src/diagnostics.rs:100-109 | clearing drops one owner everywhere and leaves no empty document |
| `Diagnostics.Diagnostics.ChangeMany` | ember/editor/src/diagnostics.rs:66-97 | refines the storing of markers |
| `Diagnostics.Diagnostics.Clear` | ember/editor/src/diagnostics.rs:100-109 | the two loops drop the owner, then the documents left empty; reports exactly the documents that had its markers |
| `Diagnostics.Diagnostics.OnEdit` | ember/editor/src/diagnostics.rs:113-125 | the loops over owners and markers keep exactly those |
| `Diagnostics.Diagnostics.Decorations` | ember/editor/src/diagnostics.rs:137-184 | the loop with its counters computes the specified keys, ids and decorations |
| `Squiggles.MarkersExact` | ember/editor/src/diagnostics.rs:129-135 | the markers of a document are, of each owner, those stored, in their order |
| `Squiggles.EveryMarkerDrawn` | ember/editor/src/diagnostics.rs:137-184 | main result: every marker of the document is drawn, under the id of its key, and nothing else: its severity, the version asked for, at its own range, or the range clamped and widened |
| `Squiggles.WidenedExactly` | ember/editor/src/diagnostics.rs:155-170 | an empty range is widened to exactly the next character, or the last one at the end of a line |
| `Squiggles.SaidAgainKeepsId` | ember/editor/src/diagnostics.rs:137-184 | main result: whatever other markers come, go or move, a marker drawn again keeps its id |
| `Squiggles.SameBaseExactly` | ember/editor/src/diagnostics.rs:142-149 | keys agree exactly when owner, severity, source, code and message do, if none of owner, source and code holds a bar |
| `Squiggles.OnlyDrawnKnown` | ember/editor/src/diagnostics.rs:171-182 | after a drawing the table knows exactly the document's drawn squiggles |
| `Squiggles.EditCarriesMarkers` | ember/editor/src/diagnostics.rs:113-125 | an edit carries the surviving markers of every owner of its document to the carried offsets, and touches no other document |
| `Squiggles.TrackedAsItCame` | ember/editor/src/diagnostics.rs:72-86 | a marker is stored as it came, its range counted from zero |
| `Squiggles.CodesCount` | ember/editor/src/diagnostics.rs:49-57 | the text a code counts by |
| `Decorations.ArrangedByRange` | ember/editor/src/diagnostics.rs:182-183 | decorations come by start, then end, then id |
| `Ipc.RoundTrip` | ember/editor-conn/src/ipc.rs:146-223 | main result: a nested value survives the wire, consuming exactly its bytes whatever follows, if and only if every length in it is below 2^32 |
| `Ipc.VqlRoundTrip` | ember/editor-conn/src/ipc.rs:110-144 | reading a variable-length integer inverts writing it, for every u32 |
| `Ipc.MessageRoundTrip` | ember/editor-conn/src/ipc.rs:226-239 | a message survives exactly under the same condition |
| `Ipc.WriteVql` | ember/editor-conn/src/ipc.rs:110-124 | the loop writes the specified digits |
| `Ipc.ReadVql` | ember/editor-conn/src/ipc.rs:127-144 | the loop reads what the specification reads, at any offset |
| `Ipc.Serialize` | ember/editor-conn/src/ipc.rs:146-182 | appends the specified bytes |
| `Ipc.Deserialize` | ember/editor-conn/src/ipc.rs:192-223 | reads what the specification reads, at any offset |
| `Ipc.EncodeMessage` | ember/editor-conn/src/ipc.rs:226-231 | header, then body |
| `Ipc.DecodeMessage` | ember/editor-conn/src/ipc.rs:234-239 | header, then body; a missing body is undefined |
| `Rpc.RoundTrip` | ember/editor-conn/src/rpc.rs:144-307 | main result: decoding inverts every successful encoding if and only if every length is below 2^32 |
| `Rpc.Encode` | ember/editor-conn/src/rpc.rs:144-236 | writes the specified bytes, or refuses a long method name or too many mixed arguments |
| `Rpc.Decode` | ember/editor-conn/src/rpc.rs:238-307 | reads what the specification reads, for every input |
| `Rpc.Reader.Take` | ember/editor-conn/src/rpc.rs:316-322 | takes the next bytes or refuses |
| `Z32.Encode` | ember/hub/src/z32.rs:6-23 | the loop spells the bits of the bytes, followed by zero bits |
| `Z32.NextByte` | ember/hub/src/z32.rs:10-18 | taking a byte never lets the bit buffer reach 2^12, and keeps it the bits not yet spelled |
| `Z32.ReadDigit` | ember/hub/src/z32.rs:26-47 | nor does taking a letter when decoding |
| `Z32.DecodeKey` | ember/hub/src/z32.rs:26-47 | answers a key exactly when the string is the one spelling of it |
| `Z32.CanonicalBijective` | ember/hub/src/z32.rs:6-47 | each key has one spelling and each spelling one key |
| `Z32.DecodeEncoded` | ember/hub/src/z32.rs:6-47 | main result: decoding inverts encoding for every 32-byte key |
| `Z32.EncodeDecoded` | ember/hub/src/z32.rs:6-47 | main result: whatever decodes is the encoding of what it decodes to |
| `Formats.FrameLayout` | ember/editor-conn/src/frame.rs:23-85 | a frame is its type number, its id, acknowledgement and length as big-endian words, and its payload |
| `Formats.FrameRead` | ember/editor-conn/src/frame.rs:114-134 | whatever bytes come, a whole frame at the front is read by that layout; an unknown type says nothing |
| `Formats.VqlLayout` | ember/editor-conn/src/ipc.rs:110-124 | an integer is written in seven-bit groups, least significant first, all but the last marked, no more than it needs |
| `Formats.IntLayout` | ember/editor-conn/src/ipc.rs:109-124 | an integer is written as the word of its two's complement, in at most five bytes, and a negative one in exactly five |
| `Formats.BytesLayout` | ember/editor-conn/src/ipc.rs:146-182 | texts, buffers and JSON are their tag, length and bytes |
| `Formats.OthersLayout` | ember/editor-conn/src/ipc.rs:146-182 | integers, arrays and undefined |
| `Formats.MessageLayout` | ember/editor-conn/src/rpc.rs:144-236 | a message is its type number, its request number and what it carries: of a request the receiver, the name with its length and the arguments, of a reply its value |
| `Formats.ArgumentLayout` | ember/editor-conn/src/rpc.rs:163-188 | an argument is its type number and its payload |
| `Formats.LongLayout` | ember/editor-conn/src/rpc.rs:133-141 | a long text is its length as a word and its bytes |
| `Outboxes.ReleasedExactly` | ember/app/src/model.rs:433-458 | main result: over every run a message goes out exactly when the session is not busy, something waits and nothing is out since; it is the one that waited longest; and the error shown is the last failure's until another message is put in |
| `Outboxes.NothingLost` | ember/app/src/model.rs:402-459 | main result: over every interleaving, of every text of every session, what was put in or given back is waiting, handed out or cleared |
| `Outboxes.OnePerTurn` | ember/app/src/model.rs:433-451 | main result: between two messages handed out for a session it was seen busy, or a failure was reported, or its `last_seq` passed where it was |
| `Outboxes.OrderKeptExactly` | ember/app/src/model.rs:402-459 | main result: over every run, whatever is reported failed and whenever, messages stay out in the order they were put in, at every moment, if and only if after each failed message only the same text had gone out |
| `Outboxes.PutBackInOrder` | ember/app/src/model.rs:454-458 | putting a message back in front keeps the order exactly when every message handed out after it is the same text |
| `Outboxes.DeliveredInOrder` | ember/app/src/model.rs:402-459 | so the order is kept when each failure is reported before the next message goes out |
| `Outboxes.LateFailureReorders` | ember/app/src/model.rs:454-458 | a run of two late reports, which keeps the order exactly when the two texts are the same |
| `Outboxes.NothingAfterClear` | ember/app/src/model.rs:424-426 | after a clear nothing waits and nothing is handed out until a message is put in or given back |
| `Outboxes.Outbox.Add` | ember/app/src/model.rs:410-413 | refines `push` |
| `Outboxes.Outbox.Release` | ember/app/src/model.rs:433-451 | refines `next` |
| `Outboxes.Outbox.Failed` | ember/app/src/model.rs:454-458 | refines `failed` |

## Left out

- `ember/editor-conn/src/connection.rs`, `client.rs`, `session.rs`, `handshake.rs`: sockets, tasks, channels and locks; only which endpoint methods are called in which order is used.
- Wrap-around of the 32-bit message counter: a send is enabled below 2^32 - 1 messages, where the source would overflow.
- The clock: a method argument, an arbitrary integer of milliseconds. The network's steps are a superset of what the connection does (a keep-alive also while reconnecting, frames of an old transport still arriving, pause and resume frames at any time).
- `Protocol.PersistentProtocol.Send`: requires fewer than 2^32 - 1 messages sent, see above.
- 32- and 64-bit overflow of lines, columns, offsets, versions, revisions and usage sums: natural numbers here.
- Lines hold Unicode scalars, so a byte index of the source is a scalar index here; the cut points are the same. Error messages are reduced to their kinds.
- The library's stable sort is an insertion sort with sortedness, permutation and stability proved; ordered maps are maps whose keys are put in order by `Ordering.Ordered`.
- `position_from_byte`, `utf16_to_byte` on its own, `DocumentBridge`, `set_language` and the calls built for the extension host: routing over the modelled operations.
- File bytes in `OpenDocuments` are a string of scalars or "not UTF-8"; UTF-8 itself is not part of this model.
- `Transcripts`: JSON values are opaque; the log offers one event per sequence number.
- `ClientState.State`: its transcripts are values replaced in the map rather than objects changed in place, so aliasing between transcripts is not captured; `Transcripts.Transcript` proves the in-place form of the same steps.
- `ClientState`: decoding of pushes and the cache file, `Changes::merge` and the one-line readers (`project_computers`, `open_sessions` and the like).
- `Wire`: tolerant decoding of unknown statuses and kinds; they are the `Unknown` constructors here.
- Decoration colours, the wire form of decorations, hover and ghost-text bridges, `Diagnostics::at` and JSON decoding of lens and marker replies: each lens comes with its range if that can be read and its command if it has one.
- `CodeLens.CodeLenses.RemoveProvider`: what is released is given as a set, so the order of releases is not modelled.
- `CodeLens.CodeLenses.Close`: the same.
- `Diagnostics.Diagnostics.Clear`: the touched documents are a set; the source visits them in no particular order.
- `Outboxes`: which error text is shown; it is stored as given. For the order of messages a failure report names the message that failed and repeats its text, as `ember/app/src/services.rs:86-96` does.
- `Z32.DecodeKey`: strings are characters, and one outside the alphabet is refused, as a non-ASCII byte is in the source.
- HTTP clients, routers, the Python proxy, the user interface, `SessionCore`, the fake hub, configuration, preferences and `rpc_ids`: network calls, settings, screens and routing around the modelled parts.
