# Gunda, verified

Gunda is a resumable download manager. This project models the parts of it whose promises are hard to keep and
proves them in Dafny 4.11:

- **Crash-safe transfers.** The segmented engine (`Stream*.dfy`) and the direct HTTP engine (`Http*.dfy`) append to
  staging files, synchronise them and move a checkpoint in a store. Each engine is modelled twice: as a state machine
  over what survives a crash (`StreamProtocol`, `HttpProtocol`), where every reachable configuration is proved safe,
  and as imperative code (`StreamExecutor`, `HttpExecutor`) with the loops, branches and error paths of the source,
  every effect of which is proved to be one step of that machine. A staging path is missing, a regular file with a
  stable part and a part a crash may lose, or something else (`Staging`).
- **Wire formats and manifests.** WebSocket framing and reassembly (`Frames`, `WebSocket`), HLS attribute lists and
  playlists (`Hls*`), DASH timelines (`DashTimeline`), `Content-Range` (`HttpRange`), the persisted track selection
  (`Selection`), and the plan fingerprint (`Fingerprint`) with what it tells apart (`Identity`). A parser's loop is proved equal to a meaning stated over the
  whole input, and printers and parsers are proved to undo each other.
- **The capture channel.** Up to eight connections, one listener that owns a bounded catalog, and the daemon behind it,
  as a state machine in which any party may take the next step (`Capture`, `CaptureSafety`, `Catalog`, `Page`).
- **The daemon.** Scheduling, automatic attempts and commands that wait while workers run (`Jobs`, `Scheduler`,
  `Daemon`).
- **Publication.** Names (`FileName`, `Title`), the final link or rename (`Finalize`), and the way from a prepared
  attempt to the published file (`Delivery`).

What the code cannot decide for itself — timers, cancellation, system calls, the network, the database — is
unconstrained choice (`Environment`) or an explicit assumption: an origin is *honest* when a body it ends well under a
strong tag, or for a segment, is that representation or resource; and while a checkpoint is stored, a manifest that plans
to its fingerprint names resources with the same bodies. Nothing else is assumed of it. A store may fail after it has
done what was asked, as a database whose commit is not acknowledged may.

The two engines' protocols have one writer for a download's files and checkpoint. That is not assumed: it is what
`Scheduler.SingleWriter` says of every state the daemon and its workers can reach, and each attempt starts and ends
between protocol runs (`phase == Idle`).

Integers are unbounded in Dafny; the 64-bit and signed-column limits, saturation and wrap-around of the source are
written out.

`dafny verify dfyconfig.toml` checks the whole project.

## What the proofs turned up

- An HLS byte range is continued from `offset + length`, an unchecked 64-bit sum (crates/gunda-stream/src/hls.rs:541).
  Following ranges meet exactly when that sum fits (`FollowingRangesMeet`). Past it a build without overflow checks
  wraps, which is what the model does, and starts the next range again from the beginning: `SecondRangeWraps` says so of
  every such playlist and `RangesCanOverlap` gives one. A build with overflow checks panics there instead.
- The plan fingerprint hashes decoded query names and values without escaping, so `a=1%3Fb%3D2` and `a=1&b=2` hash alike
  (`DecodedValuesCanCollide`). A resource shares its text with another one exactly when its query keeps two parameters
  or more, or one whose text can be cut at another `=` into a name that is not a signing one (`TwinExactly`). Among URLs
  with no `=` or `?` in a kept name it is exactly when two are kept, or when one value splits at a `?` into a value and a
  parameter that may stand after it (`CleanTwinExactly`). Where no value splits, the hashed text is equal exactly for the
  same resource (`TextDeterminesResource`).
- Between the texts of a plan's resources the fingerprint writes bytes 0 and 1, and a decoded `%00` or `%01` in a query
  puts the same bytes inside a text. With them two plans of plain URLs can be written alike: one resource's value holds
  the end of that resource and the start of the next (`MarksCanCollide`). Without them the bytes tell how a plan is
  written, part by part (`PlanBytesTellTheWriting`), and a plan shares its bytes with one of other resources exactly
  when the URL of its manifest or of a resource is ambiguous in itself (`PlanTwinExactly`). If those URLs are plain too,
  whole plans are told apart (`PlanBytesDetermine`).
- A stored track selection is at most 128 characters, and the declared total is appended after it was printed to fit. So
  a selection can be offered that is refused with its total (`TotalCanBeTooMuch`), and the largest DASH selections
  cannot be printed at all (`LargestDashIsRefused`). Both round trips hold exactly within that limit.
- An HTTP download whose first synchronisation never came can be left by a crash with a checkpoint at zero and no file
  (`CheckpointWithoutFile`), which that engine refuses to resume; the segmented engine begins again from there
  (`OpenEntry`). It can happen exactly while nothing was synchronised (`CrashIsResumableExactly`).
- Candidate numbers saturate at 2^64 - 1. All are different exactly as long as no more than 2^64 are given
  (`NumbersRunOutExactly`): two new candidates share one exactly when 2^64 - 1 came before the first of them
  (`SharedExactly`). 2^64 + 1 reports of new URLs end with two candidates listed under one number
  (`SaturatedNumbersRepeat`).

## Model

| member | source | states |
|---|---|---|
| StreamProtocol.EveryReachableConfigIsSafe | crates/gunda-stream/src/executor.rs:723-1059 | In every configuration any mix of opens, chunks, ends, rewinds, syncs, saves, removals, clears and crashes leads to, each stored checkpoint is the length of the concatenated first `next_resource` bodies, its bytes are stable in the file if the file is there, and track 1 has progress only if track 0 is complete |
| StreamProtocol.StepKeepsInv | crates/gunda-stream/src/executor.rs:795-1059 | Each single step keeps that invariant |
| StreamProtocol.NoStepCutsTheDurablePrefix | crates/gunda-stream/src/executor.rs:951-1014 | No step but the removal of the file takes a checkpointed byte away, neither a truncation nor a crash |
| StreamProtocol.PositionsOnlyAdvance | crates/gunda-stream/src/executor.rs:1016-1059 | Between clears stored positions never decrease, over any stretch of any history |
| StreamProtocol.CompletedTracksAreExact | crates/gunda-stream/src/executor.rs:723-932 | After any history, when the last track has been written to its end every staging file is exactly the concatenation of its track's resources |
| StreamProtocol.ResumeAfterCrashIsExact | crates/gunda-stream/src/executor.rs:951-1006 | After a crash at any point a file that was there reopens, and reopens at exactly the checkpointed resources |
| StreamProtocol.CanResumeMeansEveryTrackOpens | crates/gunda-stream/src/executor.rs:100-140 | Resuming is offered exactly when every track would open at its checkpoint |
| StreamResume.StreamResumeState.WithTrack | crates/gunda-stream/src/resume.rs:131-148 | A moved checkpoint changes one track, never backwards in either count |
| StreamResume.StartingBytesOfTwo | crates/gunda-stream/src/resume.rs:151-156 | The starting bytes of two tracks are their durable bytes added up, saturating |
| StreamStorage.MemoryRuleIsStoreRule | crates/gunda-storage/src/stream_resume.rs:149-232 | Within signed columns, the in-memory rule accepts a moved checkpoint exactly when the guarded update accepts it, and both give the same state |
| StreamStorage.GuardIsAccepts | crates/gunda-storage/src/stream_resume.rs:190-224 | The row-by-row guard lets an update through exactly when every track of the state reaches the stored one |
| StreamStorage.ReplacedIsStored | crates/gunda-storage/src/stream_resume.rs:190-231 | Replacing all rows of one download stores exactly the new state and touches no other download |
| StreamStorage.UpdateTracks | crates/gunda-storage/src/stream_resume.rs:190-224 | The loop of updates gives all rows replaced, or an error: a refusal only when some row's guard refuses |
| StreamStorage.StreamStore.Initialize | crates/gunda-storage/src/stream_resume.rs:19-89 | Creates one or two tracks at their start, never over an existing row; a failed database may have done it or not, any other error changes nothing |
| StreamStorage.StreamStore.Find | crates/gunda-storage/src/stream_resume.rs:91-147 | Reads back what is stored |
| StreamStorage.StreamStore.SaveCheckpoint | crates/gunda-storage/src/stream_resume.rs:149-232 | All tracks or none: on success the stored state is the new one and was acceptable; refused only if it was not acceptable; and a failed database has stored either the old state or the new one |
| StreamStorage.StreamStore.Clear | crates/gunda-storage/src/stream_resume.rs:234-242 | Removes one download's rows and no other's; on error they are all there or all gone |
| StreamExecutor.StreamDownload.Prepare | crates/gunda-stream/src/executor.rs:302-364 | With nothing stored takes up whatever plan the manifest gives, one track or two, whatever an earlier plan left staged; with a checkpoint, a plan of another fingerprint or number of tracks is refused and nothing changes; with a store, a total that differs from the saved one or is less than what is staged is refused |
| StreamExecutor.StreamDownload.OpenTrack | crates/gunda-stream/src/executor.rs:951-1006 | Creates the file afresh, or cuts it back to the checkpoint, and stands there |
| StreamExecutor.StreamDownload.TruncateTrack | crates/gunda-stream/src/executor.rs:1008-1014 | Goes back to the start of the resource being received, a protocol step |
| StreamExecutor.StreamDownload.CheckpointTrack | crates/gunda-stream/src/executor.rs:1016-1059 | Synchronises, then stores the position; the in-memory rule never refuses, other tracks' checkpoints stay, and a store that fails after storing leaves a safe configuration |
| StreamExecutor.StreamDownload.WriteTrack | crates/gunda-stream/src/executor.rs:795-932 | Writes a track from its checkpoint: completed means every resource written and checkpointed, stopped means checkpointed at a resource boundary; progress rises throughout |
| StreamExecutor.StreamDownload.WriteTracks | crates/gunda-stream/src/executor.rs:723-793 | Finished means every staging file exact and the count their total; stopped means the count is what the next run starts from |
| StreamExecutor.StreamDownload.TransferControlled | crates/gunda-stream/src/executor.rs:665-788 | One attempt: `Finished` only with every track exact, `Stopped` with the next run's starting bytes, reports strictly rising above this run's starting bytes |
| StreamExecutor.StreamDownload.Crash | crates/gunda-stream/src/executor.rs:951-1006 | What a crash leaves: the store, and of each file what survives |
| StreamExecutor.StreamDownload.ResetForRestart | crates/gunda-stream/src/executor.rs:142-181 | The checkpoint goes only after every staging file is gone, the partial file first; both track files too unless the store says there is one track; a failed lookup changes nothing |
| StreamExecutor.StreamDownload.CleanupStaging | crates/gunda-stream/src/executor.rs:1073-1081 | Cleaning up after a cancellation leaves a safe configuration whatever fails |
| StreamExecutor.StreamDownload.Settle | crates/gunda-stream/src/executor.rs:1137-1146 | After publication the checkpoint and the two tracks go; whichever of that fails, the configuration is safe |
| HttpProtocol.EveryReachableConfigIsSafe | crates/gunda-http/src/partial.rs:219-622 | In every configuration of any history of fresh, paused, failed, crashed and resumed runs, the file's first `durable_bytes` are that prefix of the representation the checkpoint names, and stable |
| HttpProtocol.NoStepCutsTheDurablePrefix | crates/gunda-http/src/partial.rs:317-402 | No step but a discard takes a durable byte away |
| HttpProtocol.CheckpointsOnlyAdvance | crates/gunda-http/src/partial.rs:574-622 | Until cleared a checkpoint keeps its representation and total and its count never decreases |
| HttpProtocol.CompletedTransfersAreExact | crates/gunda-http/src/partial.rs:435-559 | A transfer that has written the declared total holds exactly the representation |
| HttpProtocol.ResumeAfterCrashIsExact | crates/gunda-http/src/partial.rs:317-402 | After a crash at any point the durable prefix is there and is the representation's |
| HttpProtocol.CrashIsResumableExactly | crates/gunda-http/src/partial.rs:317-395 | In any history with a checkpoint and its file, whatever a crash leaves can be resumed exactly when something of the file was synchronised, as it was once a byte is checkpointed |
| HttpProtocol.CheckpointWithoutFile | crates/gunda-http/src/partial.rs:266-286 | A history that ends with a checkpoint at zero and no file |
| HttpBodies.HttpBody.NextChunk | crates/gunda-http/src/body.rs:57-111 | One read is the counting state machine `Next`: empty chunks skipped, counts never above the declared length or 64 bits |
| HttpBodies.DrainIsExact | crates/gunda-http/src/body.rs:57-111 | Read to the end, a body ends well exactly when the transport did and the bytes add up to the declared length, and then what was read is what was sent; otherwise only a prefix was read |
| HttpBodies.GoodEndIsComplete | crates/gunda-http/src/body.rs:75-84 | A good end comes only when the declared length has been counted |
| HttpBodies.GoodEndIsEnd | crates/gunda-http/src/body.rs:57-111 | A good end comes only when the transport ended well and nothing is left on it |
| HttpBodies.FailureIsSticky | crates/gunda-http/src/body.rs:57-118 | After a failure every read gives that failure again |
| HttpRange.ContentRange.BodyLength | crates/gunda-http/src/range.rs:52-54 | The length of an accepted interval is at least one byte, at most the total, and so never overflows |
| HttpRange.ParseFormat | crates/gunda-http/src/range.rs:14-35 | Every valid interval, printed, parses back to itself |
| HttpStorage.MemoryRuleIsStoreRule | crates/gunda-http/src/resume_state.rs:20-35 | Within signed columns the in-memory rule makes a state that the guarded update accepts exactly when the count is between the stored one and the total |
| HttpStorage.HttpStore.Initialize | crates/gunda-storage/src/http_resume.rs:20-56 | Creates a checkpoint at zero, never over an existing one; a failed database may have done it or not, any other error changes nothing |
| HttpStorage.HttpStore.SaveCheckpoint | crates/gunda-storage/src/http_resume.rs:74-115 | Stores exactly the new state, only forwards and for the same representation; refused only otherwise; and a failed database has stored either the old state or the new one |
| HttpStorage.HttpStore.Clear | crates/gunda-storage/src/http_resume.rs:117-125 | Removes that row and no other; on error it is there or gone |
| HttpClient.AcceptedTailIsTheRest | crates/gunda-http/src/client.rs:160-221 | A partial response that passes every check of `open_range` carries the rest of the asked-for representation, `total - start` bytes, with `0 < start < total` |
| HttpClient.RangedSegmentIsExact | crates/gunda-http/src/client.rs:234-289 | A ranged segment read to a good end is exactly that interval of the resource, and before that a prefix of it |
| HttpExecutor.NextContinues | crates/gunda-http/src/body.rs:57-111 | A body that continues a representation at a position yields its next bytes and ends well only at its end |
| HttpExecutor.HttpDownload.Prepare | crates/gunda-http/src/executor.rs:158-303 | Chooses a fresh transfer, the whole under a saved tag, the rest, or nothing; what it hands on completes the representation from the checkpoint, and a checkpoint that fails a local check is never resumed |
| HttpExecutor.HttpDownload.CanResume | crates/gunda-http/src/executor.rs:91-124 | Resuming is offered exactly to an idle job whose checkpoint passes every local check `Prepare` makes |
| HttpExecutor.HttpDownload.OpenWhole | crates/gunda-http/src/executor.rs:250-262 | From zero under a saved identity: only a response of that tag and length is taken |
| HttpExecutor.HttpDownload.OpenRest | crates/gunda-http/src/executor.rs:263-286 | From the middle, with `0 < durable < total`: what is taken is the rest of the representation |
| HttpExecutor.HttpDownload.SyncCheckpoint | crates/gunda-http/src/partial.rs:574-622 | Synchronises, then stores the count; no count is ever refused, so only the file or the database can fail, and a safe configuration is left if it does |
| HttpExecutor.HttpDownload.WriteNext | crates/gunda-http/src/partial.rs:455-516 | Writes the next chunk, so that the file and what is left on the wire stay the same bytes together; the count stays within the total and 64 bits, and the good end comes only at the total with nothing left |
| HttpExecutor.HttpDownload.StreamToPartial | crates/gunda-http/src/partial.rs:435-559 | Finished means the file is stable and is what it was followed by everything the transport sent, which ended well, and, under a checkpoint, the representation; stopped means the count is checkpointed |
| HttpExecutor.HttpDownload.WriteBodyToPartial | crates/gunda-http/src/partial.rs:219-302 | A transfer from zero never overwrites a path, and finishes only with exactly the bytes the transport sent |
| HttpExecutor.HttpDownload.ResumeBodyToPartial | crates/gunda-http/src/partial.rs:317-395 | A resumed transfer cuts the file to what is durable, appends what was sent, and finishes only with the whole representation |
| HttpExecutor.HttpDownload.TransferControlled | crates/gunda-http/src/executor.rs:333-395 | One attempt: `Finished` means the file is exactly the bytes sent, after the durable ones if it was resumed, and under a saved identity the representation; `Stopped` means its count is what is stored; reports rise above what it started from |
| HttpExecutor.HttpDownload.ResetForRestart | crates/gunda-http/src/executor.rs:73-89 | The checkpoint goes only after the staging file is gone |
| Frames.DecodeEncode | crates/gunda-capture/src/websocket.rs:237-291 | Every masked frame, under any mask and any of the three length encodings, decodes back to itself and leaves what follows |
| Frames.ClientReadsWritten | crates/gunda-capture/src/websocket.rs:293-326 | What the server writes, at all three lengths, reads back as the same frame |
| Frames.MaskTwice | crates/gunda-capture/src/websocket.rs:282-287 | Masking twice is doing nothing |
| Frames.BigEndianRoundTrip | crates/gunda-capture/src/websocket.rs:254-266 | Lengths written in network order read back |
| WebSockets.WebSocket.ReadFrame | crates/gunda-capture/src/websocket.rs:237-291 | Reading a frame from the stream, unmasking it in place, is `Decode` |
| WebSockets.WebSocket.WriteFrame | crates/gunda-capture/src/websocket.rs:293-326 | Appends exactly the encoded frame |
| WebSockets.WebSocket.Receive | crates/gunda-capture/src/websocket.rs:142-187 | The loop is the recursive meaning `ReceiveFrom`: result, frames written and bytes left |
| WebSockets.ReceiveDelivers | crates/gunda-capture/src/websocket.rs:142-187 | Any message within the limit, cut into frames anywhere, under any masks and length encodings, with pings and pongs anywhere between, comes out whole, and each ping is answered in order |
| WebSockets.ReceiveRefusesTooLarge | crates/gunda-capture/src/websocket.rs:339-347 | Any message over the limit is refused for its size, however it was cut |
| HlsSyntax.ParseAttributes | crates/gunda-stream/src/hls.rs:402-445 | The loop is the recursive meaning `ParseList`; it ends on every input because the rest shrinks |
| HlsSyntax.ParsePrintedList | crates/gunda-stream/src/hls.rs:402-445 | Any printable attribute list, printed, parses to the same pairs in order |
| HlsSyntax.ByteRangeRoundTrip | crates/gunda-stream/src/hls.rs:31-55 | A range written in a playlist is read back as its own numbers exactly when it is not empty and both fit 64 bits, and is refused otherwise |
| HlsPlaylists.Parse | crates/gunda-stream/src/hls.rs:478-696 | The loop over lines with its twelve variables is the fold `Parsed`; the first thing wrong decides the result |
| HlsPlaylists.Stops | crates/gunda-stream/src/hls.rs:508-682 | What is wrong with a line stays the result whatever follows |
| HlsMeaning.ParsedPlaylistMeansItsLines | crates/gunda-stream/src/hls.rs:478-696 | A playlist that parses is of the one kind its lines are of, and holds, in order, what its lines mean: each segment the latest key and map and the duration, discontinuity and range tagged since the previous one, each variant the attributes of the tag before it |
| HlsMeaning.LoopComputesMeaning | crates/gunda-stream/src/hls.rs:508-682 | After any number of lines every loop variable is what the lines so far say it is |
| HlsMeaning.SawTheTags | crates/gunda-stream/src/hls.rs:505-696 | The two kind flags say exactly whether such a tag, or a segment line, was seen |
| HlsMeaning.SequenceIsStartPlusIndex | crates/gunda-stream/src/hls.rs:550-559 | When the sequence tags precede all segments, segment `k` is numbered start + k, saturating |
| HlsMeaning.FollowingRangesMeet | crates/gunda-stream/src/hls.rs:525-544 | Consecutive ranges on one URI, the second's offset left out, meet without gap or overlap exactly when the end of the first fits 64 bits |
| HlsMeaning.SecondRangeWraps | crates/gunda-stream/src/hls.rs:525-544 | In the playlist text of one URI twice, whatever the numbers, the second range is parsed to start at the sum of the first one's modulo 2^64 |
| HlsMeaning.RangesCanOverlap | crates/gunda-stream/src/hls.rs:525-544 | A playlist text whose second range is parsed to start at byte 1, inside what came before |
| HlsMeaning.ChainTiles | crates/gunda-stream/src/hls.rs:525-544 | A whole run of such ranges tiles: each starts where the lengths before it add up to |
| DashTimeline.ExpandTimeline | crates/gunda-stream/src/dash.rs:817-865 | The two loops compute `Expanded`, and at most 200001 turns of the inner one are taken, however large a repeat count |
| DashTimeline.Repeat | crates/gunda-stream/src/dash.rs:850-859 | The inner loop stops at the first segment that does not fit and says which limit it broke |
| DashTimeline.CountRepeats | crates/gunda-stream/src/dash.rs:834-848 | A negative repeat stands for the largest number of whole segments before the period end, and at least one; any other for one more than it says |
| DashTimeline.ExpandsExactlyWhenLaidOut | crates/gunda-stream/src/dash.rs:817-865 | A timeline expands exactly when its entries can be laid out one after the other within the limits, and then segment `k` of entry `i` starts at the entry's start plus `k` durations |
| Selections.HlsRoundTrip | crates/gunda-stream/src/selection.rs:37-160 | Every HLS selection fits the limit, reads back with or without a declared total, and is refused by the DASH parser |
| Selections.HlsAudioRoundTrip | crates/gunda-stream/src/selection.rs:53-160 | With an audio rendition the printer succeeds exactly when numbers, language and eleven characters fit 128, the text with its total is storable exactly when that fits too, and then index, sanitised language and total come back |
| Selections.TotalCanBeTooMuch | apps/gundad/src/lib.rs:189-192 | A selection of 128 characters is accepted and refused once its total is appended |
| Selections.DashRoundTrip | crates/gunda-stream/src/selection.rs:82-188 | A DASH selection is printed exactly when its six fields and twelve characters fit 128, and then both tracks come back, a size is never appended, and the HLS parser refuses it |
| Selections.LargestDashIsRefused | crates/gunda-stream/src/selection.rs:82-106 | Six 20-digit numbers make 132 characters and cannot be printed |
| Selections.TotalFitsExactly | crates/gunda-core/src/download/selection.rs:17-36 | A printed HLS selection with its total is stored exactly when both fit the limit together |
| Selections.PrintedSize | apps/gundad/src/lib.rs:1426-1437 | The daemon's appended total is one more part of an HLS selection |
| Fingerprints.Fnv128.Write | crates/gunda-stream/src/resume.rs:314-325 | Only the bytes written one after the other count, not the pieces they came in |
| Fingerprints.HashUrl | crates/gunda-stream/src/resume.rs:251-273 | Hashing a URL writes exactly its canonical text |
| Fingerprints.Of | crates/gunda-stream/src/resume.rs:26-54 | The fingerprint is the hash of the plan's canonical bytes |
| Fingerprints.FingerprintIgnoresSigning | crates/gunda-stream/src/resume.rs:26-54 | Plans whose URLs differ only in signing parameters and in the order of parameters have the same canonical bytes |
| Fingerprints.PermutingKeepsIdentity | crates/gunda-stream/src/resume.rs:263-265 | Permuting query parameters keeps a resource the same |
| Fingerprints.SigningKeepsIdentity | crates/gunda-stream/src/resume.rs:275-299 | Adding a signing parameter anywhere, in any letter case, keeps a resource the same |
| Identities.TextDeterminesResource | crates/gunda-stream/src/resume.rs:251-273 | On URLs whose kept names hold no mark and whose kept values do not split, the hashed text is equal exactly for the same resource |
| Identities.TwinExactly | crates/gunda-stream/src/resume.rs:251-299 | Some other resource has the same hashed text exactly when the query keeps two parameters or more, or one that can be cut at another `=` |
| Identities.CleanTwinExactly | crates/gunda-stream/src/resume.rs:251-299 | Among URLs with plain names: exactly when two or more are kept, or one whose value splits at a `?` into a value and a parameter that may stand after it |
| Identities.PlanBytesTellTheWriting | crates/gunda-stream/src/resume.rs:26-54 | On web addresses with no decoded character 0 or 1, the hashed bytes are equal exactly for plans of the same kind, manifest text and, one by one, tracks, URL texts and byte ranges |
| Identities.PlanBytesDetermine | crates/gunda-stream/src/resume.rs:26-54 | If those URLs are plain too, they are equal exactly for plans of the same kind, manifest and, one by one, resources, tracks and byte ranges |
| Identities.PlanTwinExactly | crates/gunda-stream/src/resume.rs:26-54 | Among plans of web addresses with no decoded character 0 or 1, one of other resources has the same bytes exactly when the URL of the manifest or of some resource is ambiguous |
| Identities.MarksCanCollide | crates/gunda-stream/src/resume.rs:26-54 | For any two web addresses, with those characters: two plans of plain URLs, of different resources, with the same bytes whatever the manifest |
| Identities.DecodedValuesCanCollide | crates/gunda-stream/src/resume.rs:263-272 | Two different queries whose hashed text is equal |
| Identities.OutOfOrderIsPlain | crates/gunda-stream/src/resume.rs:263-272 | A value that holds a parameter out of order collides with nothing whose names are plain, and one with a `?` and no `=` with nothing at all |
| Sorting.SortedIsCanonical | crates/gunda-stream/src/resume.rs:265 | Sorting gives the same sequence exactly for permutations |
| Catalogs.Catalog.Record | crates/gunda-capture/src/candidate.rs:264-323 | A known URL is refreshed in place; a new one goes first, numbered, and the oldest falls off a full list |
| Catalogs.Catalog.Remove | crates/gunda-capture/src/candidate.rs:351-356 | Exactly the candidates of that number go, and it says whether there were any |
| Catalogs.Catalog.Clear | crates/gunda-capture/src/candidate.rs:358-360 | The list is emptied, the numbering goes on |
| Catalogs.EveryHistoryIsWellKept | crates/gunda-capture/src/candidate.rs:264-360 | After any sequence of records, removals and clears that gives no more than 2^64 numbers: newest first, no URL twice, within capacity, every number the one issued to its URL |
| Catalogs.NumbersAreNeverReused | crates/gunda-capture/src/candidate.rs:298-299 | While no more than 2^64 numbers are given, a number means the same URL at any two moments of a history |
| Catalogs.NumbersRunOutExactly | crates/gunda-capture/src/candidate.rs:298-299 | No number is given twice exactly as long as no more than 2^64 are given |
| Catalogs.SharedExactly | crates/gunda-capture/src/candidate.rs:298-299 | Two new candidates of a history get one number exactly when at least 2^64 - 1 were numbered before the first |
| Catalogs.NextNumberCounts | crates/gunda-capture/src/candidate.rs:298-299 | The next number is how many were given, or the largest there is |
| Catalogs.RepeatKeepsNumberAndPlace | crates/gunda-capture/src/candidate.rs:267-296 | A repeated report keeps its number and place and moves nothing else |
| Catalogs.SaturatedNumbersRepeat | crates/gunda-capture/src/candidate.rs:298-323 | A history of 2^64 + 1 reports of new URLs, from an empty catalog, ends with two candidates listed under one number |
| Pages.TrackingKeepsPage | crates/gunda-capture/src/server.rs:721-765 | A tracking parameter anywhere in a page's URL leaves it the same page, on every site |
| Pages.BestIsBest | crates/gunda-capture/src/server.rs:293-301 | The candidate chosen for a page is on it and none on it outranks it; none is chosen only if there is none |
| CaptureSafety.EveryReachableStateIsSafe | crates/gunda-capture/src/server.rs:235-364 | Every state that any interleaving of connections, listener, daemon and desktop leads to, while there are numbers left to give, keeps the channel's invariant |
| CaptureSafety.StepKeepsInv | crates/gunda-capture/src/server.rs:235-719 | Each single step of any party keeps it |
| CaptureSafety.GreetingGatesEverything | crates/gunda-capture/src/server.rs:497-549 | No candidate is listed, no report waits for the catalog and no request was passed on but from a connection that greeted with the token; what is listed or waits is what that connection reported in a message of its own; at most eight connections are open |
| CaptureSafety.StepKeepsOrigins | crates/gunda-capture/src/server.rs:265-268 | Each step keeps every number, and every waiting report, with the greeted connection whose message it came from |
| CaptureSafety.OneFairResponseEach | crates/gunda-capture/src/server.rs:551-718 | After the greeting each message has exactly one response, in order, never more than one behind, and each response answers its message |
| CaptureSafety.NamedCaptureIsServed | crates/gunda-capture/src/server.rs:285-302 | A download that names a capture is queued only for that capture, and one that reports a URL only for that URL |
| CaptureSafety.EventServes | crates/gunda-capture/src/server.rs:269-356 | What the listener asks the daemon for is the named candidate, or one of the named page |
| CaptureSafety.RecordedIsIssued | crates/gunda-capture/src/server.rs:265-268 | The number a report is answered with is the one issued to its URL |
| Jobs.CommandsFollowTheLifecycle | crates/gunda-core/src/application/manager.rs:596-658 | A command never touches a job being worked on and leaves it queued, paused or cancelled; every change but a restart is one the lifecycle allows, and a restart may be made of any job nobody works on |
| Jobs.CancelWins | crates/gunda-core/src/application/download_cancellation.rs:33-51 | However pauses and cancellations interleave, a cancellation is never lost and never undone |
| Scheduler.EveryReachableStateIsSafe | apps/gundad/src/lib.rs:530-614 | In every reachable state the active list is exactly the live and just-finished workers, each once |
| Scheduler.SchedulerIsSafe | apps/gundad/src/lib.rs:530-614 | At most three active, never two workers for one download, at most three attempts each, and a restart clears files only of a download without a worker |
| Scheduler.OneTaskPerDownload | apps/gundad/src/lib.rs:530-562 | Two tasks never share a download, even while its job waits in the queue for its next attempt |
| Scheduler.CleanupIsAlone | apps/gundad/src/lib.rs:289-327 | While a restart or a resumption is being carried out nothing else has to do with that download |
| Scheduler.SingleWriter | apps/gundad/src/lib.rs:289-327 | In every reachable state at most one worker or one clean-up is at work on a download's files and checkpoint |
| Scheduler.ScheduledIsFull | apps/gundad/src/lib.rs:530-562 | When the scheduler returns, three jobs are active or every queued job is |
| Scheduler.ScheduledInOrder | apps/gundad/src/lib.rs:530-562 | Whatever it starts is numbered below whatever it leaves waiting |
| Scheduler.NoJobIsForgotten | apps/gundad/src/lib.rs:564-614 | The same after everything the daemon handles |
| Scheduler.FirstWaiting | apps/gundad/src/lib.rs:532-536 | The job found is the waiting one with the smallest number, and none is found only if none waits |
| Daemons.Daemon.ScheduleJobs | apps/gundad/src/lib.rs:530-562 | The loop computes `Scheduled` |
| Daemons.Daemon.HandleFinished | apps/gundad/src/lib.rs:586-612 | A finished task leaves the active list, its unsaved output is kept, and the scheduler runs |
| Daemons.Daemon.Pause | apps/gundad/src/lib.rs:228-242 | A running download is asked to pause, any other is paused where it waits; says whether it was |
| Daemons.Daemon.Cancel | apps/gundad/src/lib.rs:329-340 | The same for cancelling |
| Daemons.ExecuteJob | apps/gundad/src/lib.rs:1125-1168 | Attempts follow one another exactly while each may be tried again and was queued again, three at most, with doubling pauses |
| FileNames.CandidatesAreDistinct | crates/gunda-http/src/finalize.rs:198-209 | No two attempts try the same name |
| FileNames.CandidateKeepsRules | crates/gunda-http/src/finalize.rs:198-266 | A numbered name keeps every rule its name keeps but the one on length |
| FileNames.CandidateLength | crates/gunda-http/src/finalize.rs:198-209 | Below a thousand attempts the number costs at most six bytes |
| FileNames.NeverAStagingName | crates/gunda-http/src/finalize.rs:232-237 | Nothing that keeps the rules is a staging name |
| Publication.Directory.Publish | crates/gunda-http/src/finalize.rs:121-196 | On success all the staged bytes stand under the first free candidate, or the wanted name when overwriting, and every other name keeps what it had; on error nothing changed; names run out only when a thousand are taken |
| Publication.PublishingDestroysNothing | crates/gunda-http/src/finalize.rs:160-193 | Unless told to overwrite, whatever had a name keeps it and its content |
| Publication.FirstFreeIsUnique | crates/gunda-http/src/finalize.rs:166-193 | What is in the directory settles which name is taken |
| Publication.PublishedNameIsSafe | crates/gunda-http/src/finalize.rs:198-266 | A published name keeps every rule, within 206 bytes |
| Delivery.PublishStaged | crates/gunda-http/src/finalize.rs:111-196 | The staged bytes stand under the published name, a new one unless overwriting, and nothing but the staging name is touched |
| Delivery.DeliverHttp | crates/gunda-http/src/executor.rs:403-418 | A transfer that finishes and is published leaves, under the published name, all the server sent: as many bytes as it declared, and the whole representation when it gave a strong tag and a length, or when a checkpoint names one. A strong tag without a length promises only what was sent |
| Delivery.DeliverStream | crates/gunda-stream/src/executor.rs:1122-1153 | A one-track download that finishes and is published leaves the concatenation of its resources under the published name; with two tracks, the file they were made into |
| Titles.TitleNameExactly | crates/gunda-http/src/destination.rs:60-146 | A title gives a name exactly when, stripped of its annotations, it has some text; and the name passes validation within 180 bytes |
| Titles.TitleFilename | crates/gunda-http/src/destination.rs:60-120 | The loops and the fallback compute that name |
| Titles.CutAt | crates/gunda-http/src/destination.rs:92-96 | Stepping back to a character boundary finds the longest front that fits the limit |
| Titles.Clean | crates/gunda-http/src/destination.rs:62-85 | The cleaning loop computes the collapsed text |

## Left out

- Muxing, containers, XML, JSON, SQL, TLS, tokio, SHA-1 and base64: replaced by their results, by maps or by choice.
- Planning: a plan is its fingerprint and, per track, its resources' bodies; `inherit` and `merge_template` are field lookups.
- Redirects and request headers: `send_redirected` only decides which response the engine sees.
- URL parsing: a URL is the record its parser leaves, with decoded query pairs; whether a report's URLs are usable is part of the message.
- File identity handles, symbolic links and file modes: one check's outcome is a parameter, and nobody else changes the directory.
- A crash may take away a file none of whose bytes was synchronised; a file with a synchronised byte keeps its directory entry, and removals are not undone.
- Real time: the one-second checkpoint rule, deadlines and backoff are choices; progress percentages and display text are left out.
- Durations and other floating point: an EXTINF line's milliseconds are whatever an unknown function of its text says.
- The handshake head and close frames the server sends, `native_host`, `gunda-ipc`, `pairing`, `runtime_lease`, the desktop app and the browser extension.
- The daemon's `create`, `resume`, `retry`, `restart` and `save_status` are steps of the state machine only; `resume` and `restart` are two steps each, because workers run while they wait.
- The catalog snapshots the desktop reads, and the notices shown to the user.
- Shutdown: the listener and the daemon run for as long as the history lasts.
- HlsPlaylists.Parse: takes the conversion of a decimal duration as an unknown function, because rounding is not the point.
- WebSockets.WebSocket.Receive: does not model a transport whose writes fail; reads may end at any byte.
- StreamExecutor.StreamDownload.Prepare: a history of protocol steps is of one plan; with nothing stored, taking up another plan starts a new history from the files as they are.
- StreamExecutor.StreamDownload.Mux: the file two tracks are made into may hold anything, because containers are left out.
- Delivery.DeliverHttp: nothing else changes the directory between the end of the transfer and the publication.
- Publication.Directory.Publish: the identity of the open file and the directory comparison are parameters, because handles are not modelled.
- CaptureSafety.OneFairResponseEach: does not say that a response comes at all, because any party may stop at any step.
- Daemons.ExecuteJob: takes the outcome of each attempt as given; what an attempt does is in `Scheduler.Worked`.
- Identities.PlanTwinExactly: says nothing of URLs with a decoded character 0 or 1 in their query, whose texts can run into one another.
- Fingerprints.Of: collision resistance of the hash is left out; only what is hashed is told apart.
