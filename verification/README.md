# TeeChat OpenAPI edge: a Dafny model

This project models the parts of the TeeChat OpenAPI edge whose correctness is not visible from any one function, and
proves what they promise. `dafny verify dfyconfig.toml` checks all of it.

| file | component |
|---|---|
| `RevocationSync.dfy` | revocation set, authorization cache, epoch and poll clock shared by request threads and the poller, as a step machine |
| `RemoteAuth.dfy` | the same authenticator's methods, each run to its end, and proof that the step machine's threads do the same when left alone |
| `Http1Body.dfy` | HTTP/1.1 chunked writer and the three body readers (section 7.1 of RFC 9112) |
| `Utf8.dfy` | UTF-8 reassembly across decrypted chunks (sections 3 and 4 of RFC 3629) |
| `SseUsage.dfy` | usage meter on a server-sent event stream |
| `Deltas.dfy` | OpenAI deltas: folding, relaying, replaying |
| `PlainPaths.dfy` | decrypted plaintext on its two ways to the client, streaming and buffering |
| `Limits.dfy` | rate limiter, in-flight gate, per-IP connection tracker |
| `EdgePool.dfy` | accept loop, bounded queue, workers and 429 shedding, as a step machine |
| `Calendar.dfy` | two civil-date computations and two timestamp parsers (section 5.6 of RFC 3339) |
| `Maintenance.dfy` | maintenance windows: bounds, selection, refusal |
| `Der.dfy` | two extractors of the SubjectPublicKeyInfo (sections 8.1.3 and 10.1 of ITU-T X.690, section 4.1 of RFC 5280) |
| `AcmeNonce.dfy` | replay nonces across interleaved orders (section 6.5 of RFC 8555), as a step machine |
| `AcmeProvision.dfy` | order client and one HTTP-01 provisioning run (sections 7.1.6 and 7.4 of RFC 8555) |
| `Prelude.dfy` | optional and fallible values, bytes, concatenation |

Code that changes things in place is a class or a method with loops, tied by its contract to a function or an
independent predicate. Code whose threads interleave is a step machine: one step per lock, channel or atomic access, any
number of threads, and statements about every reachable state. Signatures, hashes, JSON text, HTTP exchanges and clock
readings are inputs: function parameters, constants of a class, or data of a step. Readers deliver any number of bytes
per call, writers take any number, servers answer anything their interface allows.

Five promises do not hold as a reader of the code's comments might state them. Each is given with an input on which it
fails and the exact condition under which it holds.

- The local revocation epoch can step back (`EpochCanStepBack`). Along a run it never does exactly when no sync stores an
  epoch that is newer than the one it loaded but older than the local one (`EpochMonotoneExactly`), which takes another
  sync's store in between (`SteppingBackMeansOvertaken`). The set covers the epoch in any case (`LocalEpochIsCovered`).
- The relay drops `reasoning` when a frame also carries `reasoning_content` (`TwoReasoningsLoseOne`): content survives
  exactly when no frame carries both (`RelayCommutesWithFolding`). A relayed stream of tool calls without a finish reason
  says `stop` although a buffered answer says `tool_calls` (`UnfinishedToolCallDiffers`): the two agree exactly when some
  frame carries a finish reason or none calls a tool (`RelayedFinishReason`).
- Buffering fails on a character cut between two decrypted chunks, which streaming puts together
  (`CutCharacterOnlyStreams`): it succeeds exactly when every chunk is text by itself (`BothWays`).
- The two timestamp parsers accept different `Z` timestamps (`OnlySecondsTakesMonthThirteen`): the milliseconds parser
  takes exactly those of the seconds parser whose month, day and magnitude are in range (`ParsersAgreeOnZulu`).
- The usage meter misses bytes that a full write forwarded before failing (`TornWriteLosesUsage`): it has absorbed all
  that was forwarded exactly when no full write was taken in part (`InStepUnlessTorn`).

The rate limiter does better than twice its rate: `2 * rate - 1` calls in any minute, and that is reached.

About the L0 server the model assumes what its interface says: an answer to "revoked since e" leaves out nothing up to
the epoch it reports, and L0 never revokes anything in an epoch it has already passed. In one epoch it may revoke any set
of keys.

## Model

| member | source | states |
|---|---|---|
| RevocationSync.LocalEpochIsCovered | crates/openapi-core/src/remote_auth.rs:115-142 | in every reachable state of any number of request threads, syncs, pushed revocations and pollers, every L0 revocation with epoch up to the local epoch is in the local set |
| RevocationSync.EpochMovesOnlyOnVerifiedFrames | crates/openapi-core/src/remote_auth.rs:129-142 | a step changes the local epoch only to the epoch of an answer all of whose frames verified and are in the set |
| RevocationSync.AppliedAnswerCovers | crates/openapi-core/src/remote_auth.rs:129-142 | when every frame of a complete answer is applied, everything up to the epoch it reports is known |
| RevocationSync.AlwaysInv | crates/openapi-core/src/remote_auth.rs:115-236 | the whole invariant (epoch covered, every thread's obligations, cache signed and filed under its own key, resets and successes justified) holds in every reachable state |
| RevocationSync.StepsBackExactly | crates/openapi-core/src/remote_auth.rs:137-139 | a step lowers the local epoch if and only if it is a store of an epoch newer than the one its sync loaded and older than the local one |
| RevocationSync.EpochMonotoneExactly | crates/openapi-core/src/remote_auth.rs:129-142 | over any run from any state, the local epoch never decreases if and only if no step of the run is such a store |
| RevocationSync.SteppingBackMeansOvertaken | crates/openapi-core/src/remote_auth.rs:129-142 | in every run from the start, a step that lowers the epoch belongs to a sync that loaded earlier in the run and, since then, another thread stored a different epoch |
| RevocationSync.EpochMonotoneWithoutOverlap | crates/openapi-core/src/remote_auth.rs:129-142 | if no two syncs overlap between load and store, no store is stale, so the local epoch never decreases along the run |
| RevocationSync.EpochCanStepBack | crates/openapi-core/src/remote_auth.rs:129-142 | a concrete reachable state and step in which the local epoch decreases |
| RevocationSync.PostponingHidesNothing | crates/openapi-core/src/remote_auth.rs:129-152 | whenever a response postponed the poll, the set then held every revocation up to the epoch that response reported |
| RevocationSync.PostponingIsRecorded | crates/openapi-core/src/remote_auth.rs:52-57 | every step that moves the poll deadline moves it to one interval from now and records the set and L0 of that moment |
| RevocationSync.UnreportedResetIsPollFailure | crates/openapi-platform-cvm/src/remote_client.rs:177-198 | the only other postponement is the poller's own after a failed sync |
| RevocationSync.RevokedKeyStaysOut | crates/openapi-core/src/remote_auth.rs:202-236 | once a key is in the set, every success of it in any continuation belongs to an authentication begun before, whatever is re-inserted in the cache |
| RevocationSync.AppliedRevocationShutsOut | crates/openapi-core/src/remote_auth.rs:115-126 | from the moment an applied revocation is about to return, no later authentication of its key succeeds; it gets there only with a verified signature |
| RevocationSync.RevokedAtL0StaysOut | crates/openapi-core/src/remote_auth.rs:115-236 | when L0 revokes keys, then once the local epoch has reached the epoch it did that in, no authentication of such a key begun from there on ever succeeds, in any run |
| RevocationSync.SuccessIsBacked | crates/openapi-core/src/remote_auth.rs:161-236 | every success, cached or fresh, rests on an authorization L0 returned, with verified signature, the presented key's hash, and unexpired at the call's clock reading |
| RemoteAuth.RemoteAuthenticator.constructor | crates/openapi-core/src/remote_auth.rs:92-105 | starts with nothing known, epoch zero and the poll due one interval from now |
| RemoteAuth.RemoteAuthenticator.ResetPollClock | crates/openapi-core/src/remote_auth.rs:52-57 | the poll is due one interval from now, nothing else changes |
| RemoteAuth.RemoteAuthenticator.ApplyRevocation | crates/openapi-core/src/remote_auth.rs:115-126 | a verified revocation enters the set and leaves the cache; an unverified one changes nothing |
| RemoteAuth.RemoteAuthenticator.SyncRevocationsFromL0 | crates/openapi-core/src/remote_auth.rs:129-142 | whole effect: frames up to the first bad one are applied, epoch and poll move only if all verified, coverage of the epoch is kept |
| RemoteAuth.RemoteAuthenticator.ConvoyAfterAuthorize | crates/openapi-core/src/remote_auth.rs:144-152 | whole effect: only postpones the poll when current, otherwise syncs; coverage of the epoch is kept |
| RemoteAuth.RemoteAuthenticator.CacheHit | crates/openapi-core/src/remote_auth.rs:161-191 | exactly when the cache answers, is silent, or reports a bad signature |
| RemoteAuth.RemoteAuthenticator.StoreCache | crates/openapi-core/src/remote_auth.rs:193-200 | only signed authorizations are stored, under their own key |
| RemoteAuth.RemoteAuthenticator.AuthenticateParsed | crates/openapi-core/src/remote_auth.rs:202-236 | whole effect and verdict: succeeds exactly for an unrevoked key with a fitting signed cache entry or, lacking one, a valid fresh authorization, and carries that policy; which error each failure gives; coverage of the epoch is kept |
| RemoteAuth.SyncAlone | crates/openapi-core/src/remote_auth.rs:129-142 | a sync thread of the step machine, uninterrupted, does exactly what the sequential method does, for every answer of L0 |
| RemoteAuth.PollAlone | crates/openapi-platform-cvm/src/remote_client.rs:177-197 | the poller moves exactly when its poll is due; left alone it syncs as the sequential method does and waits again, with the next poll one interval away whether the sync succeeded or not |
| RemoteAuth.ApplyAlone | crates/openapi-core/src/remote_auth.rs:115-126 | a thread applying a pushed revocation, uninterrupted, does exactly what the sequential method does |
| RemoteAuth.AuthAlone | crates/openapi-core/src/remote_auth.rs:202-236 | an authentication thread of the step machine, uninterrupted, does exactly what the sequential method does and succeeds exactly when it does, on the same authorization |
| RemoteAuth.VerifiedAt | crates/openapi-core/src/remote_auth.rs:133-136 | a loop that stops at the first frame that does not verify has applied exactly the verified prefix |
| Http1Body.Reader.Read | crates/openapi-core/src/http1_body.rs:38-40 | a read delivers any prefix that fits, nothing only at the end or into no room, or fails leaving the input |
| Http1Body.ChunkedWriter.WriteChunk | crates/openapi-http/src/streaming.rs:59-70 | appends exactly the encoded chunk (nothing for an empty write); a failure leaves a prefix of it |
| Http1Body.ChunkedWriter.WriteStreamEnd | crates/openapi-http/src/streaming.rs:73-76 | appends exactly the last chunk; a failure leaves a prefix of it |
| Http1Body.ReadLine | crates/openapi-core/src/http1_body.rs:114-139 | returns exactly the line, error and remaining input of the whole-input definition, for any delivery pattern |
| Http1Body.CopyData | crates/openapi-core/src/http1_body.rs:92-105 | copies exactly the announced bytes; which error, output and position result when the source is short or fails |
| Http1Body.CopyOneChunk | crates/openapi-core/src/http1_body.rs:92-109 | one chunk's data and line end, against the whole-input decoder |
| Http1Body.CopyChunked | crates/openapi-core/src/http1_body.rs:74-112 | terminates on every finite source, and unless source or sink fails, output, total, position and verdict are those of the whole-input decoder for any buffer size and any delivery pattern |
| Http1Body.CopyFixed | crates/openapi-core/src/http1_body.rs:29-52 | copies exactly the length, or everything there was and the early-close error; no other failure with a reliable source and enough room |
| Http1Body.CopyUntilEof | crates/openapi-core/src/http1_body.rs:54-72 | copies everything up to the end and reports its length |
| Http1Body.HexRoundTrip | crates/openapi-http/src/streaming.rs:63 | the lower-case hexadecimal length reads back as the same number |
| Http1Body.SizeLineParses | crates/openapi-core/src/http1_body.rs:82-87 | trimming, splitting at the semicolon and parsing a written size line gives the size |
| Http1Body.TrimsWhiteSpace | crates/openapi-core/src/http1_body.rs:82-86 | trimming a text takes away the white space at both ends, as Unicode defines it, and nothing else |
| Http1Body.SizeNumber | crates/openapi-core/src/http1_body.rs:86-87 | digits, leading zeros and a plus sign included, are read as their number, and refused when it does not fit 64 bits |
| Http1Body.AnySpellingDecodes | crates/openapi-core/src/http1_body.rs:79-110 | a chunk decodes to its data however its size is written: leading zeros, letters in either case, spaces and an extension after a semicolon |
| Http1Body.BadDigitRefused | crates/openapi-core/src/http1_body.rs:86-87 | a size without digits, or with anything but hexadecimal digits after an optional plus sign, is refused |
| Http1Body.DecodeOneChunk | crates/openapi-core/src/http1_body.rs:80-110 | an encoded chunk followed by anything decodes to its data, then the decoding of the rest |
| Http1Body.DecodeLastChunk | crates/openapi-core/src/http1_body.rs:88-91 | the last chunk ends the body and nothing after it is consumed |
| Http1Body.ChunkedRoundTrip | crates/openapi-core/src/http1_body.rs:74-139 | any writes, empty ones included, decode to their concatenation, and the bytes after the body are left |
| Http1Body.WriteThenCopy | crates/openapi-http/src/streaming.rs:28-76 | end to end: any writes through the writer, then the copy through any delivery pattern and any positive buffer, give exactly the concatenated writes and their total length |
| Utf8.ScanAcceptsExactlyText | crates/openapi-platform-cvm/src/ope_upstream.rs:508 | the validating scan accepts exactly the encodings of Unicode scalar sequences |
| Utf8.MalformedForever | crates/openapi-platform-cvm/src/ope_upstream.rs:524-526 | once a sequence is malformed no continuation repairs it |
| Utf8.ScanFromCut | crates/openapi-platform-cvm/src/ope_upstream.rs:517-523 | scanning may restart at the bytes held back |
| Utf8.IncompleteIsCutOff | crates/openapi-platform-cvm/src/ope_upstream.rs:516-527 | bytes held back are at most three and a proper prefix of some character |
| Utf8.MalformedLength | crates/openapi-platform-cvm/src/ope_upstream.rs:524-526 | a malformed sequence is the longest part that could still have become a character, or one byte that begins none, and what follows fits no character |
| Utf8.Utf8PlainAccumulator.constructor | crates/openapi-platform-cvm/src/ope_upstream.rs:500-502 | starts with nothing held back |
| Utf8.Utf8PlainAccumulator.Push | crates/openapi-platform-cvm/src/ope_upstream.rs:504-532 | fails exactly on a malformed sequence; otherwise pieces handed out plus bytes held back are the input, every piece is non-empty text, and what is held back is a cut-off character of at most three bytes |
| Utf8.Utf8PlainAccumulator.Finish | crates/openapi-platform-cvm/src/ope_upstream.rs:534-541 | succeeds exactly when nothing is held back |
| Utf8.Reassemble | crates/openapi-platform-cvm/src/ope_upstream.rs:494-542 | a whole run succeeds exactly when the concatenated chunks are well-formed text, and then hands out that text in pieces that are text, however it was cut |
| SseUsage.FindEventEnd | crates/openapi-core/src/sse_usage.rs:74-76 | the end of the first blank line, or that there is none |
| SseUsage.CutIsUnique | crates/openapi-core/src/sse_usage.rs:38-50 | cutting at blank lines is the only way to see a stream as events and an unfinished rest |
| SseUsage.CutInTwo | crates/openapi-core/src/sse_usage.rs:38-50 | cutting in instalments equals cutting at once; only the rest is carried over |
| SseUsage.SseUsageAccumulator.constructor | crates/openapi-core/src/sse_usage.rs:16-24 | nothing absorbed, no usage seen |
| SseUsage.SseUsageAccumulator.Absorb | crates/openapi-core/src/sse_usage.rs:38-50 | afterwards buffer and counters are those of cutting everything absorbed at once |
| SseUsage.SseUsageAccumulator.Write | crates/openapi-core/src/sse_usage.rs:54-61 | forwards and absorbs exactly the prefix that the inner writer's next call takes |
| SseUsage.SseUsageAccumulator.WriteAll | crates/openapi-core/src/sse_usage.rs:63-67 | forwards exactly what repeated calls take, absorbs all on success and nothing on failure, so it stays in step exactly when the failure came before the first byte |
| SseUsage.BufferHoldsNoBlankLine | crates/openapi-core/src/sse_usage.rs:40-43 | the buffer never holds an event terminator |
| SseUsage.MeterWrites | crates/openapi-core/src/sse_usage.rs:53-67 | any mix of writes on any writer: what is forwarded is the computed prefix of every operation, the usage is the last one found by cutting all that was absorbed, and that is all that was forwarded unless a full write was taken in part |
| SseUsage.InStepUnlessTorn | crates/openapi-core/src/sse_usage.rs:53-67 | everything forwarded is absorbed if and only if no full write of the run was taken in part; otherwise strictly fewer bytes are |
| SseUsage.SteadyWriterTearsNothing | crates/openapi-core/src/sse_usage.rs:63-67 | a writer that takes something on every call, however little, tears no write |
| SseUsage.RoomyWriterForwardsAll | crates/openapi-core/src/sse_usage.rs:53-67 | with room for everything on every call, everything written is forwarded |
| SseUsage.TornWriteLosesUsage | crates/openapi-core/src/sse_usage.rs:63-67 | any event that reports usage, followed by one more byte in a full write refused after the event: the client was sent the event and the meter reports nothing |
| SseUsage.Inner.WriteAll | crates/openapi-core/src/sse_usage.rs:64 | forwards exactly what the repeated calls take, and succeeds exactly when that is everything |
| Deltas.MergeToolCallDeltas | crates/openapi-platform-cvm/src/ope_upstream.rs:554-597 | after any deltas the loop leaves as many slots as their indices ask for, and each slot, read by path, has the last non-null id and type sent to it (else what it had, else type `function`), the last non-empty function name and its arguments followed by the fragments sent to it |
| Deltas.SlotsHoldWhatWasSaid | crates/openapi-platform-cvm/src/ope_upstream.rs:554-597 | the same of the merge as defined, slot by slot and for every sequence of deltas, padding slots included |
| Deltas.MergeSlotKeepsShape | crates/openapi-platform-cvm/src/ope_upstream.rs:563-595 | a merged slot always has a type and a function with textual name and arguments |
| Deltas.ArgumentsAreFragmentsInOrder | crates/openapi-platform-cvm/src/ope_upstream.rs:554-597 | each slot's arguments, gaps included, are its old arguments followed by the fragments addressed to it in order |
| Deltas.ApplyOpenaiDeltaFrame | crates/openapi-platform-cvm/src/ope_upstream.rs:599-623 | read by path: a frame without a first choice changes nothing; else content, reasoning and reasoning_content are appended in that order, the tool-call deltas are merged, and a finish reason that is neither empty nor the word null replaces the old one |
| Deltas.FrameFolds | crates/openapi-platform-cvm/src/ope_upstream.rs:599-623 | the same of the fold as defined |
| Deltas.ChunkReads | crates/openapi-platform-cvm/src/ope_upstream.rs:678-691 | every field of a chunk: id, object, model, one choice with index, delta and finish reason |
| Deltas.RelayReads | crates/openapi-platform-cvm/src/ope_upstream.rs:651-721 | when a frame is relayed at all, and every text, tool call and finish reason of the chunk, read by path from the frame |
| Deltas.RelayCommutesWithFolding | crates/openapi-platform-cvm/src/ope_upstream.rs:651-721 | folding the relayed chunks gives the frames' tool calls and finish reason always, and their content exactly when no frame carries two reasoning texts |
| Deltas.FinishOfFrames | crates/openapi-platform-cvm/src/ope_upstream.rs:616-622 | an aggregate has a finish reason exactly when some frame carried one |
| Deltas.ToolsOfFrames | crates/openapi-platform-cvm/src/ope_upstream.rs:613-615 | an aggregate has tool calls exactly when some frame carries tool-call deltas |
| Deltas.RelayedFinishReason | crates/openapi-platform-cvm/src/ope_upstream.rs:930-932 | with the closing stop, a streaming client sees the buffered client's finish reason if and only if some frame carries one or no frame calls a tool |
| Deltas.TwoReasoningsLoseOne | crates/openapi-platform-cvm/src/ope_upstream.rs:667-674 | a frame with both reasoning texts: folded directly it has both, relayed only the preferred one |
| Deltas.UnfinishedToolCallDiffers | crates/openapi-platform-cvm/src/ope_upstream.rs:930-932 | a tool call without a finish reason: the stream ends with stop, the completion with tool_calls |
| Deltas.SseOut.EmitOpenaiDeltaFrame | crates/openapi-platform-cvm/src/ope_upstream.rs:694-721 | writes the frame's chunk, if any, and notes a finish reason |
| Deltas.IndexToolCalls | crates/openapi-platform-cvm/src/ope_upstream.rs:948-955 | every slot gets its own position as index |
| Deltas.SseOut.EmitAggregatedCompletion | crates/openapi-platform-cvm/src/ope_upstream.rs:937-974 | writes exactly the content, tool-call and finish chunks of the replay |
| Deltas.SseOut.EndStream | crates/openapi-platform-cvm/src/ope_upstream.rs:930-932 | closes with a stop exactly when no finish was written |
| Deltas.SlotRendersBack | crates/openapi-platform-cvm/src/ope_upstream.rs:1031-1045 | a replayed slot, filler slots included, renders as the original does |
| Deltas.ToolCallReads | crates/openapi-platform-cvm/src/ope_upstream.rs:1031-1045 | a rendered tool call: the slot's id, type and function, or its position, `function` and an empty function |
| Deltas.MessageReads | crates/openapi-platform-cvm/src/ope_upstream.rs:1023-1046 | the message: content, null when there are only tool calls, and every slot rendered in order |
| Deltas.CompletionReads | crates/openapi-platform-cvm/src/ope_upstream.rs:1006-1063 | every field of a completion, the token counts and their sum included |
| Deltas.ReplayRoundTrip | crates/openapi-platform-cvm/src/ope_upstream.rs:1006-1063 | replaying an aggregate and folding the chunks again gives the same message and finish reason, for every aggregate whose slot positions fit a machine word |
| Deltas.StreamFrames | crates/openapi-platform-cvm/src/ope_upstream.rs:836-935 | the chunks sent are the relayed frames and the closing stop; what a client folds from them has the tool calls always, content and finish reason exactly under the conditions above |
| Deltas.StreamAggregate | crates/openapi-platform-cvm/src/ope_upstream.rs:921-935 | the chunks sent are the replay and the closing stop; what a client folds from them is the same completion object |
| Deltas.SseOut.EmitContent | crates/openapi-platform-cvm/src/ope_upstream.rs:749 | sends one content chunk with the text and no finish |
| PlainPaths.TextOfAppend | crates/openapi-platform-cvm/src/ope_upstream.rs:633 | the characters of two texts put together are those of the first followed by those of the second |
| PlainPaths.TextEncodesBack | crates/openapi-platform-cvm/src/ope_upstream.rs:633 | the characters of a text are Unicode scalars, and written as UTF-8 again they are the same bytes |
| PlainPaths.AppendPlain | crates/openapi-platform-cvm/src/ope_upstream.rs:625-649 | one chunk is folded as the frame it reads as or as content, and refused exactly when it is not text by itself |
| PlainPaths.BufferPlain | crates/openapi-platform-cvm/src/ope_upstream.rs:771-780 | buffering succeeds exactly when every chunk is text by itself, and folds exactly what the chunks say |
| PlainPaths.EmitText | crates/openapi-platform-cvm/src/ope_upstream.rs:740-750 | one text is sent as the frame it reads as or as content, keeping the stream equal to what the texts say |
| PlainPaths.StreamPlain | crates/openapi-platform-cvm/src/ope_upstream.rs:723-752 | streaming succeeds exactly when the chunks that are not frames make up well-formed text, wherever cut; the client is sent exactly the shown texts (frame chunks as they are, otherwise the text put together so far), also before a failure, which is told apart as malformed or cut off |
| PlainPaths.ShowGetsThrough | crates/openapi-platform-cvm/src/ope_upstream.rs:494-542 | what is shown of the chunks that are not frames, and what is held back, are those chunks glued together; nothing malformed or held back is left exactly when they are well-formed text |
| PlainPaths.ShowsWholeChunks | crates/openapi-platform-cvm/src/ope_upstream.rs:732-752 | chunks that are text by themselves are shown as they are |
| PlainPaths.ShowsThePlaintext | crates/openapi-platform-cvm/src/ope_upstream.rs:732-752 | unless a text shown reads as a frame, what is shown and what is held back are all of the plaintext |
| PlainPaths.BothWays | crates/openapi-platform-cvm/src/ope_upstream.rs:625-752 | buffering succeeds only where streaming does; then tool calls agree always, content exactly when no frame chunk carries two reasoning texts, finish reason exactly as for relayed frames; and unless a text shown reads as a frame, the content a client gets from a successful stream, written as UTF-8, is the whole plaintext, wherever it was cut |
| PlainPaths.CutCharacterOnlyStreams | crates/openapi-platform-cvm/src/ope_upstream.rs:636-647 | under any frame reader, a character cut between two chunks is shown whole by streaming and refused by buffering |
| PlainPaths.CutTextIsShownWhole | crates/openapi-platform-cvm/src/ope_upstream.rs:504-532 | a text cut inside its first character, into halves that are not text, is shown whole under any frame reader |
| Limits.RateLimiter.Check | crates/openapi-core/src/limits.rs:64-66 | decides with the configured rate |
| Limits.RateLimiter.CheckWithRpm | crates/openapi-core/src/limits.rs:69-91 | new buckets and verdict are those of the decision function used in traces |
| Limits.ZeroIsUnlimited | crates/openapi-core/src/limits.rs:70-72 | a call with rate zero is admitted in any state, and leaving it out of a trace changes no bucket later on |
| Limits.BucketAlwaysTells | crates/openapi-core/src/limits.rs:69-91 | over every trace the bucket counts the admitted calls of its window, which opened with an admitted call, and fewer than the rate were admitted in the window's length before it |
| Limits.MinuteBound | crates/openapi-core/src/limits.rs:69-91 | any half-open sixty seconds admit at most twice the rate less one calls of a key, whatever other keys do |
| Limits.BoundIsReached | crates/openapi-core/src/limits.rs:69-91 | for every rate a trace reaches that bound |
| Limits.WindowsAreApart | crates/openapi-core/src/limits.rs:80-83 | window openings of a key are at least sixty seconds apart |
| Limits.OtherKeysNeverMatter | crates/openapi-core/src/limits.rs:75-78 | removing all calls of other keys changes no bucket and no verdict of a key |
| Limits.InflightGate.TryAcquire | crates/openapi-core/src/limits.rs:109-126 | refuses exactly when a positive maximum is held; the counter stays the number of live permits; a zero maximum leaves the counter |
| Limits.InflightGate.Drop | crates/openapi-core/src/limits.rs:134-143 | gives back exactly one live permit |
| Limits.IpConnTracker.TryAcquire | crates/openapi-core/src/limits.rs:165-183 | refuses exactly when the address itself (`unknown` for the empty one) holds the maximum, and grants a permit for that address; counts stay the live permits, never zero entries, never above the maximum |
| Limits.IpConnTracker.Drop | crates/openapi-core/src/limits.rs:191-204 | gives back exactly one live permit, removing an entry that reaches zero |
| Limits.TrackConnections | crates/openapi-core/src/limits.rs:147-205 | over any interleaving of openings and closings the held permits are exactly those admitted below the maximum and not given back, each address holds what its own events alone would leave it, and the counts are those permits, within the maximum and without zero entries |
| Limits.OtherAddressesNeverMatter | crates/openapi-core/src/limits.rs:165-204 | under a positive maximum the permits of an address after a run are those of its own openings and closings alone |
| Limits.TrackInflight | crates/openapi-core/src/limits.rs:96-143 | over any interleaving of entering and leaving the held permits are exactly those admitted below the maximum and not given back, and the counter is their number (zero when unlimited) |
| EdgePool.AlwaysInv | crates/openapi-edge/src/lib.rs:254-345 | the whole invariant holds in every reachable state |
| EdgePool.NoConnectionLostOrDoubled | crates/openapi-edge/src/lib.rs:254-345 | every accepted connection is in exactly one place: acceptor, queue, one worker, shed thread, served, panicked, answered 429 or closed |
| EdgePool.FirstComeFirstServed | crates/openapi-edge/src/lib.rs:254-339 | the queue stays within its depth and workers get connections in accept order |
| EdgePool.ShedCounterIsExact | crates/openapi-edge/src/lib.rs:112-166 | the compare-and-swap counter equals the live shed permits, never exceeds its maximum and never wraps |
| EdgePool.WorkersSurvive | crates/openapi-edge/src/lib.rs:262-279 | at most one worker waits on the queue at any time, and a panicking handler leaves its worker in the pool |
| EdgePool.PoolNeverWedges | crates/openapi-edge/src/lib.rs:262-279 | with a queued connection and a worker not busy, some worker can take its next step |
| EdgePool.ShedsOnlyWhenFull | crates/openapi-edge/src/lib.rs:328-339 | an offered connection is queued exactly when the queue has room |
| EdgePool.SerialExactlyWithoutWorkers | crates/openapi-edge/src/lib.rs:292-309 | connections are handled on the accept thread exactly when no worker could be started, and then none is queued, answered 429 or closed unhandled |
| EdgePool.RefusedWhenFull | crates/openapi-edge/src/lib.rs:328-339 | in every run, a connection answered 429, closed or on its way there was offered to a full queue |
| EdgePool.ClosedForAReason | crates/openapi-edge/src/lib.rs:123-166 | in every run, a connection closed without an answer met all permits taken, a thread that did not start, or an answer that failed |
| EdgePool.FullQueueAnswers | crates/openapi-edge/src/lib.rs:123-166 | from every reachable state, a connection offered to a full queue gets a thread that answers 429 when a permit is free and is closed when none is; permits come back whether the thread starts or not |
| Calendar.NextDayIsNextNumber | crates/openapi-core/src/maintenance.rs:512-523 | the epoch is day zero and each Gregorian date's successor has the next number |
| Calendar.CountsDays | crates/openapi-core/src/maintenance.rs:512-523 | the number of a date is the number of days stepped from the epoch |
| Calendar.StrictlyMonotone | crates/openapi-core/src/maintenance.rs:512-523 | dates and their numbers are ordered alike, so a number names one date |
| Calendar.DayCountsAgree | crates/openapi-attest/src/manifest.rs:165-172 | the second algorithm gives the same number wherever the checking one accepts, so it counts days too |
| Calendar.FailsOnDayZeroOfMarch | crates/openapi-attest/src/manifest.rs:165-172 | the second algorithm fails if and only if it is asked for day zero of March |
| Calendar.StampReadsBack | crates/openapi-core/src/maintenance.rs:439-453 | every date and time written with padded fields and any fraction is read back field by field |
| Calendar.SignedReads | crates/openapi-core/src/maintenance.rs:443-453 | which signs and which magnitudes the number fields take |
| Calendar.MissingFields | crates/openapi-core/src/maintenance.rs:443-453 | a timestamp that ends early is refused at the field that is missing |
| Calendar.TrimsBlanks | crates/openapi-core/src/maintenance.rs:431 | white space around a timestamp is trimmed away |
| Calendar.EarlySign | crates/openapi-core/src/maintenance.rs:475-490 | a sign up to position ten is never taken for an offset's |
| Calendar.RenderedParses | crates/openapi-core/src/maintenance.rs:428-473 | both parsers read a written `Z` timestamp as the instant its fields name |
| Calendar.ZuluParses | crates/openapi-attest/src/manifest.rs:165-177 | that instant is days since the epoch, hours, minutes and seconds added up, in milliseconds with the fraction; before the epoch or out of range it is refused |
| Calendar.OnlySecondsTakesMonthThirteen | crates/openapi-attest/src/manifest.rs:165-172 | a timestamp with month thirteen that the seconds parser takes and the milliseconds parser refuses |
| Calendar.NormalizedOffset | crates/openapi-core/src/maintenance.rs:432-438 | a `Z` timestamp splits into its body and offset zero |
| Calendar.OffsetParses | crates/openapi-core/src/maintenance.rs:428-508 | a timestamp written with any two-digit offset, east or west, with or without the colon, is the instant of its fields less the eastern or plus the western offset; before the epoch or out of range it is refused |
| Calendar.FractionMillis | crates/openapi-core/src/maintenance.rs:454-461 | one, two or three digits of a fraction are tenths, hundredths and thousandths; further ones count for nothing |
| Calendar.BadFractionIsZero | crates/openapi-core/src/maintenance.rs:454-461 | a fraction with anything else than a digit among its first three characters counts as zero |
| Calendar.ParsersAgreeOnZulu | crates/openapi-attest/src/manifest.rs:130-178 | on `Z` timestamps the milliseconds parser succeeds exactly when the seconds parser does and month, day and magnitude are in range; then its result cut to seconds is the other's |
| Maintenance.BoundsAreWhatTheFieldsSay | crates/openapi-core/src/maintenance.rs:204-266 | a window is accepted with certain bounds if and only if its fields say them: start before hard end, legacy field only without a hard end of its own, soft end absent or after the hard end |
| Maintenance.CandidateFor | crates/openapi-core/src/maintenance.rs:351-394 | the loop body's candidate has certain bounds and a certain phase if and only if the fields say those bounds, the window is for the fleet or the engine asked for, and the instant is in that phase |
| Maintenance.OfferedExactly | crates/openapi-core/src/maintenance.rs:351-394 | the same of the candidate as defined: hard from start to hard end, soft after the hard end up to the soft end or without end |
| Maintenance.SelectActive | crates/openapi-core/src/maintenance.rs:345-414 | the result is an offer that no window's offer beats (hard over soft, the later hard end, an open soft end over any, the later soft end) and that beats every earlier one; none exactly when no window offers anything |
| Maintenance.OrderDoesNotMatter | crates/openapi-core/src/maintenance.rs:345-414 | for any two orders of the same windows, phase and end of the result agree |
| Maintenance.RefusesExactlyInHardWindow | crates/openapi-core/src/handler.rs:368-377 | the selected window is hard exactly when some fleet window has start, now and hard end in order |
| Maintenance.RetryReachesHardEnd | crates/openapi-core/src/maintenance.rs:379-385 | a hard refusal's delay reaches the end with less than a second to spare, or is the one-second minimum at the end itself |
| Maintenance.RetryReachesSoftEnd | crates/openapi-core/src/maintenance.rs:379-385 | a soft answer's delay reaches its end in the same way, and is three minutes when the end is open |
| Maintenance.MaintenanceState.constructor | crates/openapi-core/src/maintenance.rs:96-98 | nothing held, floor zero |
| Maintenance.MaintenanceState.Clear | crates/openapi-core/src/maintenance.rs:100-102 | drops what is held and keeps the version floor |
| Maintenance.MaintenanceState.SetVerified | crates/openapi-core/src/maintenance.rs:104-118 | accepts exactly verified manifests not older than any accepted one, even across a clear |
| Maintenance.MaintenanceState.GetActive | crates/openapi-core/src/maintenance.rs:120-127 | the offer of what is held that no other offer beats |
| Maintenance.MaintenanceState.RefuseIfMaintenance | crates/openapi-core/src/handler.rs:368-377 | refuses exactly while a held fleet window is in its hard phase, with a delay that reaches the latest such end |
| Der.BigEndianRoundTrip | crates/openapi-attest/src/tls_spki.rs:129-132 | the length octets of a number read back as the number |
| Der.ReadTlv | crates/openapi-attest/src/tls_spki.rs:116-139 | the length loop reads the big-endian length, and tag, body, rest and errors are those of the definition |
| Der.HeaderLenAgrees | crates/openapi-attest/src/tls_spki.rs:104-114 | wherever the reader succeeds, the header length and the body add up to the element it consumed |
| Der.EncodedReadsBack | crates/openapi-attest/src/tls_spki.rs:116-139 | any element in any definite length form of up to four octets reads back, whatever follows |
| Der.ReadsOnlyEncodings | crates/openapi-attest/src/tls_spki.rs:116-139 | the reader accepts nothing else: what it reads is the encoding of an element, followed by the rest |
| Der.WalkTbs | crates/openapi-attest/src/tls_spki.rs:88-101 | skips an optional version and five elements and returns the sixth with its header |
| Der.ExtractSpkiChecked | crates/openapi-attest/src/tls_spki.rs:79-102 | the verifier's extractor as defined, tags checked |
| Der.ExtractSpkiUnchecked | crates/openapi-platform-cvm/src/tls.rs:102-117 | the loader's extractor as defined, tags not looked at |
| Der.ExtractorsAgree | crates/openapi-platform-cvm/src/tls.rs:102-154 | the verifier accepts exactly what the loader accepts under two SEQUENCE tags, with the same bytes |
| Der.SpkiOfEncodedCertificate | crates/openapi-attest/src/tls_spki.rs:79-102 | from any certificate built of encoded elements, with or without version, both extractors return exactly the encoded key element |
| Der.SpkiIsASlice | crates/openapi-platform-cvm/src/tls.rs:102-117 | whatever is accepted, the answer is a contiguous slice of the input and one whole element |
| AcmeNonce.NoncesAreUsedOnce | crates/openapi-acme-sync/src/lib.rs:65-152 | over any interleaving of orders and failures, no response's nonce is sent twice, so with distinct server nonces no two POSTs carry the same value |
| AcmeNonce.NoncesComeFromResponses | crates/openapi-acme-sync/src/lib.rs:387-417 | over any interleaving of orders and failures, every POST carries a nonce that came in a response |
| AcmeNonce.NextRequestUsesLastNonce | crates/openapi-acme-sync/src/lib.rs:65-152 | whatever other orders do meanwhile, an order's next request is sent with the nonce of its last response; if that brought none, only after fetching one, and with that one |
| AcmeNonce.HappenKeepsInv | crates/openapi-acme-sync/src/lib.rs:387-417 | every step keeps each nonce in one place only: an order, a request being prepared, or sent |
| AcmeNonce.RepeatingServerBreaksIt | crates/openapi-acme-sync/src/lib.rs:401-417 | a reachable state in which a server that repeats itself makes two POSTs repeat a value |
| AcmeProvision.OneMoreExchange | crates/openapi-acme-sync/src/lib.rs:387-398 | how one more exchange changes the last order shown, the POSTs sent and the nonce at hand, and that it keeps the log sound when its own conditions hold |
| AcmeProvision.Post | crates/openapi-acme-sync/src/lib.rs:387-417 | signs and sends the POST with the nonce of the last reply, or with one fetched when that brought none; a failure is a failed signature, a missing reply or a bad newNonce answer, as the log shows; the log stays sound |
| AcmeProvision.Order.Observe | crates/openapi-acme-sync/src/lib.rs:81-151 | finalize, refresh and poll: the state is the order last shown, unchanged on any error, and the nonce is the one just received |
| AcmeProvision.Order.GetAuthorizations | crates/openapi-acme-sync/src/lib.rs:67-73 | asks for every authorization in order up to the first failure and returns exactly what was shown |
| AcmeProvision.Order.SetChallengeReady | crates/openapi-acme-sync/src/lib.rs:128-136 | one POST to the challenge; the order's state stays |
| AcmeProvision.Order.Certificate | crates/openapi-acme-sync/src/lib.rs:94-125 | polls at most once; a certificate is the body just downloaded from an order last shown valid and free of errors; none means just seen processing |
| AcmeProvision.OpenOrder | crates/openapi-acme-sync/src/lib.rs:261-275 | the order holds the state and URL of the server's reply |
| AcmeProvision.ChallengeSink.Place | crates/openapi-acme-sync/src/provision.rs:63-70 | publishes and records the token, or changes nothing |
| AcmeProvision.ChallengeSink.Clear | crates/openapi-acme-sync/src/provision.rs:72-76 | withdraws and records the token, or changes nothing |
| AcmeProvision.FindHttp01 | crates/openapi-acme-sync/src/provision.rs:187-191 | the first HTTP-01 challenge, or that there is none |
| AcmeProvision.PlaceChallenges | crates/openapi-acme-sync/src/provision.rs:180-197 | publishes, with their key authorizations, exactly the first HTTP-01 challenges of the pending authorizations, up to a failure with its cause |
| AcmeProvision.DeclareReady | crates/openapi-acme-sync/src/provision.rs:199-201 | one POST per challenge in order, up to the first failure |
| AcmeProvision.AwaitReady | crates/openapi-acme-sync/src/provision.rs:203-220 | at most four refreshes; succeeds only on an order just seen ready or valid, gives up only after four |
| AcmeProvision.ClearChallenges | crates/openapi-acme-sync/src/provision.rs:222-224 | withdraws exactly the tokens before the first failure, all of them on success |
| AcmeProvision.AwaitCertificate | crates/openapi-acme-sync/src/provision.rs:238-247 | at most eleven polls then one download; gives up only after eleven, still processing |
| AcmeProvision.ProveControl | crates/openapi-acme-sync/src/provision.rs:175-225 | the challenge phase: requests in order, exactly which tokens were placed and cleared, all cleared on success, and why it failed otherwise |
| AcmeProvision.FinalizeAndFetch | crates/openapi-acme-sync/src/provision.rs:236-247 | one finalization of a ready or valid order, then the wait for its certificate |
| AcmeProvision.ReachReady | crates/openapi-acme-sync/src/provision.rs:167-229 | only an order opened or brought to ready or valid goes on; other statuses are errors |
| AcmeProvision.FinishProvision | crates/openapi-acme-sync/src/provision.rs:160-255 | for every server behaviour: each POST carries the nonce of the reply before it, a nonce is fetched only when that reply brought none, nothing follows a reply that cannot be read, finalization only of an order last shown ready or valid at its URL, download only of a valid error-free order at its URL, phases in order; success returns that certificate with the given key and its signing request, or the generated pair when none was given, and every placed token cleared; every failure has its cause in the log, the sink or the key (none given and none generated, or no signing request from the given one), with exactly the uncleared tokens still published |
| AcmeProvision.TrafficIsBounded | crates/openapi-acme-sync/src/provision.rs:203-247 | such a run sends at most four refreshes, eleven polls, one finalization and one download |

## Left out

- Ed25519, SHA-256, AES and ML-KEM, attestation chains, rustls, sealing and key generation: foreign code, here function parameters or inputs.
- JSON text: values are modelled, writing them as text and reading them back is taken as exact; floating-point numbers are opaque.
- The usage fields of one event (`usage_from_sse_event`): a function parameter of the meter.
- Decryption, the NDJSON framing around chunks, and the `[DONE]` line; reading a frame out of a text is a function parameter.
- Header parsing (`read_response_headers`, `parse_body_framing`) and `read_chunked_body` of the ACME transport.
- Manifest loading, signature files and `find_matching_releases`: conjunctions of guards.
- TCP and TLS accept, network clients, file and environment loading, command-line programs: input and output plumbing.
- Sleeps, timeouts and the condition variable of the poll clock; a wait is a step that becomes possible when the clock is due.
- Poisoned locks: a lock holder that panics is not modelled.
- Account creation and directory lookup before an ACME order; account credentials are passed through unchanged.
- ParseRfc3339Ms: positions count characters, not bytes, so a timestamp with a non-ASCII character before its offset, or a slice inside a character, is not captured.
- ParsersAgreeOnZulu: 64-bit overflow is the error `Overflow`; a build without overflow checks would wrap instead.
- Inner.WriteAll: a call that fails as interrupted ends the write here, where the library would repeat it.
- Counters that the program keeps in 64 bits (bytes written, tokens, tries, epochs) are unbounded here.
- MergeToolCallDeltas: memory exhaustion from a very large tool-call index is not modelled.
- Memory ordering of the atomics: every atomic access is one step of a single order.
- Growth of the worker pool at start-up: the set of workers that could be spawned is given.
