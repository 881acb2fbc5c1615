# Health Guide — a verified model of the chat and live-call core

Health Guide is a browser chat assistant for health questions. The user types a message or speaks it, and may attach an image. The model streams its answer back into a placeholder bubble. Grounding sources are merged into the answer. A failure is turned into one of a fixed set of friendly error replies, and specialist recommendations inside the answer are rendered as cards. A separate live voice call streams microphone audio to the model as 16 kHz PCM. It plays the 24 kHz PCM it receives back-to-back, and reports a status line ("Connecting...", "Connected", "Speaking...", "Listening...", ...).

This project models that core in Dafny:

| module | file | models |
|---|---|---|
| `Wrappers` | wrappers.dfy | `Option` and `Result` |
| `JsStrings` | js_strings.dfy | `trim`, the `\s` class and `includes` as ECMA-262 defines them, and `toLowerCase` on the ASCII letters |
| `Base64` | base64.dfy | `btoa` (RFC 4648 section 4 encoding) and the forgiving `atob` decoding of the WHATWG HTML standard |
| `AudioCodec` | audio_codec.dfy | `decode`, `encode`, `createBlob` and `decodeAudioData` over integers, with the Int16Array stores done by ToInt16 (ECMA-262 section 7.1.8) |
| `Playback` | playback.dfy | the playback scheduler of a call as a pure state machine: the start cursor `nextStartTime`, the active sources in insertion order, every chunk scheduled so far, the stopped sources and the status log |
| `LiveSession` | live_session.dfy | `startLiveSession` as a class whose fields are the closure's variables; its methods are the callbacks, the teardown closure and the failure path |
| `ChatTypes` | chat_types.dfy | the `Message` record |
| `Chat` | chat.dfy | `handleSendMessage`: the two appended messages, update by id, text accumulation, grounding-source merge, and the error-reply chain; `ChatApp` is the component's state, and its `SendMessage` takes the stream and the thrown value as parameters |
| `MessageInput` | message_input.dfy | the composer: the transcript merge, the submit, research and Enter rules, the "Listening" dot cycle, the data-URL payload and the microphone toggle; class `InputState` holds the component's state and handlers |
| `MessageList` | message_list.dfy | the quick-reply predicate and the text/card segmentation loop, run over a given list of regex matches |

Time is a `real` parameter: the audio clock `currentTime` and the chunk durations. Identifiers from `uuid` are parameters too. Whatever the network, the SDK, the microphone or the speech recognizer delivers is an input: stream chunks, thrown values, server messages, audio frames and speech results.

The model follows the code where the code and its documentation disagree:
- The failure path of a call reports "Failed to connect", not "Connection Failed".
- The teardown closure has no guard, so calling it twice releases everything twice.
- The passthrough rule's `"Error:"` test runs on the lowercased message, so it can never match.
- The optional chain that reads a message's audio stops at a missing `modelTurn`, but not at a missing `parts` array. A model turn without `parts` makes `onmessage` throw before it looks at the interrupted flag, so the playing sources go on playing. An empty `parts` array only gives no audio.

## Model

| member | source | states |
|---|---|---|
| JsStrings.TrimStart | components/MessageInput.tsx:61-64 | the result is a shorter string that does not start with whitespace; everything it removed was whitespace |
| JsStrings.TrimStartSuffix | components/MessageInput.tsx:61-64 | what `TrimStart` keeps is a suffix of its input |
| JsStrings.TrimEnd | components/MessageInput.tsx:61-64 | the result does not end with whitespace; everything it removed was whitespace |
| JsStrings.TrimEndPrefix | components/MessageInput.tsx:61-64 | what `TrimEnd` keeps is a prefix of its input |
| JsStrings.Trim | components/MessageList.tsx:123-125 | a trimmed string neither starts nor ends with whitespace |
| JsStrings.IsSpace | components/MessageInput.tsx:63 | the `\s` class and `trim` set: the WhiteSpace and LineTerminator characters of ECMA-262 (sections 12.2 and 12.3) |
| JsStrings.Contains | App.tsx:88-118 | `includes`: a needle longer than the string never occurs, and the empty needle always does |
| JsStrings.TrimEmptyIff | components/MessageInput.tsx:153 | `text.trim()` is empty (falsy) exactly when the text is all whitespace |
| JsStrings.LowerChar | App.tsx:88 | an upper-case ASCII letter becomes the letter 32 code points on, in 'a'..'z'; every other character is kept |
| JsStrings.Lower | App.tsx:88 | `toLowerCase` keeps the length (LowerChars says each character is mapped by LowerChar) |
| JsStrings.LowerChars | App.tsx:88 | `toLowerCase` keeps the length and maps each character on its own |
| JsStrings.LowerMissesUpper | App.tsx:88 | a lowercased message never contains a needle holding an upper-case letter |
| JsStrings.LowerAppend | App.tsx:88 | lowercasing distributes over concatenation |
| JsStrings.LowerAvoids | App.tsx:88 | a letter absent from the message in both cases is absent from its lowercase form |
| JsStrings.LowerOfLower | App.tsx:88 | a string without upper-case letters is its own lowercase form |
| Base64.Codes | services/geminiService.ts:196-200 | `charCodeAt` gives one byte per character, byte i is the code of character i |
| Base64.Chars | services/geminiService.ts:206-209 | `String.fromCharCode` gives one character per byte, all in the binary range, character i has code byte i |
| Base64.CharsCodes | services/geminiService.ts:196-209 | turning codes back into characters gives the binary string back |
| Base64.Letter | services/geminiService.ts:210 | each six-bit value has a letter of the alphabet that decodes to it |
| Base64.Letters | services/geminiService.ts:210 | encoding sextets gives one alphabet letter per sextet |
| Base64.Sextets | services/geminiService.ts:210 | every full group of three bytes gives four sextets; a trailing one or two bytes give two or three |
| Base64.Btoa | services/geminiService.ts:210 | `btoa` throws exactly when a character lies outside the binary range |
| Base64.Encode | services/geminiService.ts:210 | the RFC 4648 letters of the bytes plus their padding (EncodeLength and AtobOfEncode state its length and round trip) |
| Base64.StripWhitespace | services/geminiService.ts:195 | `atob` first removes ASCII whitespace: the result holds none of it |
| Base64.StripChar | services/geminiService.ts:195 | a single whitespace character is removed and any other single character is kept |
| Base64.StripAppend | services/geminiService.ts:195 | stripping distributes over concatenation, so the other characters stay, in their order |
| Base64.Values | services/geminiService.ts:195 | each alphabet character decodes to its one sextet, in order |
| Base64.Atob | services/geminiService.ts:195 | a successful `atob` always gives a binary string |
| Base64.GroupRoundTrip | services/geminiService.ts:195-210 | each group of three bytes decodes back from its four sextets |
| Base64.PairRoundTrip | services/geminiService.ts:195-210 | two trailing bytes decode back from their three sextets |
| Base64.SingleRoundTrip | services/geminiService.ts:195-210 | one trailing byte decodes back from its two sextets |
| Base64.BytesCons | services/geminiService.ts:195 | decoding works group by group from the front |
| Base64.BytesOfSextets | services/geminiService.ts:195-210 | decoding the sextets of any byte sequence gives those bytes back |
| Base64.SextetsLength | services/geminiService.ts:210 | an encoding never leaves a single dangling sextet |
| Base64.ValuesOfLetters | services/geminiService.ts:195-210 | the letters of encoded sextets are all in the alphabet and decode to those sextets |
| Base64.StripNoWhitespace | services/geminiService.ts:195 | stripping a string without whitespace changes nothing |
| Base64.EncodeLength | services/geminiService.ts:210 | `btoa` output has 4·⌈n/3⌉ characters for n bytes |
| Base64.EncodeHasNoWhitespace | services/geminiService.ts:210 | `btoa` output contains no whitespace |
| Base64.DropTwo | services/geminiService.ts:195 | "==" is dropped after a body of length 2 mod 4 |
| Base64.DropOne | services/geminiService.ts:195 | "=" is dropped after a body of length 3 mod 4 |
| Base64.DropNone | services/geminiService.ts:195 | an unpadded body of length 0 mod 4 is kept whole |
| Base64.DropPaddingCases | services/geminiService.ts:195 | removing the padding gives the unpadded body in each of the three padding cases |
| Base64.DropPadding | services/geminiService.ts:195 | `atob` removes one or two trailing `=` from a length that is a multiple of four (DropPaddingCases states the cases) |
| Base64.DropPaddingOfEncode | services/geminiService.ts:195-210 | removing the padding of any `btoa` output gives exactly its letters |
| Base64.AtobAccepts | services/geminiService.ts:195 | `atob` succeeds on well-formed input and gives the decoded bytes as characters |
| Base64.AtobOfEncode | services/geminiService.ts:195-210 | `atob` of the encoding of any bytes gives those bytes, as characters |
| Base64.AtobBtoa | services/geminiService.ts:195-210 | for every binary string, `btoa` succeeds and `atob(btoa(s)) == s` |
| AudioCodec.ToInt16 | services/geminiService.ts:217 | an Int16Array store wraps modulo 2^16 and keeps any value already in range |
| AudioCodec.Truncate | services/geminiService.ts:217 | the conversion to integer truncates toward zero |
| AudioCodec.QuantizeInRange | services/geminiService.ts:217 | a sample in [-1, 1) is stored as its truncated ×32768 value, and the sign is kept |
| AudioCodec.Quantize | services/geminiService.ts:217 | the stored int16 of one sample: the ×32768 product truncated toward zero, then wrapped (QuantizeInRange and FullScaleWraps state its behaviour) |
| AudioCodec.FullScaleWraps | services/geminiService.ts:217 | the full-scale sample 1.0 wraps to -32768 |
| AudioCodec.ToUint8 | services/geminiService.ts:199 | a Uint8Array store wraps modulo 256 and keeps any byte already in range |
| AudioCodec.SampleOfBytes | services/geminiService.ts:220-231 | reading back the low and high byte of a sample gives the sample |
| AudioCodec.BytesOfSample | services/geminiService.ts:220-231 | splitting the sample read from two bytes gives those two bytes |
| AudioCodec.PackLE | services/geminiService.ts:220 | viewing an Int16Array as bytes gives 2n bytes, low byte then high byte for each sample |
| AudioCodec.UnpackLE | services/geminiService.ts:231 | viewing an even number of bytes as an Int16Array gives half as many samples, sample i from bytes 2i and 2i+1 |
| AudioCodec.UnpackPack | services/geminiService.ts:220-231 | unpacking packed samples gives the samples back |
| AudioCodec.PackUnpack | services/geminiService.ts:220-231 | packing unpacked bytes gives the bytes back |
| AudioCodec.Decode | services/geminiService.ts:194-202 | `decode` fills a fresh array with the decoded bytes, or throws as `atob` does |
| AudioCodec.DecodeBytes | services/geminiService.ts:194-202 | `decode` throws exactly when `atob` does, and gives one byte per decoded character |
| AudioCodec.Encode | services/geminiService.ts:204-211 | `encode` is the base64 encoding of the bytes, and `atob` of it gives them back |
| AudioCodec.Quantized | services/geminiService.ts:215-218 | one stored sample per input sample, each one scaled and wrapped |
| AudioCodec.CreateBlob | services/geminiService.ts:213-223 | the blob carries the encoded packed samples, whose decoding gives those bytes back, under the fixed mime type "audio/pcm;rate=16000" |
| AudioCodec.PcmBlob | services/geminiService.ts:213-223 | what `createBlob` sends: the base64 text of the packed quantized samples under "audio/pcm;rate=16000" (CreateBlob states its round trip) |
| AudioCodec.Deinterleave | services/geminiService.ts:232-240 | there are `numChannels` channels of samples / numChannels frames each, and frame i of channel c is sample i·numChannels + c |
| AudioCodec.ToAudioBuffer | services/geminiService.ts:225-242 | an odd byte count is a RangeError, zero channels or fewer samples than channels a NotSupportedError; it succeeds exactly otherwise, with the requested rate, bytes / 2 / numChannels frames and the de-interleaved channels |
| AudioCodec.MonoIsIdentity | services/geminiService.ts:232-240 | for one channel, output sample i is input sample i |
| AudioCodec.CopyChannel | services/geminiService.ts:235-239 | the inner loop fills channel c, frame i from index i·numChannels + c and touches no other channel |
| AudioCodec.DecodeAudioData | services/geminiService.ts:225-242 | the method computes `ToAudioBuffer`: a RangeError for an odd byte count, a NotSupportedError for zero channels or frames, otherwise the de-interleaved channels |
| AudioCodec.DecodeChunk | services/geminiService.ts:308-315 | an inbound chunk fails as `decode` does, and a decoded one is one channel at 24000 Hz with half as many frames as bytes |
| AudioCodec.Duration | services/geminiService.ts:324 | a buffer's duration is never negative |
| AudioCodec.ChunkRoundTrip | services/geminiService.ts:213-242 | a sent frame decodes back, at the playback rate, into one channel holding its stored samples |
| Playback.Schedule | services/geminiService.ts:317-326 | a chunk starts at the later of the cursor and the clock, the cursor moves to its end, its handle joins the active set, and nothing else changes |
| Playback.Remove | services/geminiService.ts:328 | removing a handle from the set keeps exactly the other handles |
| Playback.Ended | services/geminiService.ts:327-332 | an ended chunk leaves the set, and "Listening..." is reported exactly when the set becomes empty |
| Playback.Interrupt | services/geminiService.ts:335-340 | an interruption stops every active handle in order, empties the set, sets the cursor to 0 and reports "Listening..." |
| Playback.Receive | services/geminiService.ts:305-341 | an audio field that throws changes nothing, and no audio without the flag changes nothing; audio reports "Speaking..." first; undecodable audio only reports; decoded audio schedules one chunk at max(cursor, clock) and moves the cursor to its end, and with the flag that chunk is stopped at once; an interruption without undecodable or unreadable audio clears the set, resets the cursor and reports "Listening..." last; without the flag nothing is stopped |
| Playback.IdleValid | services/geminiService.ts:258-259 | the initial state satisfies the scheduler invariant |
| Playback.ScheduleValid | services/geminiService.ts:317-326 | scheduling keeps the invariant (active handles are scheduled, distinct, and each ends before the next starts) |
| Playback.RemoveKeepsOrder | services/geminiService.ts:328 | removal keeps the remaining handles in playback order |
| Playback.EndedValid | services/geminiService.ts:327-332 | an ended chunk keeps the invariant |
| Playback.ReceiveValid | services/geminiService.ts:305-341 | every server message keeps the invariant |
| Playback.Step | services/geminiService.ts:305-341 | one callback (a message or an `onended`) only appends to the logs of starts, stops and statuses |
| Playback.Run | services/geminiService.ts:305-341 | the logs after any sequence of callbacks extend the logs before it |
| Playback.RunValid | services/geminiService.ts:305-341 | the invariant holds after any sequence of messages and end events |
| Playback.DurationsPrefix | services/geminiService.ts:324 | the durations of a prefix split into the first chunk and the rest |
| Playback.Gapless | services/geminiService.ts:317-324 | with no interruption and the clock never ahead of the cursor, chunk k starts at the cursor plus the durations of the chunks before it, so chunks are back-to-back, and the cursor ends at the sum of all durations |
| Playback.CursorNeverDecreases | services/geminiService.ts:317-324 | without interruptions the cursor never decreases |
| LiveSession.AudioOf | services/geminiService.ts:306-315 | a message has no audio exactly when the data is missing or empty; the audio is playable exactly when it decodes |
| LiveSession.ChunkSecondsIsDuration | services/geminiService.ts:310-324 | every decoded chunk is at 24000 Hz, and its scheduled length is its duration |
| LiveSession.SentFrameIsPlayable | services/geminiService.ts:296-315 | a frame the call sends would be decoded as playable audio lasting n/24000 seconds for n samples |
| LiveSession.Base64Nonempty | services/geminiService.ts:296 | a non-empty frame gives non-empty blob data |
| LiveSession.Base64EncodeLength | services/geminiService.ts:210 | non-empty bytes encode to a non-empty string |
| LiveSession.DecodeChunk | services/geminiService.ts:310-315 | the awaited decode is `decode` followed by `decodeAudioData` at 24000 Hz, mono |
| LiveSession.VolumeLevel | services/geminiService.ts:294 | the meter level lies in [0, 1]; it is 1 exactly when rms ≥ 0.2 and otherwise rms·5 |
| LiveSession.SumOfSquares | services/geminiService.ts:289-292 | the sum of squares is never negative |
| LiveSession.MeanSquare | services/geminiService.ts:289-293 | the loop computes the mean square of the frame |
| LiveSession.Released | services/geminiService.ts:352-360 | teardown stops the microphone first and closes the session last; in between it disconnects the source, then the processor, only if capture started, then closes the input context and then the output context; nothing is released twice |
| LiveSession.VoiceOptionsWellFormed | services/geminiService.ts:186-192 | the five voices have distinct ids, each label starts with its id, and the first is the default 'Kore' of line 247 |
| LiveSession.ReadAudio | services/geminiService.ts:306 | reading the audio throws exactly when a model turn has no `parts`; a payload read is the first part's inline data; no model turn gives no audio |
| LiveSession.MessageAudio | services/geminiService.ts:305-315 | a message's audio is unreadable exactly when reading it throws, and is otherwise the audio its payload decodes to |
| LiveSession.IdleCallValid | services/geminiService.ts:258-259 | an idle call has a consistent record of played buffers |
| LiveSession.ScheduleCallValid | services/geminiService.ts:317-326 | scheduling a buffer keeps every scheduled chunk's length equal to its buffer's duration |
| LiveSession.EndedCallValid | services/geminiService.ts:327-332 | an ended chunk keeps that record |
| LiveSession.Session.constructor | services/geminiService.ts:251-368 | without the microphone the call only reports "Failed to connect" and closes both contexts; with it, it reports "Connecting..." and starts, unless `live.connect` throws, when it also reports "Failed to connect", stops the microphone tracks and closes both contexts; a failed start gets the teardown that does nothing |
| LiveSession.Session.OnOpen | services/geminiService.ts:279-304 | reports "Connected", starts capture and leaves the scheduler alone |
| LiveSession.Session.OnAudioProcess | services/geminiService.ts:285-300 | each frame reports one meter level and sends one PCM blob, and playback is untouched |
| LiveSession.Session.ReportVolume | services/geminiService.ts:293-294 | appends the meter level of the frame |
| LiveSession.Session.Send | services/geminiService.ts:296-299 | appends the frame's blob to what was sent |
| LiveSession.Session.OnMessage | services/geminiService.ts:305-341 | the new scheduler state is `Playback.Receive` of the old one on the message's audio, including the throwing read; decoded buffers are recorded, and the invariant is kept |
| LiveSession.Session.PlayChunk | services/geminiService.ts:308-333 | reports "Speaking...", then schedules the chunk exactly when it decodes |
| LiveSession.Session.Play | services/geminiService.ts:317-332 | schedules one buffer of its own duration |
| LiveSession.Session.StopAll | services/geminiService.ts:335-340 | the interruption branch, as `Playback.Interrupt` |
| LiveSession.Session.OnEnded | services/geminiService.ts:327-332 | the `onended` callback, as `Playback.Ended` |
| LiveSession.Session.OnClose | services/geminiService.ts:342-344 | reports "Disconnected" and changes nothing else |
| LiveSession.Session.OnError | services/geminiService.ts:345-348 | reports "Error" and changes nothing else |
| LiveSession.Session.Teardown | services/geminiService.ts:352-369 | the returned closure releases in the fixed order if the call started, and the failure path's closure does nothing |
| LiveSession.PlayThenListen | services/geminiService.ts:267-330 | one chunk played to its end gives the statuses Connecting, Connected, Speaking, Listening |
| LiveSession.InterruptReportsListeningTwice | services/geminiService.ts:327-340 | an interruption stops the playing chunk and resets the cursor; the stopped source's `onended` then reports "Listening..." a second time |
| LiveSession.PartlessInterruptKeepsPlaying | services/geminiService.ts:305-340 | an interrupting message whose model turn lacks `parts` throws first, so the playing chunk is not stopped |
| Chat.SourceOf | App.tsx:56-59 | a source keeps the chunk's URI, keeps a non-empty title, and turns a missing or empty title into '' |
| Chat.NewSources | App.tsx:54-59 | a batch yields at most one source per chunk, each with a non-empty URI |
| Chat.NewSourcesSingle | App.tsx:54-59 | one chunk yields its mapped source exactly when it has a web URI, and nothing otherwise |
| Chat.NewSourcesAppend | App.tsx:54-59 | the filter and map distribute over concatenation, so the batch keeps the chunks' order, one source per URI-bearing chunk |
| Chat.NewSourcesMembers | App.tsx:54-59 | a source is in the batch exactly when some chunk with a web URI maps to it |
| Chat.Fresh | App.tsx:63-64 | the kept new sources are exactly those whose URI is not already present, and there are never more of them than new sources |
| Chat.FreshSingle | App.tsx:64 | one source is kept exactly when its URI was not accumulated before |
| Chat.FreshAppend | App.tsx:64 | the URI filter distributes over concatenation, so it keeps the batch's order |
| Chat.FreshCount | App.tsx:64 | the filter keeps every copy of a source whose URI is unseen and none of the others |
| Chat.MergeSources | App.tsx:61-66 | existing sources keep their order and are never dropped, and the appended tail is the URI filter of the batch against them |
| Chat.BatchDuplicatesKept | App.tsx:63-65 | for every batch, the appended tail holds as many copies of an unseen-URI source as the batch has, so duplicates inside one batch are not removed, and no copy of a source with a URI already accumulated |
| Chat.MergeKeepsUrisOnce | App.tsx:63-65 | no appended source repeats a URI that was already accumulated |
| Chat.SourcesAfterStep | App.tsx:48-67 | each chunk merges its batch only when it has grounding chunks with a URI |
| Chat.SourcesAfter | App.tsx:52-66 | every accumulated grounding source has a non-empty URI |
| Chat.SourcesOnlyGrow | App.tsx:46-67 | the sources accumulated so far stay a prefix of all later ones |
| Chat.TextAfterStep | App.tsx:49 | each chunk appends its text |
| Chat.TextAfter | App.tsx:49 | the text accumulated over the stream (TextAfterStep and TextAfterAppend state it is the concatenation of the chunk texts) |
| Chat.TextAfterAppend | App.tsx:45-49 | the accumulated text is the in-order concatenation of the chunk texts |
| Chat.SourcesField | App.tsx:75 | `groundingSources` is absent when the list is empty and equals the list otherwise |
| Chat.UpdateById | App.tsx:69-79 | only the message with the given id is rewritten; all others stay unchanged and in place |
| Chat.Apply | App.tsx:69-79 | the spread update keeps id, role and attachment and sets the text; a failure sets the error flag and keeps the sources, streamed content keeps the error flag |
| Chat.ContentOverwrites | App.tsx:69-79 | a later content update replaces an earlier one entirely |
| Chat.FirstMatchSpec | App.tsx:90-118 | first-match over an ordered rule list: none iff no rule matches, otherwise the earliest matching rule |
| Chat.FirstMatchOfRules | App.tsx:90-118 | the rule table is network, overload, rate limit, auth, region, safety, in that order |
| Chat.ClassifyIsFirstMatch | App.tsx:87-123 | the error chain is the first matching keyword rule over the lowercased message, then passthrough (no `{`, shorter than 200), then default |
| Chat.Classify | App.tsx:87-123 | a thrown value that is not an `Error` gets the default reply, and the message passes through only when it is shorter than 200 with no `{` |
| Chat.ErrorReply | App.tsx:85-123 | a non-`Error` value gets the default reply; a passthrough error keeps its own message, shorter than 200 |
| Chat.NoFOrW | App.tsx:88-95 | the service's overload message contains no 'f' or 'w' once lowercased |
| Chat.NoNetworkKeyword | App.tsx:91-96 | so none of the network keywords occurs in it |
| Chat.KeywordIsLower | App.tsx:100 | "overloaded" is already lowercase |
| Chat.HasOverloadKeyword | App.tsx:100 | the lowercased overload message contains "overloaded" |
| Chat.OverloadedServiceReply | App.tsx:100-101 | the service's own overload error is classified as overload and gets the high-traffic reply |
| Chat.StreamStep | App.tsx:48-79 | each chunk rewrites the placeholder with everything accumulated so far |
| Chat.TurnAppendsTwo | App.tsx:21-40 | a send appends exactly the user message, which has an attachment iff a non-empty image was given, then a model placeholder with the fresh id, and keeps the earlier messages |
| Chat.UserMessage | App.tsx:23-28 | the user bubble keeps id and text, and has an image attachment holding the payload exactly when the payload is truthy |
| Chat.Placeholder | App.tsx:35-40 | the model bubble with the fresh id and empty text (TurnModelMessage states what it becomes) |
| Chat.Turn | App.tsx:21-131 | the list after a send has exactly two more messages (TurnAppendsTwo and TurnModelMessage say which) |
| Chat.TurnModelMessage | App.tsx:42-131 | the model message's text is the error reply if the stream threw and otherwise the concatenated chunk text; it is flagged `isError` exactly on failure; its sources are the merged sources once any chunk arrived |
| Chat.ChatApp.constructor | App.tsx:21 | the chat starts empty and not typing |
| Chat.ChatApp.SendMessage | App.tsx:21-135 | the list after a send is `Turn` of the list before it, and typing is off at the end |
| Chat.ChatApp.Finish | App.tsx:81-134 | the `catch` marks the placeholder with the error reply; the `finally` turns typing off |
| Chat.ChatApp.ReadStream | App.tsx:45-80 | the for-await loop leaves the list as `AfterStream`, the placeholder holding the accumulated content |
| MessageInput.Collapse | components/MessageInput.tsx:64 | `replace(/\s+/g, ' ')` never leaves two whitespace characters together, leaves only blanks, and keeps the first character's kind |
| MessageInput.SliceKeepsRuns | components/MessageInput.tsx:64 | any slice of a collapsed string is still collapsed |
| MessageInput.TrimIsSlice | components/MessageInput.tsx:64 | `trim` returns a slice of its input |
| MessageInput.TrimKeepsRuns | components/MessageInput.tsx:64 | trimming a collapsed string keeps it collapsed |
| MessageInput.Merge | components/MessageInput.tsx:61-65 | merged text has no leading or trailing whitespace and no run of two whitespace characters |
| MessageInput.Words | components/MessageInput.tsx:64 | the words of a string are non-empty |
| MessageInput.WordsHaveNoSpace | components/MessageInput.tsx:64 | no word contains whitespace |
| MessageInput.WordsAfterSpaces | components/MessageInput.tsx:64 | leading whitespace adds no word |
| MessageInput.WordsAppend | components/MessageInput.tsx:63 | joining two texts with whitespace between them concatenates their words |
| MessageInput.WordsCollapse | components/MessageInput.tsx:64 | collapsing whitespace keeps the words |
| MessageInput.WordsTrim | components/MessageInput.tsx:64 | trimming keeps the words |
| MessageInput.MergeWords | components/MessageInput.tsx:61-65 | the merged text holds the previous words followed by the heard words, none lost or changed |
| MessageInput.FinalTextAppend | components/MessageInput.tsx:55-59 | final transcripts concatenate in index order |
| MessageInput.FinalText | components/MessageInput.tsx:55-59 | the final transcripts of the results (FinalTextAppend and InterimIgnored state their order and that interim ones add nothing) |
| MessageInput.InterimIgnored | components/MessageInput.tsx:56 | a non-final result contributes nothing |
| MessageInput.CollectFinal | components/MessageInput.tsx:54-59 | the loop concatenates the final results from `resultIndex` on |
| MessageInput.Split | components/MessageInput.tsx:133 | `split(',')` yields at least one field, none containing the separator |
| MessageInput.JoinSplit | components/MessageInput.tsx:133 | joining the fields with commas gives the data URL back |
| MessageInput.SplitAfterField | components/MessageInput.tsx:133 | splitting at the first comma gives the text before it and the split of the rest |
| MessageInput.SplitField | components/MessageInput.tsx:133 | a string without commas is one field |
| MessageInput.Payload | components/MessageInput.tsx:133 | the stored payload never holds a comma |
| MessageInput.PayloadPresentIff | components/MessageInput.tsx:133 | a payload (`parts[1]`) exists exactly when the URL has a comma |
| MessageInput.PayloadOfDataUrl | components/MessageInput.tsx:133 | for a `header,data` URL the payload is the data between the first and second comma |
| MessageInput.SubmitRule | components/MessageInput.tsx:151-164 | submit sends exactly when (the trimmed text is non-empty or an image is chosen) and not loading; it sends the trimmed text and the image, which are never both empty, then clears both; otherwise nothing changes |
| MessageInput.CanSubmit | components/MessageInput.tsx:153 | the submit guard: trimmed text or a truthy image, and not loading (SubmitRule states what it allows) |
| MessageInput.SubmitForm | components/MessageInput.tsx:151-164 | a submit keeps the earlier calls and makes at most one more |
| MessageInput.SubmitOnce | components/MessageInput.tsx:151-164 | submitting twice in a row sends once |
| MessageInput.ResearchRule | components/MessageInput.tsx:166-179 | blank text only sets the hint placeholder; otherwise, unless loading, it sends the prefixed trimmed query without an image and clears the text; the image is never touched |
| MessageInput.ResearchQuery | components/MessageInput.tsx:173 | the request is the fixed research prefix followed by the query |
| MessageInput.ResearchForm | components/MessageInput.tsx:166-179 | research keeps the earlier calls, makes at most one more, and never touches the selected image |
| MessageInput.ResearchAfterSubmit | components/MessageInput.tsx:151-179 | research right after a submit sends nothing more |
| MessageInput.Dots | components/MessageInput.tsx:97 | `'.'.repeat(n)` is n dots |
| MessageInput.ListeningText | components/MessageInput.tsx:97 | the listening placeholder is "Listening" followed by only dots |
| MessageInput.DotsCycle | components/MessageInput.tsx:93-98 | after n ticks the dot count is n mod 4, so it cycles 0, 1, 2, 3 |
| MessageInput.ToggleRule | components/MessageInput.tsx:109-124 | without speech support the toggle does nothing; with it, it clears the banner and listens afterwards unless the recognizer throws |
| MessageInput.Toggle | components/MessageInput.tsx:109-124 | the toggle never changes speech support, and with support it clears the permission banner |
| MessageInput.InputState.constructor | components/MessageInput.tsx:31-45 | empty text, no image, the initial placeholder, not listening |
| MessageInput.InputState.OnResult | components/MessageInput.tsx:52-72 | the text becomes the merge of old text and heard text only when something final was heard |
| MessageInput.InputState.OnEnd | components/MessageInput.tsx:74-76 | stops listening, nothing else |
| MessageInput.InputState.OnError | components/MessageInput.tsx:78-85 | stops listening and raises the banner on a permission error |
| MessageInput.InputState.HidePermissionError | components/MessageInput.tsx:83 | the banner timeout hides the banner |
| MessageInput.InputState.PlaceholderEffect | components/MessageInput.tsx:90-107 | while listening the placeholder is "Listening" with no dots; otherwise it is the medicine prompt when an image is chosen and the symptoms prompt when not |
| MessageInput.InputState.Tick | components/MessageInput.tsx:94-98 | the interval advances dots mod 4 and shows that many |
| MessageInput.InputState.ToggleListening | components/MessageInput.tsx:109-124 | the microphone state becomes `Toggle` of the old one |
| MessageInput.InputState.FileSelect | components/MessageInput.tsx:126-140 | a read file stores its data-URL payload; nothing else changes |
| MessageInput.InputState.ClearImage | components/MessageInput.tsx:146-149 | removes the image only |
| MessageInput.InputState.Input | components/MessageInput.tsx:188-193 | typing replaces the text only |
| MessageInput.InputState.HandleSubmit | components/MessageInput.tsx:151-164 | the composer becomes `SubmitForm` of the old one |
| MessageInput.InputState.HandleResearch | components/MessageInput.tsx:166-179 | the composer becomes `ResearchForm` of the old one |
| MessageInput.InputState.HandleKeyDown | components/MessageInput.tsx:181-186 | Enter without Shift submits; any other key, or Shift+Enter, changes nothing |
| MessageList.HiddenWhileTyping | components/MessageList.tsx:106 | quick replies never show while typing or before any message |
| MessageList.ShowQuickReplies | components/MessageList.tsx:106 | quick replies show when not typing and the last message is a model reply not flagged as an error (HiddenWhileTyping and QuickRepliesAfterTurn state its consequences) |
| MessageList.QuickRepliesAfterTurn | components/MessageList.tsx:106 | after a finished turn, quick replies show exactly when the reply did not fail |
| MessageList.CardFieldsTrimmed | components/MessageList.tsx:121-126 | a card's name, expertise and conditions neither start nor end with whitespace |
| MessageList.CardNameEmptyIff | components/MessageList.tsx:123 | a card's name is empty exactly when the captured name is all whitespace |
| MessageList.CardOf | components/MessageList.tsx:121-126 | a card's fields are its match's three capture groups, trimmed (CardFieldsTrimmed and CardNameEmptyIff state their properties) |
| MessageList.AppendText | components/MessageList.tsx:118-132 | pushing a text part extends the layout by its content and adds no card |
| MessageList.AppendCard | components/MessageList.tsx:121-126 | pushing a card extends the layout by its matched span and adds that card |
| MessageList.PushText | components/MessageList.tsx:117-133 | a text part pushed after a card (or first) keeps every text part non-empty and no two adjacent |
| MessageList.PushCard | components/MessageList.tsx:121-126 | a card keeps those properties |
| MessageList.CardsOf | components/MessageList.tsx:121-126 | there is one card per match so far |
| MessageList.CardsOfIndex | components/MessageList.tsx:121-126 | card i comes from match i |
| MessageList.SpansStep | components/MessageList.tsx:116 | the matched spans are taken in order |
| MessageList.CardStep | components/MessageList.tsx:121-128 | after a card the rendered parts cover the text up to the match's end |
| MessageList.GapStep | components/MessageList.tsx:117-119 | the gap before a match becomes one non-empty text part |
| MessageList.FinishStep | components/MessageList.tsx:131-133 | adding the trailing text completes the text |
| MessageList.PlaceText | components/MessageList.tsx:116-117 | pushing a text part moves no card from the place of its match |
| MessageList.PlaceCard | components/MessageList.tsx:117-127 | a card pushed once the layout reaches its match's start is in place |
| MessageList.CardNotBeforeItsText | components/MessageList.tsx:116-133 | for "aa" with a match at [1, 2), a card before the text "a" is not in place |
| MessageList.RenderMatch | components/MessageList.tsx:116-129 | one loop iteration keeps the rendering invariant and strictly advances `lastIndex` |
| MessageList.RenderParts | components/MessageList.tsx:108-133 | text parts and matched spans, in order, reconstruct the text; the cards are the matches' trimmed groups, in order; no text part is empty and no two text parts are adjacent; each card sits where its match starts, the parts before it laying out to the text before that match |

## Left out

- Float arithmetic is not modelled as IEEE-754. Audio samples are `real`s, and no NaN or infinite sample exists.
- The division by 32768.0 into float channel data is not modelled. `decodeAudioData` keeps the stored int16 samples.
- `Math.sqrt` is left out. The RMS value is a parameter that `OnAudioProcess` requires to be the square root of the mean square. The model does not prove that silence gives a zero meter level.
- LiveSession.MeanSquare: requires a non-empty frame. The script processor always delivers 4096 samples.
- Web Audio, `getUserMedia`, `FileReader`, `SpeechRecognition` and the DOM are not modelled. This covers the textarea height, the file input reset and focus.
- The Gemini SDK (`chats.create`, `sendMessageStream`, `live.connect`) and the network are not modelled. Their chunks, server messages and thrown values are inputs.
- A status callback that throws is not modelled. The constructor's `connectThrows` covers a synchronous throw of `live.connect` after the microphone was granted.
- Async interleaving is not modelled. Each callback is atomic, and the awaited decode completes inside `onmessage`.
- A decode that throws aborts `onmessage` before the interruption branch. This comes from the async function's semantics.
- Timers and `uuid` are not modelled. Ticks are method calls, and ids are parameters that must be distinct.
- `createBuffer`'s limits are not modelled: its channel cap and sample-rate range. Only zero channels or zero frames are rejected.
- The byte order of an Int16Array's buffer is the host's. `AudioCodec.PackLE` and `AudioCodec.UnpackLE` assume a little-endian host.
- `toLowerCase` folds the ASCII letters only. Characters are code points, not UTF-16 code units, so a base64 binary string is a sequence of code points below 256.
- A speech result is modelled as its first alternative, with the final flag and the transcript text.
- The regex of the segmentation is not modelled. The matches are an input: well-formed, non-empty, increasing and non-overlapping, with the capture groups given.
- JSX rendering, styling, Markdown, the header and the live-call overlay are presentation only.
- The long system-prompt strings are not modelled.
