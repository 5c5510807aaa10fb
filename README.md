# neuro-note core, modelled in Dafny

neuro-note is a desktop note-taking assistant. It records audio to WAV or
MP3, either on demand or armed by a voice-activity detector. It streams the
audio to a speech-recognition service and renders the diarized transcript
line by line. A small "gate" model decides when the main assistant should
re-run on the growing transcript.

This project models the sequential integer and string logic of that core
and proves what it promises:

- **LameEncoder** (`lame_encoder/mod.rs`): translation of the MP3 encoder's
  native return codes, the `c_int` size guard, the preconditions of `encode`
  and `flush`, and ownership of the encoder handle (closed exactly once).
- **AudioWriting** (`AudioWriter` in `lib.rs`, with an identical copy in
  `audio.rs`):
  - the WAV sink and the MP3 sink, which buffers samples in frames of
    1152 samples per channel;
  - de-interleaving into left/right channels;
  - flush and finalize.
  - The encoder's answers and the outcome of each file write are parameters.
- **Recorder** (`lib.rs`): the format/extension and quality tables, the
  unsigned-to-signed sample conversion, the default output path, and the two
  control slots of `AppState` driven by the four recording commands.
- **VoiceActivity** (`process_chunk` in `lib.rs`): the pre-roll ring buffer
  and the speech/silence/cooldown hysteresis. The floating-point loudness
  decision and the chunk duration are inputs. The output is the samples
  handed to the writer.
- **SonioxPcm, SonioxText, SonioxRender, SonioxSession** (`soniox.rs`):
  - the 16 kHz PCM conversion (downmix and little-endian bytes);
  - tag clean-up and line formatting;
  - speaker-id resolution and diarized rendering;
  - the per-message state of the streaming loop: final tokens, last emitted
    text, one-shot repeat suppression after a clear, and the progress counter
    of audio bytes sent.
- **Gate** (`gate.rs`, and the gate round trip of both providers): the prompt
  builder, the interpretation of the answer with its heuristic fallback, and
  the blank-transcript short-circuit.
- **Assistants** (`assistants.rs`): validation of the configured list, the
  map it builds, and the lookups.
- **Chat, OpenAI, OpenRouter** (`openai.rs`, `openrouter.rs`):
  - message composition;
  - the temperature rule;
  - model priority, filtering and stable sorting;
  - the sorted OpenRouter model list;
  - the analysis request and its outcome.

Shared vocabulary lives in **Common** (results, integer ranges, truncating
division) and **Text** (Unicode-whitespace trimming, UTF-8 byte length,
`i64` printing and parsing, string order). The library sorts the source
calls are modelled in **Sorting**: a stable sort, proved to produce a
permutation, to be ordered, and to be stable.

Methods and classes appear where the source changes state step by step:

- the writer;
- the recording slots;
- the detector;
- the session loop;
- the registry;
- the loops of `render_tokens` and `to_pcm16_mono_16k`;
- message composition.

Each method is proved equal to a specification function, and the
properties are lemmas about those functions.

## Model

| member | source | states |
|---|---|---|
| Common.TruncDiv | src-tauri/src/soniox.rs:409 | Rust's signed `/`: the quotient rounds toward zero, so the remainder has the dividend's sign and is smaller than the divisor |
| Common.UnwrapOr | src-tauri/src/lib.rs:161 | `unwrap_or`: the value when there is one, the default otherwise; a missing format means "wav" here, a missing quality "high" (lib.rs:184, 356-357) |
| Common.SaturatingSub | src-tauri/src/gate.rs:176-178 | `saturating_sub`: zero exactly when `a <= b`, otherwise the difference |
| Text.TrimEnd | src-tauri/src/gate.rs:175 | `trim_end` removes exactly the trailing whitespace: the result is a prefix, only whitespace was dropped, and it does not end in whitespace |
| Text.Trim | src-tauri/src/soniox.rs:374 | `trim`: the result is no longer than the input and starts and ends with a non-whitespace character |
| Text.TrimIsMiddle | src-tauri/src/soniox.rs:374 | `trim` keeps one contiguous slice of the input and drops only whitespace before and after it |
| Text.BlankIffTrimEmpty | src-tauri/src/openai.rs:53 | `s.trim().is_empty()` holds exactly for blank text |
| Text.BlankIffAllWhitespace | src-tauri/src/openai.rs:53 | text is blank exactly when every character is Unicode whitespace |
| Text.ContainsAt | src-tauri/src/openai.rs:41 | `str::contains` holds iff the pattern occurs at some index |
| Text.Utf8LenAppend | src-tauri/src/gate.rs:124-126 | the byte length `len()` is additive over concatenation |
| Text.Utf8LenBounds | src-tauri/src/gate.rs:124 | `len()` counts one to four bytes per character, exactly one for ASCII |
| Text.NatToDecimal | src-tauri/src/soniox.rs:312 | `{}` prints a non-empty string of digits without a leading zero |
| Text.NatToDecimalValue | src-tauri/src/soniox.rs:312 | the printed digits denote the number printed |
| Text.ParseI64 | src-tauri/src/soniox.rs:336 | `parse::<i64>` only yields values in the `i64` range |
| Text.ParseI64RoundTrip | src-tauri/src/soniox.rs:336 | parsing the decimal print of any `i64` gives it back |
| Text.StrLeTotal | src-tauri/src/openrouter.rs:108 | the string order used by `sort()` is total |
| Text.StrLeTransitive | src-tauri/src/openrouter.rs:108 | ... transitive |
| Text.StrLeAntisymmetric | src-tauri/src/openrouter.rs:108 | ... and antisymmetric |
| Sorting.SortByPerm | src-tauri/src/openai.rs:211-215 | the sort returns a permutation of its input |
| Sorting.SortBySorted | src-tauri/src/openai.rs:211-215 | for a total preorder, the sorted sequence is ordered |
| Sorting.SortByKeyStable | src-tauri/src/openai.rs:211-215 | `sort_by` is stable: elements with equal key keep their relative order |
| Sorting.SortByKeySorted | src-tauri/src/openai.rs:211-215 | sorting by an integer key gives a permutation in non-decreasing key order |
| Sorting.SortByNameSorted | src-tauri/src/assistants.rs:109 | sorting by a string field gives a permutation in lexicographic order of that field |
| LameEncoder.ErrorFromCode | src-tauri/src/lame_encoder/mod.rs:20-32 | code 0 gives `Ok`, the five named codes their variant, and every other code `Unknown` carrying the code |
| LameEncoder.ErrorFromCodeInjective | src-tauri/src/lame_encoder/mod.rs:20-32 | the translation loses nothing: each code is recovered from its error |
| LameEncoder.ErrorCodeRoundTrip | src-tauri/src/lame_encoder/mod.rs:20-32 | every error the translation can produce translates back to itself |
| LameEncoder.HandleSimpleError | src-tauri/src/lame_encoder/mod.rs:34-39 | `Ok` iff the code is 0, otherwise `Err` of the translated (non-`Ok`) error |
| LameEncoder.IntSize | src-tauri/src/lame_encoder/mod.rs:41-47 | returns the size unchanged iff it fits `i32`, panics otherwise |
| LameEncoder.EncodeResult | src-tauri/src/lame_encoder/mod.rs:159-171 | a non-negative native result is the byte count; -1..-4 are the four named errors; any lower code is `Unknown` with the code |
| LameEncoder.EncodeResultInjective | src-tauri/src/lame_encoder/mod.rs:185-197 | the encode/flush result mapping is invertible |
| LameEncoder.Encode | src-tauri/src/lame_encoder/mod.rs:138-172 | panics with the channel message unless both channels have equal length (and sizes fit `i32`); otherwise the mapped native result |
| LameEncoder.Flush | src-tauri/src/lame_encoder/mod.rs:176-198 | returns the mapped native result iff the buffer size fits `i32` |
| LameEncoder.Lame.Wrap | src-tauri/src/lame_encoder/mod.rs:78 | a wrapper holds a non-null handle and is open |
| LameEncoder.Lame.New | src-tauri/src/lame_encoder/mod.rs:72-80 | `None` iff the native init returned null; otherwise a fresh open encoder on that handle |
| LameEncoder.Lame.Drop | src-tauri/src/lame_encoder/mod.rs:201-205 | only an open handle is closed, and it is closed afterwards, so each handle is closed once |
| AudioWriting.Mp3BufferLen | src-tauri/src/lib.rs:73 | the encode buffer is at least 16384 bytes and at least `n*5/4 + 7200` |
| AudioWriting.SplitLengths | src-tauri/src/lib.rs:55-70 | left and right always have equal length (the encoder's precondition): the buffer length for mono, half rounded up otherwise |
| AudioWriting.SplitInterleave | src-tauri/src/lib.rs:59-70 | for multi-channel input, re-interleaving the split gives the buffer back plus one padding 0 when its length is odd |
| AudioWriting.Deinterleave | src-tauri/src/lib.rs:55-70 | the `chunks(2)` loop computes exactly the split: duplicated for mono, even/odd indices with 0 padding otherwise |
| AudioWriting.AudioWriter.Wav | src-tauri/src/lib.rs:17 | a fresh WAV writer has accepted nothing |
| AudioWriting.AudioWriter.Mp3 | src-tauri/src/lib.rs:18-23 | a fresh MP3 writer owns an open encoder, has an empty buffer and an empty file |
| AudioWriting.WrittenPart | src-tauri/src/lib.rs:77 | what `write_all` leaves in the file is a prefix of the slice: all of it on success, and strictly less of a non-empty slice on failure |
| AudioWriting.AudioWriter.FlushBuffer | src-tauri/src/lib.rs:45-89 | for an encoder reply that fits the output buffer sized for the split: an empty buffer: nothing happens. Otherwise the split goes to the encoder and only produced bytes are appended. The buffer is cleared even when encoding fails. Only a failed file write is reported: it keeps the buffer, and the file gains only the prefix of the bytes that `write_all` wrote before failing. Buffers flushed, then the buffer, always equal the samples written. The same holds for src-tauri/src/audio.rs:35-76 |
| AudioWriting.AudioWriter.WriteSample | src-tauri/src/lib.rs:27-43 | WAV passes the sample through. MP3 buffers it, and a buffer of at least a full frame of `1152*channels` samples triggers a flush; a failed write keeps the buffer and leaves the written prefix in the file. Once writes succeed the buffer stays below a frame. No sample is lost or reordered (also src-tauri/src/audio.rs:18-33) |
| AudioWriting.AudioWriter.Finalize | src-tauri/src/lib.rs:91-116 | WAV completes its header. MP3 flushes the partial frame first, then appends the encoder's final bytes; a flush error is swallowed and the file is flushed last. A failed write of either part leaves exactly the prefix written before the failure and reports failure. The encoder is closed on every path (also src-tauri/src/audio.rs:78-101) |
| Recorder.FileExtension | src-tauri/src/lib.rs:162-165 | the extension is "mp3" iff the format is "mp3", otherwise "wav" |
| Recorder.ExtensionMatchesWriter | src-tauri/src/lib.rs:206-208 | the file gets the "mp3" extension exactly when the thread builds the MP3 writer |
| Recorder.QualityFor | src-tauri/src/lib.rs:229-235 | "verylow" is (64 kbit/s, level 9), "low" (128, 7), "high" (320, 2), and "medium" and any unknown name (192, 5); every level is within 0..9 |
| Recorder.QualityMonotone | src-tauri/src/lib.rs:414-420 | across the table a higher bitrate always comes with a better (lower) level, and equal bitrates mean equal settings |
| Recorder.U16ToI16 | src-tauri/src/lib.rs:632 | `(x as i32 - 32768) as i16` never wraps, and the result is negative iff the input is below the midpoint |
| Recorder.U16ToI16Inverse | src-tauri/src/lib.rs:785 | the conversion is a bijection from `u16` onto `i16` |
| Recorder.ConvertU16Buffer | src-tauri/src/lib.rs:630-633 | the callback's loop converts every sample in place and order, into the `i16` range |
| Recorder.JoinPath | src-tauri/src/lib.rs:174 | `PathBuf::push` keeps the folder as a prefix and the name as a suffix; an empty folder gives the bare name, any other folder a longer path |
| Recorder.JoinPathOneSeparator | src-tauri/src/lib.rs:174 | exactly one '/' separates a non-empty folder from the name: the folder's own trailing one, or one inserted |
| Recorder.OutputPath | src-tauri/src/lib.rs:167-176 | a given path is used as is; otherwise the path starts with the folder and ends with `recording-<stamp>.<ext>` for the requested format, and is that bare name when the folder is empty |
| Recorder.ResolveAutoSettings | src-tauri/src/lib.rs:351-357 | missing settings take their defaults 300, 800, 250 ms, "wav", "high" |
| Recorder.AppState.constructor | src-tauri/src/lib.rs:138-144 | both slots start empty |
| Recorder.AppState.StartRecording | src-tauri/src/lib.rs:148-328 | refuses without any change while a stop sender is held; otherwise both slots hold a new session and the output path is returned |
| Recorder.AppState.ArmAutoRecording | src-tauri/src/lib.rs:342-348 | refuses without any change while a stop sender is held; otherwise only the stop slot holds a new session and the result slot is cleared |
| Recorder.AppState.DisarmAutoRecording | src-tauri/src/lib.rs:678-684 | takes and signals only the stop sender, erroring when there is none; the result slot is untouched |
| Recorder.AppState.StopRecording | src-tauri/src/lib.rs:688-701 | both slots are emptied before either is checked. Errors are "No active recording" and then the internal error. Otherwise the thread's result, or the closed-channel error |
| Recorder.ArmThenStop | src-tauri/src/lib.rs:690-694 | stopping an armed voice-activated session always gives the internal error: it never had a result receiver |
| VoiceActivity.PreRollCapacity | src-tauri/src/lib.rs:378 | the pre-roll capacity is whole frames: `floor(ms*rate/1000)` frames of `channels` samples |
| VoiceActivity.RingPushAllLast | src-tauri/src/lib.rs:529-534 | the pre-roll always holds exactly the most recent `max(capacity, 1)` samples seen |
| VoiceActivity.CooldownBlocksDetection | src-tauri/src/lib.rs:537-546 | during a cooldown longer than the chunk, no speech is counted and an idle detector writes nothing and stays idle |
| VoiceActivity.StartWritesPreRoll | src-tauri/src/lib.rs:566-583 | crossing the speech minimum while idle starts a segment and writes the pre-roll (already holding the chunk) and then the chunk |
| VoiceActivity.ShortSpeechWritesNothing | src-tauri/src/lib.rs:559-585 | while idle, speech shorter than the minimum writes nothing |
| VoiceActivity.QuietChunk | src-tauri/src/lib.rs:586-609 | a quiet chunk resets the speech counter and is written while recording. Enough silence ends the segment with a 500 ms cooldown; otherwise silence accumulates |
| VoiceActivity.RecordingWritesChunk | src-tauri/src/lib.rs:578-598 | every chunk processed inside a segment is written, loud or not |
| VoiceActivity.CooldownSilencesRun | src-tauri/src/lib.rs:537 | after a segment ends, any run of chunks shorter in total than the cooldown writes nothing and leaves the cooldown reduced by their duration |
| VoiceActivity.VoiceDetector.constructor | src-tauri/src/lib.rs:475-479 | counters start at zero, not recording, empty pre-roll |
| VoiceActivity.VoiceDetector.ProcessChunk | src-tauri/src/lib.rs:528-610 | one chunk updates the pre-roll and the counters exactly as the step function, and the pre-roll stays the last samples seen |
| VoiceActivity.VoiceDetector.Detect | src-tauri/src/lib.rs:536-610 | the cooldown, voice decision and hysteresis after the pre-roll update, equal to the counters' step function |
| VoiceActivity.PushChunk | src-tauri/src/lib.rs:529-534 | the evict-then-push loop equals the sample-by-sample ring push |
| VoiceActivity.WriteAll | src-tauri/src/lib.rs:574 | the samples reach the writer in order |
| VoiceActivity.StartDuplicatesChunk | src-tauri/src/lib.rs:566-583 | as written, starting a segment on the chunk [1, 2] with room in the pre-roll writes [1, 2, 1, 2] |
| VoiceActivity.StepIntendedStartIsSuffix | src-tauri/src/lib.rs:566-583 | with the intended start, a segment start writes the most recent pre-roll's worth of input heard before the chunk, then the whole chunk: a contiguous stretch at the end of the stream, so each sample once and the chunk never clipped |
| SonioxPcm.GroupsLength | src-tauri/src/soniox.rs:406-412 | `chunks(channels)` yields `ceil(n / channels)` mono samples |
| SonioxPcm.DownmixInRange | src-tauri/src/soniox.rs:401-412 | for a `u16` channel count, every run of at most `channels` samples (a group, or its running sum) sums within `i32`, and the average's `as i16` never truncates |
| SonioxPcm.LeBytes | src-tauri/src/soniox.rs:420 | `to_le_bytes` gives two bytes |
| SonioxPcm.LeBytesRoundTrip | src-tauri/src/soniox.rs:420 | reading back the two little-endian bytes gives the sample |
| SonioxPcm.Serialize | src-tauri/src/soniox.rs:418-421 | the frame has two bytes per sample |
| SonioxPcm.SerializeAt | src-tauri/src/soniox.rs:418-421 | sample `k` sits at bytes `2k`, `2k+1` and reads back from them |
| SonioxPcm.ToPcm16Mono16k | src-tauri/src/soniox.rs:401-423 | at 16000 Hz the frame is the little-endian bytes of the downmix, which is again 16-bit |
| SonioxPcm.DownmixLoop | src-tauri/src/soniox.rs:406-412 | the averaging loop equals the group-wise truncated average |
| SonioxPcm.SumLoop | src-tauri/src/soniox.rs:408 | the group sum |
| SonioxPcm.SerializeLoop | src-tauri/src/soniox.rs:419-421 | the byte loop equals the serialisation |
| SonioxPcm.MonoIdentity | src-tauri/src/soniox.rs:467-474 | mono input at 16000 Hz comes out as exactly its own samples, two bytes each |
| SonioxPcm.StereoExample | src-tauri/src/soniox.rs:477-484 | stereo 1000/3000 pairs downmix to 2000 each |
| SonioxPcm.ShortGroupExample | src-tauri/src/soniox.rs:407-409 | a short trailing group is divided by the full channel count, rounding toward zero |
| SonioxText.RemoveSubseq | src-tauri/src/soniox.rs:349-357 | `replace(pat, "")` only deletes characters |
| SonioxText.RemoveAbsent | src-tauri/src/soniox.rs:349-357 | text without the pattern is unchanged |
| SonioxText.RemoveSpansNoPair | src-tauri/src/soniox.rs:360-367 | after `replace_all` of `<[^>]*>` (or `\[[^\]]*\]`) no opener is followed by a closer |
| SonioxText.RemoveSpansNoSpan | src-tauri/src/soniox.rs:360-367 | text without such a span is unchanged |
| SonioxText.CleanSubseq | src-tauri/src/soniox.rs:345-370 | cleaning only deletes: the remaining characters, spaces included, keep their order |
| SonioxText.CleanNoTags | src-tauri/src/soniox.rs:359-367 | no `<...>` and no `[...]` tag survives cleaning |
| SonioxText.CleanNoMarkers | src-tauri/src/soniox.rs:349-357 | none of the nine listed markers survives |
| SonioxText.CleanUntagged | src-tauri/src/soniox.rs:345-370 | text without tags is returned unchanged |
| SonioxText.UpperAscii | src-tauri/src/soniox.rs:386 | a lower-case letter becomes upper case; anything else is kept |
| SonioxText.FormatLine | src-tauri/src/soniox.rs:373-399 | empty exactly for blank input; otherwise it ends in one of `. ! ? : ; ,` |
| SonioxText.FormatLineShape | src-tauri/src/soniox.rs:379-398 | the line is the trimmed text with its first letter capitalised, plus a '.' exactly when the text did not end in punctuation |
| SonioxText.FormatLineBlank | src-tauri/src/soniox.rs:374-377 | blank text, and only blank text, formats to "" |
| SonioxText.FormatLineIdempotent | src-tauri/src/soniox.rs:373-399 | formatting a formatted line changes nothing |
| SonioxRender.SpeakerIdRange | src-tauri/src/soniox.rs:330-342 | the id is an `i64` (an integer field in range, a string that parses after trimming, or the fallback, else 0) |
| SonioxRender.SpeakerIdPrinted | src-tauri/src/soniox.rs:335-337 | an id sent as a padded decimal string is read back whatever the fallback |
| SonioxRender.LabelNames | src-tauri/src/soniox.rs:311-315 | "Speaker N:" names positive speaker N (its digits parse back to N); every other id gets "Speaker:" |
| SonioxRender.Line | src-tauri/src/soniox.rs:318 | every speaker line is non-empty |
| SonioxRender.RenderTokens | src-tauri/src/soniox.rs:237-328 | the three loops compute the rendering function |
| SonioxRender.CollectFinals | src-tauri/src/soniox.rs:248-276 | the loop over final tokens equals the accumulation specification |
| SonioxRender.CollectNonFinals | src-tauri/src/soniox.rs:278-296 | the loop over non-final tokens equals the accumulation specification |
| SonioxRender.JoinLines | src-tauri/src/soniox.rs:298-320 | the speaker loop joins the non-empty lines with '\n' |
| SonioxRender.JoinEmpty | src-tauri/src/soniox.rs:307-309 | the joined text is empty exactly when there are no lines |
| SonioxRender.DedupOntoSpec | src-tauri/src/soniox.rs:271-273 | the `contains`/`push` idiom lists each speaker once, extends the existing order, and loses none |
| SonioxRender.FinalsSpeakers | src-tauri/src/soniox.rs:248-276 | final tokens list speakers in order of first kept token, and the last speaker seen is that of the last kept final token |
| SonioxRender.NonFinalsSpeakers | src-tauri/src/soniox.rs:278-296 | non-final tokens extend the order with their speakers and never change languages or the last final speaker |
| SonioxRender.SpeakerOrder | src-tauri/src/soniox.rs:271-294 | speakers appear once each, in first-appearance order, those of final tokens first |
| SonioxRender.FinalsLanguage | src-tauri/src/soniox.rs:259-265 | a speaker's language is set by its first kept final token |
| SonioxRender.LanguageShown | src-tauri/src/soniox.rs:316 | the language shown is that of the speaker's first kept final token, else "?" |
| SonioxRender.LinesOfCollect | src-tauri/src/soniox.rs:300-320 | every listed speaker gets a line |
| SonioxRender.OrderEmpty | src-tauri/src/soniox.rs:254-283 | no speaker is listed exactly when no token cleans to non-blank text |
| SonioxRender.RenderShape | src-tauri/src/soniox.rs:322-325 | the rendering is empty iff no token has non-blank cleaned text; otherwise it ends with a newline and the rule |
| SonioxSession.End | src-tauri/src/soniox.rs:230-231 | leaving the loop stops it |
| SonioxSession.PartsMembers | src-tauri/src/soniox.rs:178-188 | exactly the final tokens with text go to `final_tokens`, and the other tokens with text to the interim render |
| SonioxSession.PartsCount | src-tauri/src/soniox.rs:178-188 | every token with text goes to exactly one of the two |
| SonioxSession.HasTokensParts | src-tauri/src/soniox.rs:177-194 | `has_tokens` iff the message contributes a final or a non-final token |
| SonioxSession.ClearIdempotent | src-tauri/src/soniox.rs:129-136 | a second clear changes nothing, and a clear always arms the suppression |
| SonioxSession.RepeatSuppressed | src-tauri/src/soniox.rs:195-198 | after a clear, a render equal to the text emitted before it emits nothing and keeps suppression armed. The last emitted text stays empty and `finished` is not checked |
| SonioxSession.EmitDisarms | src-tauri/src/soniox.rs:199-205 | any emission becomes the last transcript and the last emitted text, and a rendered one disarms suppression |
| SonioxSession.NoSpeechAfterClear | src-tauri/src/soniox.rs:206-211 | a message without tokens emits "[no speech detected]", leaving suppression as it was |
| SonioxSession.ErrorStops | src-tauri/src/soniox.rs:165-170 | an error message ends the loop and changes no token, text or suppression state |
| SonioxSession.InitialInvariant | src-tauri/src/soniox.rs:115-123 | the loop starts in a state satisfying the invariant |
| SonioxSession.AudioKeeps | src-tauri/src/soniox.rs:141-153 | an audio chunk keeps the byte accounting: sent = reported + counter, counter < 48000 |
| SonioxSession.MessageKeeps | src-tauri/src/soniox.rs:161-214 | a server message keeps the invariant |
| SonioxSession.StepKeeps | src-tauri/src/soniox.rs:124-228 | every event keeps the invariant |
| SonioxSession.RunKeeps | src-tauri/src/soniox.rs:124-228 | over any event sequence, the counter stays below 48000 and every byte sent is reported or counted. A non-empty last emitted text is the last transcript shown |
| SonioxSession.Session.constructor | src-tauri/src/soniox.rs:115-123 | the loop variables start empty |
| SonioxSession.Session.Stop | src-tauri/src/soniox.rs:230-231 | the given events, then "ended", and the loop stops |
| SonioxSession.Session.HandleClear | src-tauri/src/soniox.rs:129-136 | the clear branch equals the clear step |
| SonioxSession.Session.HandleAudio | src-tauri/src/soniox.rs:141-153 | converts, sends and counts as the audio step does, with the frame being the PCM conversion |
| SonioxSession.Session.HandleAudioClosed | src-tauri/src/soniox.rs:154-157 | sends the empty text frame and stops |
| SonioxSession.Session.HandleWs | src-tauri/src/soniox.rs:161-225 | each WebSocket event is handled as the step function says |
| SonioxSession.Session.HandleMessage | src-tauri/src/soniox.rs:163-214 | a parsed server message is handled as the message step |
| SonioxSession.Session.CollectTokens | src-tauri/src/soniox.rs:176-188 | the token loop appends the final part and returns the interim part and `has_tokens` |
| Gate.PrepareGatePrompt | src-tauri/src/gate.rs:82-128 | the skip verdict iff the transcript is blank. Otherwise the two prompts built from the inputs (an absent last output as "") and the byte lengths of current and previous, and of the last output (0 when absent) |
| Gate.SystemPromptLayout | src-tauri/src/gate.rs:103-109 | the system prompt embeds the main prompt, then the gate instructions after the rules heading |
| Gate.UserPromptLayout | src-tauri/src/gate.rs:110-119 | the user prompt embeds current, previous and last output in that order, each after its heading, and closes with the JSON request |
| Gate.EndsSentenceIff | src-tauri/src/gate.rs:175 | the sentence test holds iff some '.', '!' or '?' is followed only by whitespace |
| Gate.FallbackGrowth | src-tauri/src/gate.rs:175-179 | the fallback runs iff the transcript ends a sentence and grew by at least 50 bytes |
| Gate.InterpretGateResponse | src-tauri/src/gate.rs:142-198 | a parsed verdict keeps run, reason and confidence, and a missing instruction is filled to agree with run. Unparsed content gives the fallback decision with its fixed reason and confidence 0.3. An instruction is always present |
| Gate.InterpretIdempotent | src-tauri/src/gate.rs:149-167 | interpreting a verdict that has an instruction leaves it unchanged |
| Gate.RunGate | src-tauri/src/gate.rs:200-284 | blank transcript: the skip verdict. First choice: its interpretation. Otherwise an error |
| Gate.BlankSkipsRequest | src-tauri/src/openrouter.rs:138-148 | for a whitespace-only transcript the result does not depend on the service's reply |
| Gate.VerdictHasInstruction | src-tauri/src/gate.rs:272-280 | every verdict the gate returns carries an instruction |
| Assistants.EntryError | src-tauri/src/assistants.rs:56-68 | an entry is accepted iff id, name and system prompt are all non-empty |
| Assistants.BuildErrSticky | src-tauri/src/assistants.rs:56-68 | entries after a rejected one are never looked at |
| Assistants.BuildFirstOffender | src-tauri/src/assistants.rs:56-68 | loading fails iff some entry is invalid, with the complaint about the first invalid entry |
| Assistants.BuildKeyed | src-tauri/src/assistants.rs:69 | every assistant is stored under its own id |
| Assistants.BuildKeys | src-tauri/src/assistants.rs:55-70 | the map's keys are exactly the listed ids |
| Assistants.BuildLastWins | src-tauri/src/assistants.rs:69 | an id listed several times holds its last entry |
| Assistants.LoadDefault | src-tauri/src/assistants.rs:73-78 | a successful load has a default that is one of the assistants |
| Assistants.EmptyListRejected | src-tauri/src/assistants.rs:51-53 | an empty list is rejected whatever the default |
| Assistants.AssistantManager.Empty | src-tauri/src/assistants.rs:30-35 | no assistants, default id "" |
| Assistants.AssistantManager.LoadFromFile | src-tauri/src/assistants.rs:37-95 | fails exactly when the load specification fails, with its message; otherwise a fresh registry holding the built map |
| Assistants.AssistantManager.InsertAll | src-tauri/src/assistants.rs:55-70 | the insertion loop with its early returns equals the build specification |
| Assistants.AssistantManager.GetAssistant | src-tauri/src/assistants.rs:97-99 | `Some` iff the id is a key, and then the assistant with that id |
| Assistants.AssistantManager.GetDefaultAssistant | src-tauri/src/assistants.rs:101-105 | the default when it is stored, otherwise some stored assistant; panics iff the registry is empty |
| Assistants.AssistantManager.ListAssistants | src-tauri/src/assistants.rs:107-111 | every stored assistant exactly once, in non-decreasing name order |
| Assistants.AssistantManager.CollectValues | src-tauri/src/assistants.rs:108 | `values().collect()` lists every stored assistant once |
| Chat.EffectiveSystemPrompt | src-tauri/src/openrouter.rs:52-56 | the system prompt, with "\n\n" and the policy appended iff the policy is not blank (same at src-tauri/src/openai.rs:66-70) |
| Chat.ComposeMessages | src-tauri/src/openrouter.rs:45-73 | the pushes build exactly the composed message list (same at src-tauri/src/openai.rs:74-89) |
| Chat.ComposedShape | src-tauri/src/openrouter.rs:58-72 | two or three messages: system first, user last, and an assistant context message with its prefix iff the last output is present and not blank |
| OpenAI.TemperatureForModel | src-tauri/src/openai.rs:40-46 | 1.0 for ids containing "gpt-5", the default otherwise |
| OpenAI.TemperatureIff | src-tauri/src/openai.rs:41 | the temperature is 1.0 iff "gpt-5" occurs in the id (for a default other than 1.0) |
| OpenAI.ModelPriority | src-tauri/src/openai.rs:233-243 | priorities range over 1..6; which ids get each one is stated by OpenAI.PriorityClasses |
| OpenAI.PriorityClasses | src-tauri/src/openai.rs:233-243 | any priority better than 6 belongs to a chat model; class 1 is exactly "o1-preview", class 2 exactly "o1-mini", class 3 exactly the two gpt-4.1 ids, class 4 exactly the other "gpt-4" ids, and class 5 exactly the "gpt-3.5" ids |
| OpenAI.ChatModels | src-tauri/src/openai.rs:198-208 | only chat models are kept |
| OpenAI.ChatModelsCount | src-tauri/src/openai.rs:198-208 | the filter keeps exactly the chat models, each as often as listed |
| OpenAI.OfferedModelsPermutation | src-tauri/src/openai.rs:198-215 | the offered list is a permutation of the chat models of the listing |
| OpenAI.OfferedModelsOrdered | src-tauri/src/openai.rs:211-215 | ... in non-decreasing priority |
| OpenAI.OfferedModelsStable | src-tauri/src/openai.rs:211-215 | ... with equal priorities in listing order |
| OpenAI.GetAvailableModels | src-tauri/src/openai.rs:167-231 | a blank key is refused before any request. A parsed listing gives the offered models, and every failure an error |
| OpenAI.AnalyzeConversation | src-tauri/src/openai.rs:48-154 | blank transcript: "No conversation to analyze yet." and no request. Otherwise the request has the composed messages, 500 tokens and the model's temperature, and the answer is the first choice, an error when there is none |
| OpenRouter.ListModels | src-tauri/src/openrouter.rs:103-116 | on success the ids sorted ascending, as a permutation of those received; failures are errors |
| OpenRouter.SortedUnique | src-tauri/src/openrouter.rs:108 | two sorted orderings of the same ids are equal, so the order `sort()` returns is determined |
| OpenRouter.BuildChatRequest | src-tauri/src/openrouter.rs:75-101 | the request keeps model, messages and token limit, with temperature 1.0 iff the id contains "gpt-5" and 0.0 otherwise |

## Left out

- Audio devices, threads, channels, WebSocket and HTTP transport, JSON parsing and file I/O are not modelled. Their outcomes are parameters: encoder replies, write results, the parsed message, the received result, and the reply to a request.
- Floating point is not modelled: RMS and peak energy, threshold calibration, the zero-crossing rate, the `f32` sample clamp, and resampling for rates other than 16000 Hz. The detector takes the loudness decision as an input.
- SonioxPcm.ToPcm16Mono16k: requires a sample rate of 16000, because the resampling path is floating-point interpolation.
- SonioxSession.Session.HandleAudio: requires a sample rate of 16000 for the same reason, since it converts each chunk with ToPcm16Mono16k.
- AudioWriting.AudioWriter.FlushBuffer, AudioWriting.AudioWriter.WriteSample, AudioWriting.AudioWriter.Finalize: require that the split and its output buffer fit `i32` (EncodeFits), so the `int_size` panic of the encoder is not reached from the writer. LameEncoder.Encode and LameEncoder.Flush model that panic, but the writer does not: a buffer that keeps growing under persistent write failures could reach it.
- The gate's `confidence` and the temperatures are modelled as reals, with no `f32` rounding.
- VoiceActivity.Step: the `u32` counters and the `as u32` cast of the chunk duration are unbounded naturals, so no wrap-around is modelled.
- SonioxSession.Invariant: `sent_bytes` is an unbounded natural.
- Upper-casing and lower-case detection are modelled for ASCII letters only; Unicode case mapping is not part of this model. Whitespace follows the Unicode White_Space property.
- The `DEBUG_COUNTER` static, all `log_to_file` calls and the Tauri events that only report progress are logging. Error-message text that embeds a Debug or Display rendering is modelled as an opaque suffix or as a fixed sentence.
- `render_user_prompt` is not part of this model. It is a function parameter of message composition.
- The LAME configuration setters and getters round-trip through the native library and are not modelled. So are the WAV writer (hound) and the native encoder.
- `get_credits`, `build_client`, `log_gate_prompt`, `config.rs`, `transcription.rs` and `build.rs` are not modelled.
- OpenRouter.BuildChatRequest: the request builder's own failure ("OpenRouter request error") is not modelled. The request is always built.
- Gate.RunGate: the gate request's own fields are not modelled: 120 tokens, and temperature 0.0 for OpenRouter or the temperature rule for OpenAI. Only the prompts and the reply handling are.
- SonioxSession.Step: a closed control channel is a no-op in the loop and has no event. The server's `finished` flag is only read after an emission.
- AudioWriting.AudioWriter.WriteSample: the buffer-below-a-frame promise holds when file writes succeed. A failed write keeps the full buffer, as the source does.
- AudioWriting.AudioWriter.Mp3: a writer with 0 channels divides by zero on its first flush, so the model requires at least one channel.
- Recorder.JoinPath: only '/' is modelled as a path separator. The Windows separator and an absolute name replacing the folder are not modelled.
- Sorting: the library sorts are modelled as a stable insertion sort on values. The in-place update of the vector is not modelled; only the resulting order is.

## Findings

| source | as written | input that shows it | evidently intended | confidence | as-written member | corrected member |
|---|---|---|---|---|---|---|
| src-tauri/src/lib.rs:566-583 | At a segment start the pre-roll is written, and it already ends with the current chunk (pushed at 529-534). Then the current chunk is written again | minimum speech 0, pre-roll capacity 4, idle detector, one loud 10 ms chunk [1, 2]: the writer receives [1, 2, 1, 2] | write the pre-roll as it was before the chunk, then the chunk, so each sample reaches the file once and the live chunk is whole | not executed | VoiceActivity.StartDuplicatesChunk | VoiceActivity.StepIntendedStartIsSuffix |
