# Google Speech-to-Text v2 streaming session, modelled in Dafny

This project models the session logic of the FreeSWITCH `mod_google_transcribe`
v2 glue (`mod_google_transcribe/google_glue_v2.cpp`). That logic sits around one
bidirectional Speech-to-Text v2 gRPC stream:

- **Session construction** (`session_config.dfy`). The constructor turns the
  per-call options and the channel variables into the first
  `StreamingRecognizeRequest`. That request names the recognizer
  (`<parent>/recognizers/<id>` or `<parent>/recognizers/_`) and carries the
  streaming config. The explicit recognition config (languages, decoding,
  features, diarization, normalization) is built only when no recognizer id
  is given. The streaming features (voice-activity timeouts and events,
  interim results) are built in every case. A missing recognizer parent is a
  construction error. The `Build...` methods fill the request field by field,
  with the constructor's loops over alternate languages and normalization
  entries. `BuildLanguageCodes` is proved against the function
  `AlternateLanguages`; the other `Build...` methods are proved against a
  `...For` specification predicate.
- **Write gate** (`streamer.dfy`). Class `Streamer` has the `connected` flag,
  the pre-connection buffer (as the sequence of admitted writes), the
  request, and the log of requests handed to the transport. `Write` has two
  cases:
  - disconnected: it always succeeds, and buffers the data only when its
    length is a whole number of chunks;
  - connected: it sends the request with the streaming config cleared and the
    audio set.
- **Response translation** (`translator.dfy`). Each streamed result becomes a
  structured result record. A result without alternatives gets one empty
  alternative. Sparse word fields are left out. The end offset becomes whole
  milliseconds, truncated toward zero. This is the corrected end time, not
  the code's float arithmetic at line 253; see Findings.
- **Read loop** (`read_loop.dfy`). `ReadThread` (with `HandleResponse` for one
  response) produces the host callbacks in order: `play_interrupt`, one
  result per result, then `end_of_utterance` (with `writesDone` in
  single-utterance mode). After the stream ends it classifies the final
  status:
  - `max_duration_exceeded` or `no_audio` for code 10, told apart by the
    message text;
  - an error record for any other non-zero code;
  - nothing for 0.
- `strings.dfy` holds `std::string::find` and the comma split of
  `switch_separate_string`. `messages.dfy` holds the v2 message shapes.
  `wrappers.dfy` holds `Option`/`Result`.

The transport is abstract. The model takes as inputs:

- whether the stream connected;
- the responses it yields;
- its final status;
- what the stream's own `Write` reports;
- how many session lookups still find the call leg (`sessionLifetime`).

Two points about what the code does:

- The end time at line 253 converts `nanos` to a single-precision `float`
  before dividing, so it can round up to the next millisecond. The
  translator does not copy that: `TranslateResult` uses the truncating
  `EndTimeMs`. The code's arithmetic is modelled separately by
  `EndTimeMsAsWritten`. The two agree exactly when `nanos` is a whole number
  of milliseconds (`EndTimeAsWrittenAgreesWhenAligned`), and differ for
  2 s + 999,999,999 ns (`EndTimeAsWrittenRoundsUp`). See Findings.
- The transcript-normalization loop at lines 169-184 reads `search`,
  `replace` and `case_sensitive` from each entry (lines 174-176) without
  checking that they are present, so a malformed entry is not skipped. Only
  well-formed entries are modelled.

## Model

| member | source | states |
|---|---|---|
| Strings.Find | mod_google_transcribe/google_glue_v2.cpp:342 | the first index at or after `from` where the phrase occurs; no earlier index matches; `None` only when it occurs nowhere after `from` |
| Strings.Contains | mod_google_transcribe/google_glue_v2.cpp:342 | `find(p) != npos` holds exactly when the phrase occurs somewhere in the message |
| Strings.JoinFields | mod_google_transcribe/google_glue_v2.cpp:79 | the fields a scan opens join back to the string, less a trailing separator, which opens no field |
| Strings.SeparateString | mod_google_transcribe/google_glue_v2.cpp:78-79 | at most `max` fields, none containing the separator, in order, a prefix of the fields the scan opens (a trailing separator opens none); an empty string has none |
| Strings.SeparateStringEdges | mod_google_transcribe/google_glue_v2.cpp:79 | "a," gives just ["a"], while "a,,b" keeps the empty middle field |
| Strings.JoinSplit | mod_google_transcribe/google_glue_v2.cpp:79 | joining the comma fields with commas gives the original string back |
| Strings.SplitJoin | mod_google_transcribe/google_glue_v2.cpp:79 | splitting comma-joined comma-free fields gives those fields back |
| SessionConfig.AlternateLanguages | mod_google_transcribe/google_glue_v2.cpp:77-84 | at most 3 alternate codes, none containing a comma, none when the variable is unset |
| SessionConfig.BuildLanguageCodes | mod_google_transcribe/google_glue_v2.cpp:73-84 | the language list is the primary language followed by the alternates in their given order |
| SessionConfig.AlternatesRebuildVariable | mod_google_transcribe/google_glue_v2.cpp:76-84 | between 2 and 4 codes, the primary first; with at most 3 fields in the variable, the alternates joined with commas are the variable, less a trailing comma |
| SessionConfig.BuildFeatures | mod_google_transcribe/google_glue_v2.cpp:93-162 | per-channel recognition only for >1 channel and flag 1; max_alternatives only when >1; profanity and word offsets only when ==1; punctuation always explicitly true or false; diarization config present iff its variable is set, with min = max(n,1) and max = max(n,2) each set only when its variable is |
| SessionConfig.DiarizationClamps | mod_google_transcribe/google_glue_v2.cpp:152-161 | the speaker counts are at least 1 and 2, and a count already at or above its floor is kept |
| SessionConfig.BuildNormalization | mod_google_transcribe/google_glue_v2.cpp:163-187 | the normalization list exists only when at least one entry is given, and holds one entry per item in order, case-sensitive iff the value is non-zero |
| SessionConfig.BuildRecognitionConfig | mod_google_transcribe/google_glue_v2.cpp:72-187 | the explicit config: languages, LINEAR16 decoding at the configured rate and channel count, features, model and hints only when given, normalization |
| SessionConfig.BuildStreamingFeatures | mod_google_transcribe/google_glue_v2.cpp:189-213 | streaming features exist iff a timeout, the events variable or interim > 0 is given; each timeout's nanos is ms × 1,000,000 with seconds 0; events enabled iff the variable is exactly "true"; interim_results is set (true) only when interim > 0 |
| SessionConfig.BuildRequest | mod_google_transcribe/google_glue_v2.cpp:53-213 | fails exactly when the recognizer parent is unset; otherwise the recognizer is parent + "/recognizers/" + (id or "_"), the recognition config is present iff no id is given, the streaming features are applied either way, and there is no audio |
| Streaming.Aligned | mod_google_transcribe/google_glue_v2.cpp:370-372 | the admitted writes are all whole-chunk writes, taken from the writes made |
| Streaming.AlignedCounts | mod_google_transcribe/google_glue_v2.cpp:370-372 | each whole-chunk write is admitted as many times as it was made; no other write is ever admitted |
| Streaming.AdmitAllKeepsAligned | mod_google_transcribe/google_glue_v2.cpp:369-373 | a run of pre-connection writes appends exactly the whole-chunk writes to the buffer, in the order made |
| Streaming.Streamer.constructor | mod_google_transcribe/google_glue_v2.cpp:46-47 | a new session is disconnected, with an empty buffer and nothing sent |
| Streaming.Streamer.Write | mod_google_transcribe/google_glue_v2.cpp:368-379 | disconnected: returns true, appends the data iff its length is a multiple of the chunk size, sends nothing; connected: sends the request with the streaming config cleared and the audio set to the data, returns the transport's result; only whole-chunk writes are ever buffered and no sent request carries the streaming config |
| Streaming.Create | mod_google_transcribe/google_glue_v2.cpp:31-214 | construction fails exactly when the parent is unset; otherwise a fresh disconnected session holding the specified first request |
| ResponseTranslator.EndTimeTruncates | mod_google_transcribe/google_glue_v2.cpp:250-254 | result_end_time is the offset in whole milliseconds, the fraction dropped toward zero |
| ResponseTranslator.EndTimeAligned | mod_google_transcribe/google_glue_v2.cpp:250-254 | on a whole number of milliseconds, result_end_time = seconds × 1000 + nanos / 1,000,000 |
| ResponseTranslator.EndTimeAsWrittenRoundsUp | mod_google_transcribe/google_glue_v2.cpp:253 | as written, 2 s + 999,999,999 ns gives 3000 ms where truncation gives 2999 |
| ResponseTranslator.FloatOfAlignedNanos | mod_google_transcribe/google_glue_v2.cpp:253 | a whole number of milliseconds in nanoseconds survives the float cast unchanged |
| ResponseTranslator.EndTimeAsWrittenAgreesWhenAligned | mod_google_transcribe/google_glue_v2.cpp:253 | on millisecond-aligned nanos the code as written and the truncating end time agree |
| ResponseTranslator.TranslateWord | mod_google_transcribe/google_glue_v2.cpp:281-299 | the word is copied; start/end offsets appear iff present and hold the offset's whole `seconds` (the fraction is dropped); the speaker label appears iff non-empty and is the word's label; the confidence appears iff > 0 and is the word's confidence; no emitted field holds an empty label or a zero confidence |
| ResponseTranslator.TranslateWords | mod_google_transcribe/google_glue_v2.cpp:280-300 | one word record per word, in order |
| ResponseTranslator.TranslateAlternative | mod_google_transcribe/google_glue_v2.cpp:270-302 | confidence and transcript copied; a words list appears iff there is at least one word, and it is the translation of the words, in order |
| ResponseTranslator.TranslateResultShape | mod_google_transcribe/google_glue_v2.cpp:241-304 | at least one alternative; zero alternatives become exactly one with confidence 0 and empty transcript; otherwise the alternatives in the service's order; stability, is_final, language code and channel tag copied; end time in truncated milliseconds (the corrected end time, see Findings) |
| ResponseTranslator.WordRoundTrip | mod_google_transcribe/google_glue_v2.cpp:283-297 | for a word with whole-second offsets and non-negative confidence, reading back its record gives the word: only zero-valued fields are left out |
| ResponseTranslator.AlternativeRoundTrip | mod_google_transcribe/google_glue_v2.cpp:270-302 | reading back an alternative's record gives the alternative |
| ResponseTranslator.ResultRoundTrip | mod_google_transcribe/google_glue_v2.cpp:241-304 | reading back a result's record gives the result with its alternatives normalised; nothing else is lost on a millisecond-aligned end offset |
| ReadLoop.Payload | mod_google_transcribe/google_glue_v2.cpp:238-346 | the marker events are sent as fixed literals; results and errors are structured records |
| ReadLoop.PayloadIdentifiesMarker | mod_google_transcribe/google_glue_v2.cpp:238-346 | the four markers are sent as four different literals, so the literal the host receives names the marker |
| ReadLoop.ClosurePayload | mod_google_transcribe/google_glue_v2.cpp:341-347 | on code 10 the host receives exactly one literal: "max_duration_exceeded" when the message contains "Max duration of 5 minutes reached", otherwise "no_audio" |
| ReadLoop.ClosureEvents | mod_google_transcribe/google_glue_v2.cpp:341-359 | at most one closure event: `max_duration_exceeded` iff code 10 and the message contains "Max duration of 5 minutes reached"; `no_audio` iff code 10 otherwise; an error record {error, stream_close, code, message} iff another non-zero code; nothing iff code 0 |
| ReadLoop.PlayInterruptFirst | mod_google_transcribe/google_glue_v2.cpp:237-239 | a response gives play_file-is-1 + results + end-of-utterance callbacks, and `play_interrupt` appears only first and only when play_file is 1 |
| ReadLoop.ResultInResponseOrder | mod_google_transcribe/google_glue_v2.cpp:241-311 | the k-th result of a response is the k-th callback after the optional `play_interrupt` |
| ReadLoop.EndOfUtteranceLast | mod_google_transcribe/google_glue_v2.cpp:313-323 | `end_of_utterance` is sent only last, and only when the response carries that speech event |
| ReadLoop.ResponseMarkerPayloads | mod_google_transcribe/google_glue_v2.cpp:237-323 | a response's literal callbacks are "play_interrupt" first when play_file is 1 and "end_of_utterance" last on that speech event; no other callback of the response is a literal |
| ReadLoop.ResponseNotTerminal | mod_google_transcribe/google_glue_v2.cpp:237-329 | a response never causes a closure event |
| ReadLoop.SpeechActivityMarkersEmitNothing | mod_google_transcribe/google_glue_v2.cpp:324-329 | speech-activity begin and end produce the same callbacks as no speech event |
| ReadLoop.HandleResponse | mod_google_transcribe/google_glue_v2.cpp:237-329 | the callbacks for one response are play_interrupt?, the results in order, end_of_utterance?; writesDone is called iff the response ends the utterance and single utterance is wanted |
| ReadLoop.ReadThread | mod_google_transcribe/google_glue_v2.cpp:216-365 | no callbacks unless connected; the callbacks of each handled response in order, stopping when the call leg is gone; then the closure callbacks only when the call leg outlived the stream; writesDone calls and got_end_of_utterance follow the end-of-utterance responses handled |
| ReadLoop.EventsOfNotTerminal | mod_google_transcribe/google_glue_v2.cpp:229-332 | no response of the stream causes a closure event |
| ReadLoop.ClosureIsLast | mod_google_transcribe/google_glue_v2.cpp:334-363 | at most one closure event, always last, sent exactly when the stream connected, the call leg outlived it and the status is non-zero |
| ReadLoop.ResponseResults | mod_google_transcribe/google_glue_v2.cpp:241-311 | the results among a response's callbacks are the translations of its results, in order |
| ReadLoop.ResultsInOrder | mod_google_transcribe/google_glue_v2.cpp:229-332 | the result callbacks of the stream are the translations of all its results in the order the service sent them: none lost, repeated or reordered |
| ReadLoop.MarkerCounts | mod_google_transcribe/google_glue_v2.cpp:237-323 | one `end_of_utterance` per response carrying that event, and one `play_interrupt` per response when play_file is 1 |
| ReadLoop.ResponseMarkerCounts | mod_google_transcribe/google_glue_v2.cpp:237-323 | one response gives at most one of each marker, as its flags say |
| ReadLoop.WritesDoneFollowsEndOfUtterance | mod_google_transcribe/google_glue_v2.cpp:313-323 | in single-utterance mode writesDone is called once per `end_of_utterance` callback, otherwise never |
| ReadLoop.SingleUtteranceScenario | mod_google_transcribe/google_glue_v2.cpp:313-323 | a result then an end-of-utterance response, then a clean close, give exactly [result, `end_of_utterance`] and one writesDone |

## Left out

- gRPC transport and channel set-up (`create_grpc_channel`, `Speech::NewStub`, `waitForConnect`, `read`, `finish`, the stream's `Write`). These are foreign calls. They are inputs: a connect outcome, a response sequence, a final status, and a per-write transport result.
- Threads and session handles (`switch_core_session_locate`/`rwunlock`, the detached read thread). Liveness of the call leg is the `sessionLifetime` input: the number of lookups that still find the call leg. Concurrency between `write` and the read thread is not modelled.
- The audio buffer class, drain-on-connect, the switch of `m_connected` to true and the idempotence of `writesDone`. They live in headers that are not part of this model. The buffer is the sequence of admitted writes, and its capacity of 15 chunks is not modelled. `connected` is a field that the connect path (outside the model) sets.
- The value of `CHUNKSIZE` is defined in a header that is not part of this model. It is the `chunkSize` parameter of the `Streamer` constructor.
- JSON text. `cJSON` objects are structured records, and an absent field is `None`. The normalization variable is given already parsed, and only well-formed entries are modelled. A text that does not parse counts as no entries.
- Floating point. Stability and confidence are `real` values that are copied or compared with 0. Single-precision rounding of these scores is not modelled.
- SessionConfig.BuildStreamingFeatures: the timeouts are required to satisfy `|ms × 1,000,000|` ≤ 2³¹−1, because the source's 32-bit `int` product overflows beyond that (undefined behaviour). The model keeps the code's behaviour of writing the whole delay into `nanos` with `seconds` 0. For ms ≥ 1000 that value lies outside the ±999,999,999 range protobuf allows for `Duration.nanos`.
- SessionConfig.BuildRequest: carries the same timeout requirement, for the same reason.
- Streaming.Create: carries the same timeout requirement, for the same reason.
- Strings.SeparateString: `switch_separate_string` is a FreeSWITCH helper whose source is not part of this model. It is modelled as a left-to-right scan that opens a field at the start and after each separator that is not the last character, keeping the first three. So a trailing separator opens no empty field, and an empty field between two separators is kept. The helper's handling of quotes, escapes and surrounding blanks is not captured, and neither is how it fills the last slot when there are more fields.
- `google_speech_configure_grammar_hints` is opaque. The config records the hints text as `adaptationHints`, standing for one inline phrase set built from it.
- `atoi` is applied before the model: numeric channel variables are given as `int`s.
- The constructor's `single_utterance`, `enhanced` and `samples_per_second` parameters are accepted but not used by the v2 constructor. The model passes them through unused.
- ResponseTranslator.TranslateResultShape: states the corrected, truncating end time (`EndTimeMs`), not the code's float arithmetic at line 253. The two agree only when `nanos` is a whole number of milliseconds. The code as written is `EndTimeMsAsWritten` (see Findings).
- ResponseTranslator.EndTimeMsAsWritten: models the float cast of `nanos` (round to nearest, 24-bit significand, for |nanos| < 2³⁰). The double-precision sum after the cast is taken as exact, which holds for moderate `seconds`. The truncation of `seconds` to `int32_t` and the overflow of the final `(int)` cast are not modelled.
- The `extern "C"` forwarding wrappers, logging, and the diagnostic static counter `count` are left out. They compute nothing the callbacks depend on.

## Findings

| source | as written | input that shows it | evidently intended | confidence | as-written member | corrected member |
|---|---|---|---|---|---|---|
| mod_google_transcribe/google_glue_v2.cpp:253 | `nanos` is cast to `float` before the division. A float keeps only 24 significant bits, so nanos close to a millisecond boundary round up before `trunc` | seconds = 2, nanos = 999,999,999: the cast gives 1,000,000,000 and result_end_time is 3000 | whole milliseconds truncated toward zero: 2999 | not executed; high for the rounding itself | ResponseTranslator.EndTimeMsAsWritten, shown by ResponseTranslator.EndTimeAsWrittenRoundsUp | ResponseTranslator.EndTimeMs, proved by ResponseTranslator.EndTimeTruncates and ResponseTranslator.EndTimeAligned; used by ResponseTranslator.TranslateResult |
