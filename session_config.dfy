/**
 * Construction of a v2 streaming session: the per-call options and channel
 * variables become the first request of the stream, which names the
 * recognizer and carries the streaming recognition config
 * (mod_google_transcribe/google_glue_v2.cpp, the GStreamer constructor).
 *
 * The `...For` predicates are the specification of the mapping; the `Build...`
 * methods fill the request field by field, as the constructor does, and are
 * proved to meet them.
 */
module SessionConfig {
  import opened Wrappers
  import opened Strings
  import opened SpeechMessages

  /** The constructor's parameters (`single_utterance`, `enhanced` and `samples_per_second` are accepted but unused). */
  datatype CallOptions = CallOptions(
    channels: nat,
    lang: string,
    interim: int,
    configSampleRate: nat,
    samplesPerSecond: nat,
    singleUtterance: int,
    separateRecognition: int,
    maxAlternatives: int,
    profanityFilter: int,
    wordTimeOffset: int,
    punctuation: int,
    model: Option<string>,
    enhanced: int,
    hints: Option<string>)

  /** A well-formed entry of the GOOGLE_SPEECH_TRANSCRIPTION_NORMALIZATION JSON array. */
  datatype NormalizationItem = NormalizationItem(search: string, replace: string, caseSensitive: int)

  /**
   * The channel variables read by the constructor; `None` is an unset
   * variable. Numeric variables are given as the value `atoi` makes of them,
   * and the normalization variable as its parsed entries (a text that is not
   * a JSON array counts as no entries).
   */
  datatype ChannelVars = ChannelVars(
    recognizerParent: Option<string>,               // GOOGLE_SPEECH_RECOGNIZER_PARENT
    recognizerId: Option<string>,                   // GOOGLE_SPEECH_RECOGNIZER_ID
    alternativeLanguageCodes: Option<string>,       // GOOGLE_SPEECH_ALTERNATIVE_LANGUAGE_CODES
    speakerDiarization: Option<string>,             // GOOGLE_SPEECH_SPEAKER_DIARIZATION
    minSpeakerCount: Option<int>,                   // GOOGLE_SPEECH_SPEAKER_DIARIZATION_MIN_SPEAKER_COUNT
    maxSpeakerCount: Option<int>,                   // GOOGLE_SPEECH_SPEAKER_DIARIZATION_MAX_SPEAKER_COUNT
    transcriptionNormalization: Option<seq<NormalizationItem>>, // GOOGLE_SPEECH_TRANSCRIPTION_NORMALIZATION
    startTimeoutMs: Option<int>,                    // GOOGLE_SPEECH_START_TIMEOUT_MS
    endTimeoutMs: Option<int>,                      // GOOGLE_SPEECH_END_TIMEOUT_MS
    enableVoiceActivityEvents: Option<string>)      // GOOGLE_SPEECH_ENABLE_VOICE_ACTIVITY_EVENTS

  /** The constructor throws when the recognizer parent is not set. */
  datatype ConstructionError = MissingRecognizerParent

  const RecognizersPath := "/recognizers/"
  const WildcardRecognizer := "_"
  const MaxAlternateLanguages: nat := 3
  const MinSpeakerFloor := 1
  const MaxSpeakerFloor := 2
  const Int32Min := -0x8000_0000
  const Int32Max := 0x7fff_ffff

  function Max(a: int, b: int): int { if a < b then b else a }

  /** A timeout whose `ms * 1000000` does not overflow the 32-bit `int` of the source. */
  predicate TimeoutRepresentable(ms: Option<int>) {
    ms.Some? ==> Int32Min <= ms.value * NanosPerMilli <= Int32Max
  }

  /** The alternate language codes: at most three comma-separated fields of the variable. */
  function AlternateLanguages(v: Option<string>): (r: seq<string>)
    ensures |r| <= MaxAlternateLanguages
    ensures forall k :: 0 <= k < |r| ==> ',' !in r[k]
    ensures v.None? ==> r == []
  {
    if v.Some? then SeparateString(v.value, ',', MaxAlternateLanguages) else []
  }

  function NormalizationEntryOf(item: NormalizationItem): NormalizationEntry {
    NormalizationEntry(item.search, item.replace, item.caseSensitive != 0)
  }

  /** A voice-activity timeout: only `nanos` is written, `seconds` keeps its default 0. */
  function TimeoutFor(ms: Option<int>): Option<Duration> {
    if ms.Some? then Some(Duration(0, ms.value * NanosPerMilli)) else None
  }

  // ----- specification of the mapping -----

  ghost predicate DiarizationFor(vars: ChannelVars, d: SpeakerDiarizationConfig) {
    && d.minSpeakerCount == (if vars.minSpeakerCount.Some? then Some(Max(vars.minSpeakerCount.value, MinSpeakerFloor)) else None)
    && d.maxSpeakerCount == (if vars.maxSpeakerCount.Some? then Some(Max(vars.maxSpeakerCount.value, MaxSpeakerFloor)) else None)
  }

  ghost predicate FeaturesFor(call: CallOptions, vars: ChannelVars, f: RecognitionFeatures) {
    && f.multiChannelMode == (if call.channels > 1 && call.separateRecognition == 1 then Some(SeparateRecognitionPerChannel) else None)
    && f.maxAlternatives == (if call.maxAlternatives > 1 then Some(call.maxAlternatives) else None)
    && f.profanityFilter == (if call.profanityFilter == 1 then Some(true) else None)
    && f.enableWordTimeOffsets == (if call.wordTimeOffset == 1 then Some(true) else None)
    && f.enableAutomaticPunctuation == Some(call.punctuation == 1)
    && (f.diarizationConfig.Some? <==> vars.speakerDiarization.Some?)
    && (f.diarizationConfig.Some? ==> DiarizationFor(vars, f.diarizationConfig.value))
  }

  /** The normalization list is present only when at least one entry was given, and holds them all, in order. */
  ghost predicate NormalizationFor(items: Option<seq<NormalizationItem>>, n: Option<seq<NormalizationEntry>>) {
    && (n.Some? <==> items.Some? && |items.value| > 0)
    && (n.Some? ==>
          && |n.value| == |items.value|
          && forall k :: 0 <= k < |n.value| ==> n.value[k] == NormalizationEntryOf(items.value[k]))
  }

  /** The explicit recognition parameters, sent only when no recognizer id is given. */
  ghost predicate RecognitionConfigFor(call: CallOptions, vars: ChannelVars, c: RecognitionConfig) {
    && c.languageCodes == [call.lang] + AlternateLanguages(vars.alternativeLanguageCodes)
    && c.explicitDecodingConfig == Some(ExplicitDecodingConfig(call.configSampleRate, Linear16, call.channels))
    && c.features.Some? && FeaturesFor(call, vars, c.features.value)
    && c.model == call.model
    && c.adaptationHints == call.hints
    && NormalizationFor(vars.transcriptionNormalization, c.transcriptNormalization)
  }

  /** The streaming features, applied whether or not a recognizer id is given. */
  ghost predicate StreamingFeaturesFor(interim: int, vars: ChannelVars, sf: Option<StreamingRecognitionFeatures>) {
    && (sf.Some? <==>
          vars.startTimeoutMs.Some? || vars.endTimeoutMs.Some? || vars.enableVoiceActivityEvents.Some? || interim > 0)
    && (sf.Some? ==>
          && sf.value.voiceActivityTimeout ==
               (if vars.startTimeoutMs.Some? || vars.endTimeoutMs.Some?
                then Some(VoiceActivityTimeout(TimeoutFor(vars.startTimeoutMs), TimeoutFor(vars.endTimeoutMs)))
                else None)
          && sf.value.enableVoiceActivityEvents ==
               (if vars.enableVoiceActivityEvents.Some? then Some(vars.enableVoiceActivityEvents.value == "true") else None)
          && sf.value.interimResults == (if interim > 0 then Some(true) else None))
  }

  /** The first request of a session whose recognizer parent is set. */
  ghost predicate RequestFor(call: CallOptions, vars: ChannelVars, req: StreamingRecognizeRequest) {
    && vars.recognizerParent.Some?
    && req.recognizer == vars.recognizerParent.value + RecognizersPath +
         (if vars.recognizerId.Some? then vars.recognizerId.value else WildcardRecognizer)
    && req.streamingConfig.Some?
    && (req.streamingConfig.value.config.Some? <==> vars.recognizerId.None?)
    && (req.streamingConfig.value.config.Some? ==> RecognitionConfigFor(call, vars, req.streamingConfig.value.config.value))
    && StreamingFeaturesFor(call.interim, vars, req.streamingConfig.value.streamingFeatures)
    && req.audio == []
  }

  // ----- construction, field by field -----

  /** Lines 73-84: the primary language, then each alternate in turn. */
  method BuildLanguageCodes(lang: string, alternatives: Option<string>) returns (languageCodes: seq<string>)
    ensures languageCodes == [lang] + AlternateLanguages(alternatives)
  {
    languageCodes := [lang];
    if alternatives.Some? {
      var altLangs := SeparateString(alternatives.value, ',', MaxAlternateLanguages);
      var i := 0;
      while i < |altLangs|
        invariant 0 <= i <= |altLangs|
        invariant languageCodes == [lang] + altLangs[..i]
      {
        languageCodes := languageCodes + [altLangs[i]];
        i := i + 1;
      }
      assert altLangs[..i] == altLangs;
    }
  }

  /** Lines 93-127 and 147-162: the recognition features. */
  method BuildFeatures(call: CallOptions, vars: ChannelVars) returns (features: RecognitionFeatures)
    ensures FeaturesFor(call, vars, features)
  {
    features := RecognitionFeatures(None, None, None, None, None, None);
    if call.channels > 1 {
      if call.separateRecognition == 1 {
        features := features.(multiChannelMode := Some(SeparateRecognitionPerChannel));
      }
    }
    if call.maxAlternatives > 1 {
      features := features.(maxAlternatives := Some(call.maxAlternatives));
    }
    if call.profanityFilter == 1 {
      features := features.(profanityFilter := Some(true));
    }
    if call.wordTimeOffset == 1 {
      features := features.(enableWordTimeOffsets := Some(true));
    }
    if call.punctuation == 1 {
      features := features.(enableAutomaticPunctuation := Some(true));
    } else {
      features := features.(enableAutomaticPunctuation := Some(false));
    }
    if vars.speakerDiarization.Some? {
      var diarization := SpeakerDiarizationConfig(None, None);
      if vars.minSpeakerCount.Some? {
        diarization := diarization.(minSpeakerCount := Some(Max(vars.minSpeakerCount.value, MinSpeakerFloor)));
      }
      if vars.maxSpeakerCount.Some? {
        diarization := diarization.(maxSpeakerCount := Some(Max(vars.maxSpeakerCount.value, MaxSpeakerFloor)));
      }
      features := features.(diarizationConfig := Some(diarization));
    }
  }

  /** Lines 163-187: one normalization entry per item, the list created by the first one. */
  method BuildNormalization(items: Option<seq<NormalizationItem>>) returns (normalization: Option<seq<NormalizationEntry>>)
    ensures NormalizationFor(items, normalization)
  {
    normalization := None;
    if items.Some? {
      var entries := items.value;
      var i := 0;
      while i < |entries|
        invariant 0 <= i <= |entries|
        invariant i == 0 ==> normalization.None?
        invariant i > 0 ==> normalization.Some? && |normalization.value| == i
        invariant i > 0 ==> forall k :: 0 <= k < i ==> normalization.value[k] == NormalizationEntryOf(entries[k])
      {
        var list := if normalization.Some? then normalization.value else [];
        var entry := NormalizationEntry(entries[i].search, entries[i].replace, entries[i].caseSensitive != 0);
        normalization := Some(list + [entry]);
        i := i + 1;
      }
    }
  }

  /** Lines 72-187: the explicit recognition config. */
  method BuildRecognitionConfig(call: CallOptions, vars: ChannelVars) returns (c: RecognitionConfig)
    ensures RecognitionConfigFor(call, vars, c)
  {
    var languageCodes := BuildLanguageCodes(call.lang, vars.alternativeLanguageCodes);
    var decoding := ExplicitDecodingConfig(call.configSampleRate, Linear16, call.channels);
    var features := BuildFeatures(call, vars);
    var normalization := BuildNormalization(vars.transcriptionNormalization);
    c := RecognitionConfig(languageCodes, Some(decoding), Some(features), call.model, call.hints, normalization);
  }

  /** Lines 189-205 and 211-213: the streaming features. */
  method BuildStreamingFeatures(interim: int, vars: ChannelVars) returns (sf: Option<StreamingRecognitionFeatures>)
    requires TimeoutRepresentable(vars.startTimeoutMs) && TimeoutRepresentable(vars.endTimeoutMs)
    ensures StreamingFeaturesFor(interim, vars, sf)
  {
    var features := StreamingRecognitionFeatures(None, None, None);
    var touched := false;
    if vars.startTimeoutMs.Some? {
      var ms := vars.startTimeoutMs.value;
      var timeout := features.voiceActivityTimeout.GetOr(VoiceActivityTimeout(None, None));
      features := features.(voiceActivityTimeout := Some(timeout.(speechStartTimeout := Some(Duration(0, ms * NanosPerMilli)))));
      touched := true;
    }
    if vars.endTimeoutMs.Some? {
      var ms := vars.endTimeoutMs.value;
      var timeout := features.voiceActivityTimeout.GetOr(VoiceActivityTimeout(None, None));
      features := features.(voiceActivityTimeout := Some(timeout.(speechEndTimeout := Some(Duration(0, ms * NanosPerMilli)))));
      touched := true;
    }
    if vars.enableVoiceActivityEvents.Some? {
      var enabled := vars.enableVoiceActivityEvents.value == "true";
      features := features.(enableVoiceActivityEvents := Some(enabled));
      touched := true;
    }
    if interim > 0 {
      features := features.(interimResults := Some(interim > 0));
      touched := true;
    }
    sf := if touched then Some(features) else None;
  }

  /** The constructor (lines 53-213): the session's first request, or the error it throws. */
  method BuildRequest(call: CallOptions, vars: ChannelVars) returns (r: Result<StreamingRecognizeRequest, ConstructionError>)
    requires TimeoutRepresentable(vars.startTimeoutMs) && TimeoutRepresentable(vars.endTimeoutMs)
    ensures r.Failure? <==> vars.recognizerParent.None?
    ensures r.Failure? ==> r.error == MissingRecognizerParent
    ensures r.Success? ==> RequestFor(call, vars, r.value)
  {
    var recognizer: string;
    if vars.recognizerParent.Some? {
      recognizer := vars.recognizerParent.value + RecognizersPath;
    } else {
      return Failure(MissingRecognizerParent);
    }

    var config: Option<RecognitionConfig> := None;
    if vars.recognizerId.Some? {
      recognizer := recognizer + vars.recognizerId.value;
    } else {
      recognizer := recognizer + WildcardRecognizer;
      var c := BuildRecognitionConfig(call, vars);
      config := Some(c);
    }

    var streamingFeatures := BuildStreamingFeatures(call.interim, vars);
    r := Success(StreamingRecognizeRequest(recognizer, Some(StreamingRecognitionConfig(config, streamingFeatures)), []));
  }

  // ----- properties of the mapping -----

  /**
   * The language list is the primary language followed by at most three
   * alternates; when the variable holds at most three fields, joining the
   * alternates with commas gives the variable back, less a trailing comma.
   */
  lemma AlternatesRebuildVariable(call: CallOptions, vars: ChannelVars, c: RecognitionConfig)
    requires RecognitionConfigFor(call, vars, c)
    requires vars.alternativeLanguageCodes.Some? && vars.alternativeLanguageCodes.value != ""
    requires |Fields(vars.alternativeLanguageCodes.value, ',')| <= MaxAlternateLanguages
    ensures 2 <= |c.languageCodes| <= 1 + MaxAlternateLanguages && c.languageCodes[0] == call.lang
    ensures var v := vars.alternativeLanguageCodes.value;
            Join(c.languageCodes[1..], ',') + (if v[|v| - 1] == ',' then "," else "") == v
  {
    var s := vars.alternativeLanguageCodes.value;
    JoinFields(s, ',');
    assert c.languageCodes[1..] == Fields(s, ',');
  }

  /** The diarization bounds are clamped from below: min at least 1, max at least 2, and a larger value is kept. */
  lemma DiarizationClamps(vars: ChannelVars, d: SpeakerDiarizationConfig)
    requires DiarizationFor(vars, d)
    ensures d.minSpeakerCount.Some? ==> d.minSpeakerCount.value >= 1
    ensures d.maxSpeakerCount.Some? ==> d.maxSpeakerCount.value >= 2
    ensures vars.minSpeakerCount.Some? && vars.minSpeakerCount.value >= 1 ==> d.minSpeakerCount == vars.minSpeakerCount
    ensures vars.maxSpeakerCount.Some? && vars.maxSpeakerCount.value >= 2 ==> d.maxSpeakerCount == vars.maxSpeakerCount
  {
  }
}
