/**
 * The shapes of the Speech-to-Text v2 streaming messages that the session
 * builds and reads (google.cloud.speech.v2 StreamingRecognizeRequest and
 * StreamingRecognizeResponse), reduced to the fields the session touches.
 * A sub-message or field that may be left unset is an `Option`; floating
 * point scores are `real`s that the session only copies or compares with 0.
 */
module SpeechMessages {
  import opened Wrappers

  newtype byte = x: int | 0 <= x < 256

  /** google.protobuf.Duration. */
  datatype Duration = Duration(seconds: int, nanos: int)

  const NanosPerMilli := 1_000_000
  const NanosPerSecond := 1_000_000_000
  const MillisPerSecond := 1000

  /** The range protobuf allows for `Duration.nanos`. */
  predicate ValidNanos(nanos: int) {
    -999_999_999 <= nanos <= 999_999_999
  }

  // ----- request side -----

  datatype AudioEncoding = Linear16

  datatype ExplicitDecodingConfig =
    ExplicitDecodingConfig(sampleRateHertz: nat, encoding: AudioEncoding, audioChannelCount: nat)

  datatype MultiChannelMode = SeparateRecognitionPerChannel

  datatype SpeakerDiarizationConfig =
    SpeakerDiarizationConfig(minSpeakerCount: Option<int>, maxSpeakerCount: Option<int>)

  datatype RecognitionFeatures = RecognitionFeatures(
    multiChannelMode: Option<MultiChannelMode>,
    maxAlternatives: Option<int>,
    profanityFilter: Option<bool>,
    enableWordTimeOffsets: Option<bool>,
    enableAutomaticPunctuation: Option<bool>,
    diarizationConfig: Option<SpeakerDiarizationConfig>)

  /** One entry of the transcript normalization list. */
  datatype NormalizationEntry = NormalizationEntry(search: string, replace: string, caseSensitive: bool)

  /**
   * The recognition config. `adaptationHints` stands for the adaptation holding
   * one inline phrase set built from the given hints text by a helper outside
   * this model.
   */
  datatype RecognitionConfig = RecognitionConfig(
    languageCodes: seq<string>,
    explicitDecodingConfig: Option<ExplicitDecodingConfig>,
    features: Option<RecognitionFeatures>,
    model: Option<string>,
    adaptationHints: Option<string>,
    transcriptNormalization: Option<seq<NormalizationEntry>>)

  datatype VoiceActivityTimeout =
    VoiceActivityTimeout(speechStartTimeout: Option<Duration>, speechEndTimeout: Option<Duration>)

  datatype StreamingRecognitionFeatures = StreamingRecognitionFeatures(
    enableVoiceActivityEvents: Option<bool>,
    interimResults: Option<bool>,
    voiceActivityTimeout: Option<VoiceActivityTimeout>)

  datatype StreamingRecognitionConfig =
    StreamingRecognitionConfig(config: Option<RecognitionConfig>, streamingFeatures: Option<StreamingRecognitionFeatures>)

  datatype StreamingRecognizeRequest =
    StreamingRecognizeRequest(recognizer: string, streamingConfig: Option<StreamingRecognitionConfig>, audio: seq<byte>)

  // ----- response side -----

  datatype WordInfo = WordInfo(
    startOffset: Option<Duration>,
    endOffset: Option<Duration>,
    word: string,
    confidence: real,
    speakerLabel: string)

  datatype SpeechRecognitionAlternative =
    SpeechRecognitionAlternative(transcript: string, confidence: real, words: seq<WordInfo>)

  datatype StreamingRecognitionResult = StreamingRecognitionResult(
    alternatives: seq<SpeechRecognitionAlternative>,
    isFinal: bool,
    stability: real,
    resultEndOffset: Duration,
    channelTag: int,
    languageCode: string)

  datatype SpeechEventType =
    | SpeechEventTypeUnspecified
    | EndOfSingleUtterance
    | SpeechActivityBegin
    | SpeechActivityEnd

  datatype StreamingRecognizeResponse =
    StreamingRecognizeResponse(results: seq<StreamingRecognitionResult>, speechEventType: SpeechEventType)

  /** The final gRPC status of the stream. */
  datatype Status = Status(code: int, message: string)
}
