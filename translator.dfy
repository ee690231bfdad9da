/**
 * Translation of one streamed recognition result into the structured result
 * record handed to the host (the JSON object built in grpc_read_thread).
 * JSON text is not modelled: a record field that the source leaves out of
 * the object is `None` here.
 */
module ResponseTranslator {
  import opened Wrappers
  import opened SpeechMessages

  datatype WordRecord = WordRecord(
    word: string,
    startOffset: Option<int>,     // whole seconds
    endOffset: Option<int>,       // whole seconds
    speakerLabel: Option<string>,
    confidence: Option<real>)

  datatype AlternativeRecord = AlternativeRecord(confidence: real, transcript: string, words: Option<seq<WordRecord>>)

  datatype ResultRecord = ResultRecord(
    stability: real,
    isFinal: bool,
    alternatives: seq<AlternativeRecord>,
    languageCode: string,
    channelTag: int,
    resultEndTime: int)           // milliseconds

  // ----- result end time -----

  /** Integer division rounding toward zero, as C's `trunc` of a quotient. */
  function TruncDiv(a: int, b: int): int
    requires b > 0
  {
    if a >= 0 then a / b else -((-a) / b)
  }

  /** `result_end_time`: the end offset in whole milliseconds, truncated toward zero. */
  function EndTimeMs(d: Duration): int {
    TruncDiv(d.seconds * NanosPerSecond + d.nanos, NanosPerMilli)
  }

  /** The end time is the offset's whole number of milliseconds, the fraction dropped toward zero. */
  lemma EndTimeTruncates(d: Duration)
    ensures var total := d.seconds * NanosPerSecond + d.nanos;
            var ms := EndTimeMs(d);
            && (total >= 0 ==> ms >= 0 && ms * NanosPerMilli <= total < (ms + 1) * NanosPerMilli)
            && (total < 0 ==> ms <= 0 && (ms - 1) * NanosPerMilli < total <= ms * NanosPerMilli)
  {
  }

  /** On a whole number of milliseconds the end time is `seconds * 1000 + nanos / 1000000` exactly. */
  lemma EndTimeAligned(d: Duration)
    requires d.nanos % NanosPerMilli == 0
    ensures EndTimeMs(d) == d.seconds * MillisPerSecond + d.nanos / NanosPerMilli
  {
    var k := d.nanos / NanosPerMilli;
    var m := d.seconds * MillisPerSecond + k;
    assert d.nanos == k * NanosPerMilli;
    assert d.seconds * NanosPerSecond + d.nanos == m * NanosPerMilli;
    if m >= 0 {
      assert (m * NanosPerMilli) / NanosPerMilli == m;
    } else {
      assert ((-m) * NanosPerMilli) / NanosPerMilli == -m;
    }
  }

  // ----- the end time as written: nanos pass through a single-precision float -----

  /** The gap between consecutive single-precision floats around `m`, for `m < 2^30`. */
  function FloatSpacing(m: nat): (u: nat)
    requires m < 0x4000_0000
    ensures u in {1, 2, 4, 8, 16, 32, 64}
  {
    if m < 0x100_0000 then 1
    else if m < 0x200_0000 then 2
    else if m < 0x400_0000 then 4
    else if m < 0x800_0000 then 8
    else if m < 0x1000_0000 then 16
    else if m < 0x2000_0000 then 32
    else 64
  }

  /** `(float) m`: round to nearest, ties to even, with a 24-bit significand. */
  function RoundToFloat(m: nat): nat
    requires m < 0x4000_0000
  {
    var u := FloatSpacing(m);
    var q, r := m / u, m % u;
    if 2 * r < u || (2 * r == u && q % 2 == 0) then q * u else (q + 1) * u
  }

  function FloatOfNanos(n: int): int
    requires ValidNanos(n)
  {
    if n >= 0 then RoundToFloat(n) else -(RoundToFloat(-n) as int)
  }

  /** `trunc` of a real, toward zero. */
  function Trunc(x: real): int {
    if x >= 0.0 then x.Floor else -((-x).Floor)
  }

  /**
   * Line 253 as written: `trunc(seconds * 1000. + ((float) nanos / 1000000.))`,
   * with the float cast modelled and the double-precision steps taken as exact.
   */
  function EndTimeMsAsWritten(d: Duration): int
    requires ValidNanos(d.nanos)
  {
    Trunc((d.seconds * MillisPerSecond) as real + (FloatOfNanos(d.nanos) as real) / (NanosPerMilli as real))
  }

  /** Line 253 rounds 2 s + 999,999,999 ns up to 3000 ms, where truncation gives 2999. */
  lemma EndTimeAsWrittenRoundsUp()
    ensures EndTimeMsAsWritten(Duration(2, 999_999_999)) == 3000
    ensures EndTimeMs(Duration(2, 999_999_999)) == 2999
  {
    assert FloatSpacing(999_999_999) == 64;
    assert 999_999_999 / 64 == 15_624_999 && 999_999_999 % 64 == 63;
    assert RoundToFloat(999_999_999) == 1_000_000_000;
    assert (2000 as real) + (1_000_000_000 as real) / (1_000_000 as real) == 3000.0;
  }

  /** A multiple of 64 below 2^30 is a single-precision float. */
  lemma RoundToFloatExact(m: nat)
    requires m < 0x4000_0000 && m % 64 == 0
    ensures RoundToFloat(m) == m
  {
    var u := FloatSpacing(m);
    var j := m / 64;
    assert m == 64 * j;
    assert m == u * ((64 / u) * j);
    assert m % u == 0 && m / u == (64 / u) * j;
  }

  /** A whole number of milliseconds of nanoseconds survives the float cast unchanged. */
  lemma FloatOfAlignedNanos(n: int)
    requires ValidNanos(n) && n % NanosPerMilli == 0
    ensures FloatOfNanos(n) == n
  {
    var k := n / NanosPerMilli;
    assert n == k * NanosPerMilli;
    if n >= 0 {
      assert n == 64 * (k * 15625);
      RoundToFloatExact(n);
    } else {
      assert -n == 64 * ((-k) * 15625);
      RoundToFloatExact(-n);
    }
  }

  /** `trunc(seconds * 1000. + k * 1000000. / 1000000.)` is `seconds * 1000 + k`. */
  lemma TruncWholeMillis(seconds: int, k: int)
    ensures Trunc((seconds * MillisPerSecond) as real + ((k * NanosPerMilli) as real) / (NanosPerMilli as real))
            == seconds * MillisPerSecond + k
  {
    assert ((k * NanosPerMilli) as real) / (NanosPerMilli as real) == k as real;
    var m := seconds * MillisPerSecond + k;
    assert (seconds * MillisPerSecond) as real + (k as real) == m as real;
  }

  /** On a whole number of milliseconds line 253 agrees with the truncating end time. */
  lemma EndTimeAsWrittenAgreesWhenAligned(d: Duration)
    requires ValidNanos(d.nanos) && d.nanos % NanosPerMilli == 0
    ensures EndTimeMsAsWritten(d) == EndTimeMs(d)
  {
    var k := d.nanos / NanosPerMilli;
    assert d.nanos == k * NanosPerMilli;
    FloatOfAlignedNanos(d.nanos);
    TruncWholeMillis(d.seconds, k);
    EndTimeAligned(d);
  }

  // ----- words, alternatives, results -----

  /** A word: `start_offset`/`end_offset` (whole seconds) only when present, the label only when non-empty, the confidence only when positive. */
  function TranslateWord(w: WordInfo): (j: WordRecord)
    ensures j.word == w.word
    ensures j.startOffset.Some? <==> w.startOffset.Some?
    ensures j.endOffset.Some? <==> w.endOffset.Some?
    ensures j.speakerLabel.Some? <==> w.speakerLabel != ""
    ensures j.confidence.Some? <==> w.confidence > 0.0
    ensures j.startOffset.Some? ==> j.startOffset.value == w.startOffset.value.seconds
    ensures j.endOffset.Some? ==> j.endOffset.value == w.endOffset.value.seconds
    ensures j.speakerLabel.Some? ==> j.speakerLabel.value == w.speakerLabel
    ensures j.confidence.Some? ==> j.confidence.value == w.confidence
    ensures j.speakerLabel != Some("") && j.confidence != Some(0.0)
  {
    WordRecord(
      w.word,
      if w.startOffset.Some? then Some(w.startOffset.value.seconds) else None,
      if w.endOffset.Some? then Some(w.endOffset.value.seconds) else None,
      if |w.speakerLabel| > 0 then Some(w.speakerLabel) else None,
      if w.confidence > 0.0 then Some(w.confidence) else None)
  }

  function TranslateWords(ws: seq<WordInfo>): (r: seq<WordRecord>)
    ensures |r| == |ws| && forall k :: 0 <= k < |ws| ==> r[k] == TranslateWord(ws[k])
  {
    seq(|ws|, k requires 0 <= k < |ws| => TranslateWord(ws[k]))
  }

  /** An alternative: the `words` list only when there is at least one word. */
  function TranslateAlternative(a: SpeechRecognitionAlternative): (j: AlternativeRecord)
    ensures j.confidence == a.confidence && j.transcript == a.transcript
    ensures j.words.Some? <==> |a.words| > 0
    ensures j.words.Some? ==> j.words.value == TranslateWords(a.words)
  {
    AlternativeRecord(a.confidence, a.transcript, if |a.words| > 0 then Some(TranslateWords(a.words)) else None)
  }

  /** The alternatives translated: none becomes one empty alternative of confidence 0. */
  function NormalizedAlternatives(alts: seq<SpeechRecognitionAlternative>): seq<SpeechRecognitionAlternative> {
    if |alts| == 0 then [SpeechRecognitionAlternative("", 0.0, [])] else alts
  }

  function TranslateResult(r: StreamingRecognitionResult): ResultRecord {
    var alts := NormalizedAlternatives(r.alternatives);
    ResultRecord(
      r.stability,
      r.isFinal,
      seq(|alts|, k requires 0 <= k < |alts| => TranslateAlternative(alts[k])),
      r.languageCode,
      r.channelTag,
      EndTimeMs(r.resultEndOffset))
  }

  /**
   * A result record always holds at least one alternative: a result without
   * alternatives gets exactly one, empty and of confidence 0; otherwise the
   * service's alternatives are kept, in their order. The scalar fields are
   * copied, and the end time is the truncated millisecond offset.
   */
  lemma TranslateResultShape(r: StreamingRecognitionResult)
    ensures var j := TranslateResult(r);
            && |j.alternatives| >= 1
            && (|r.alternatives| == 0 ==> j.alternatives == [AlternativeRecord(0.0, "", None)])
            && (|r.alternatives| > 0 ==>
                  |j.alternatives| == |r.alternatives| &&
                  forall k :: 0 <= k < |r.alternatives| ==> j.alternatives[k] == TranslateAlternative(r.alternatives[k]))
            && j.stability == r.stability && j.isFinal == r.isFinal
            && j.languageCode == r.languageCode && j.channelTag == r.channelTag
            && j.resultEndTime == EndTimeMs(r.resultEndOffset)
  {
  }

  // ----- reading the records back -----

  /** What a consumer of the record reads back: an absent field is the zero value. */
  function ParseWord(j: WordRecord): WordInfo {
    WordInfo(
      if j.startOffset.Some? then Some(Duration(j.startOffset.value, 0)) else None,
      if j.endOffset.Some? then Some(Duration(j.endOffset.value, 0)) else None,
      j.word,
      j.confidence.GetOr(0.0),
      j.speakerLabel.GetOr(""))
  }

  function ParseAlternative(j: AlternativeRecord): SpeechRecognitionAlternative {
    var ws := if j.words.Some? then j.words.value else [];
    SpeechRecognitionAlternative(j.transcript, j.confidence, seq(|ws|, k requires 0 <= k < |ws| => ParseWord(ws[k])))
  }

  function ParseResult(j: ResultRecord): StreamingRecognitionResult {
    StreamingRecognitionResult(
      seq(|j.alternatives|, k requires 0 <= k < |j.alternatives| => ParseAlternative(j.alternatives[k])),
      j.isFinal,
      j.stability,
      Duration(j.resultEndTime / MillisPerSecond, (j.resultEndTime % MillisPerSecond) * NanosPerMilli),
      j.channelTag,
      j.languageCode)
  }

  /** A word whose offsets are whole seconds and whose confidence is not negative loses nothing in translation. */
  predicate WholeWord(w: WordInfo) {
    && (w.startOffset.Some? ==> w.startOffset.value.nanos == 0)
    && (w.endOffset.Some? ==> w.endOffset.value.nanos == 0)
    && w.confidence >= 0.0
  }

  predicate WholeAlternative(a: SpeechRecognitionAlternative) {
    forall k :: 0 <= k < |a.words| ==> WholeWord(a.words[k])
  }

  /** A result ending on a whole, non-negative millisecond, with whole alternatives. */
  predicate WholeResult(r: StreamingRecognitionResult) {
    && r.resultEndOffset.seconds >= 0
    && 0 <= r.resultEndOffset.nanos < NanosPerSecond
    && r.resultEndOffset.nanos % NanosPerMilli == 0
    && forall k :: 0 <= k < |r.alternatives| ==> WholeAlternative(r.alternatives[k])
  }

  /** The fields a word record leaves out are exactly those at their zero value. */
  lemma WordRoundTrip(w: WordInfo)
    requires WholeWord(w)
    ensures ParseWord(TranslateWord(w)) == w
  {
  }

  lemma {:induction false} AlternativeRoundTrip(a: SpeechRecognitionAlternative)
    requires WholeAlternative(a)
    ensures ParseAlternative(TranslateAlternative(a)) == a
  {
    var p := ParseAlternative(TranslateAlternative(a));
    assert |p.words| == |a.words|;
    forall k | 0 <= k < |a.words|
      ensures p.words[k] == a.words[k]
    {
      WordRoundTrip(a.words[k]);
    }
  }

  /**
   * Reading back a translated result gives the result with its alternatives
   * normalised (none becomes one empty alternative): nothing else is lost.
   */
  lemma {:induction false} ResultRoundTrip(r: StreamingRecognitionResult)
    requires WholeResult(r)
    ensures ParseResult(TranslateResult(r)) == r.(alternatives := NormalizedAlternatives(r.alternatives))
  {
    var j := TranslateResult(r);
    var p := ParseResult(j);
    var alts := NormalizedAlternatives(r.alternatives);
    assert |p.alternatives| == |alts|;
    forall k | 0 <= k < |alts|
      ensures p.alternatives[k] == alts[k]
    {
      if |r.alternatives| > 0 {
        AlternativeRoundTrip(r.alternatives[k]);
      }
    }
    var d := r.resultEndOffset;
    EndTimeAligned(d);
    var c := d.nanos / NanosPerMilli;
    assert 0 <= c < MillisPerSecond;
    assert d.nanos == c * NanosPerMilli;
    assert j.resultEndTime == d.seconds * MillisPerSecond + c;
    assert j.resultEndTime / MillisPerSecond == d.seconds;
    assert j.resultEndTime % MillisPerSecond == c;
  }
}
