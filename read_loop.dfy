/**
 * The read loop of a v2 session (grpc_read_thread): for every response read
 * from the stream it notifies the host in a fixed order, and once the stream
 * ends it classifies the final status. The transport is abstract: whether
 * the stream connected, the responses it yields and its final status are
 * inputs, and so is how long the call leg lives (`sessionLifetime`: the
 * number of session lookups that still find it).
 */
module ReadLoop {
  import opened Wrappers
  import opened Strings
  import opened SpeechMessages
  import opened ResponseTranslator

  /** The record sent when the stream closes on an error. */
  datatype ErrorRecord = ErrorRecord(kind: string, errorCause: string, errorCode: int, errorMessage: string)

  /** What the response handler is called with. */
  datatype Event =
    | PlayInterrupt
    | Result(record: ResultRecord)
    | EndOfUtterance
    | MaxDurationExceeded
    | NoAudio
    | StreamCloseError(error: ErrorRecord)
  {
    /** The events that report how the stream closed. */
    predicate IsTerminal() {
      MaxDurationExceeded? || NoAudio? || StreamCloseError?
    }
  }

  /** The literal payload of a marker event; results and errors are structured records instead. */
  function Payload(e: Event): (r: Option<string>)
    ensures r.Some? <==> !e.Result? && !e.StreamCloseError?
  {
    match e
    case PlayInterrupt => Some("play_interrupt")
    case EndOfUtterance => Some("end_of_utterance")
    case MaxDurationExceeded => Some("max_duration_exceeded")
    case NoAudio => Some("no_audio")
    case _ => None
  }

  /** The parts of the callback context the loop reads. */
  datatype CallbackContext = CallbackContext(playFile: int, wantsSingleUtterance: int)

  /** gRPC's ABORTED status code. */
  const Aborted := 10
  const MaxDurationMessage := "Max duration of 5 minutes reached"

  // ----- closure -----

  /** Lines 341-359: the events that report the final status of the stream. */
  function ClosureEvents(status: Status): (e: seq<Event>)
    ensures |e| <= 1
    ensures forall k :: 0 <= k < |e| ==> e[k].IsTerminal()
    ensures e == [] <==> status.code == 0
    ensures e == [MaxDurationExceeded] <==> status.code == Aborted && Occurs(status.message, MaxDurationMessage)
    ensures e == [NoAudio] <==> status.code == Aborted && !Occurs(status.message, MaxDurationMessage)
    ensures (|e| == 1 && e[0].StreamCloseError?) <==> status.code != 0 && status.code != Aborted
    ensures |e| == 1 && e[0].StreamCloseError? ==>
              e[0].error == ErrorRecord("error", "stream_close", status.code, status.message)
  {
    if status.code == Aborted then
      if Contains(status.message, MaxDurationMessage) then [MaxDurationExceeded] else [NoAudio]
    else if status.code != 0 then
      [StreamCloseError(ErrorRecord("error", "stream_close", status.code, status.message))]
    else
      []
  }

  /** The four markers reach the host as four different literals, so the literal names the marker. */
  lemma PayloadIdentifiesMarker(e1: Event, e2: Event)
    requires Payload(e1).Some? && Payload(e1) == Payload(e2)
    ensures e1 == e2
  {
  }

  /** On code 10 the host receives "max_duration_exceeded" or "no_audio", as the message says. */
  lemma ClosurePayload(status: Status)
    requires status.code == Aborted
    ensures |ClosureEvents(status)| == 1
    ensures Payload(ClosureEvents(status)[0]) ==
              Some(if Occurs(status.message, MaxDurationMessage) then "max_duration_exceeded" else "no_audio")
  {
  }

  // ----- one response -----

  function ResultEvents(results: seq<StreamingRecognitionResult>): seq<Event> {
    seq(|results|, k requires 0 <= k < |results| => Result(TranslateResult(results[k])))
  }

  /** Lines 237-329: the callbacks for one response. */
  function ResponseEvents(cb: CallbackContext, response: StreamingRecognizeResponse): seq<Event> {
    (if cb.playFile == 1 then [PlayInterrupt] else [])
    + ResultEvents(response.results)
    + (if response.speechEventType == EndOfSingleUtterance then [EndOfUtterance] else [])
  }

  /* A response is reported as: `play_interrupt` first, only when play_file is
     1; then one result event per result, in the order of the results; then
     `end_of_utterance`, only when the response carries that speech event. */

  lemma PlayInterruptFirst(cb: CallbackContext, response: StreamingRecognizeResponse)
    ensures |ResponseEvents(cb, response)| ==
              (if cb.playFile == 1 then 1 else 0) + |response.results|
              + (if response.speechEventType == EndOfSingleUtterance then 1 else 0)
    ensures forall i :: 0 <= i < |ResponseEvents(cb, response)| ==>
              (ResponseEvents(cb, response)[i] == PlayInterrupt <==> i == 0 && cb.playFile == 1)
  {
  }

  lemma ResultInResponseOrder(cb: CallbackContext, response: StreamingRecognizeResponse, k: nat)
    requires k < |response.results|
    ensures ResponseEvents(cb, response)[(if cb.playFile == 1 then 1 else 0) + k] == Result(TranslateResult(response.results[k]))
  {
    var play: seq<Event> := if cb.playFile == 1 then [PlayInterrupt] else [];
    var rs := ResultEvents(response.results);
    var eou: seq<Event> := if response.speechEventType == EndOfSingleUtterance then [EndOfUtterance] else [];
    assert ResponseEvents(cb, response) == play + rs + eou;
    assert (play + rs + eou)[|play| + k] == rs[k];
  }

  lemma EndOfUtteranceLast(cb: CallbackContext, response: StreamingRecognizeResponse)
    ensures forall i :: 0 <= i < |ResponseEvents(cb, response)| ==>
              (ResponseEvents(cb, response)[i] == EndOfUtterance <==>
                 i == |ResponseEvents(cb, response)| - 1 && response.speechEventType == EndOfSingleUtterance)
  {
  }

  lemma ResponseNotTerminal(cb: CallbackContext, response: StreamingRecognizeResponse)
    ensures forall i :: 0 <= i < |ResponseEvents(cb, response)| ==> !ResponseEvents(cb, response)[i].IsTerminal()
  {
  }

  /** Speech-activity begin and end markers add no callback. */
  lemma SpeechActivityMarkersEmitNothing(cb: CallbackContext, response: StreamingRecognizeResponse)
    ensures ResponseEvents(cb, response.(speechEventType := SpeechActivityBegin))
         == ResponseEvents(cb, response.(speechEventType := SpeechEventTypeUnspecified))
    ensures ResponseEvents(cb, response.(speechEventType := SpeechActivityEnd))
         == ResponseEvents(cb, response.(speechEventType := SpeechEventTypeUnspecified))
  {
  }

  /**
   * The literal callbacks of a response: "play_interrupt" first when play_file
   * is 1, "end_of_utterance" last on that speech event, and no other.
   */
  lemma ResponseMarkerPayloads(cb: CallbackContext, response: StreamingRecognizeResponse)
    ensures cb.playFile == 1 ==> Payload(ResponseEvents(cb, response)[0]) == Some("play_interrupt")
    ensures response.speechEventType == EndOfSingleUtterance ==>
              Payload(ResponseEvents(cb, response)[|ResponseEvents(cb, response)| - 1]) == Some("end_of_utterance")
    ensures forall i :: 0 <= i < |ResponseEvents(cb, response)| && Payload(ResponseEvents(cb, response)[i]).Some? ==>
              (i == 0 && cb.playFile == 1) ||
              (i == |ResponseEvents(cb, response)| - 1 && response.speechEventType == EndOfSingleUtterance)
  {
    PlayInterruptFirst(cb, response);
    EndOfUtteranceLast(cb, response);
    ResponseNotTerminal(cb, response);
  }

  // ----- the whole stream -----

  /** The callbacks for a run of responses, in order. */
  function EventsOf(cb: CallbackContext, responses: seq<StreamingRecognizeResponse>): seq<Event>
    decreases |responses|
  {
    if responses == [] then []
    else EventsOf(cb, responses[..|responses| - 1]) + ResponseEvents(cb, responses[|responses| - 1])
  }

  /** How many of the responses carry the end-of-single-utterance event. */
  function EndOfUtteranceCount(responses: seq<StreamingRecognizeResponse>): nat
    decreases |responses|
  {
    if responses == [] then 0
    else EndOfUtteranceCount(responses[..|responses| - 1])
         + (if responses[|responses| - 1].speechEventType == EndOfSingleUtterance then 1 else 0)
  }

  /** The responses the loop gets to handle: none unless connected, and none once the call leg is gone. */
  function Handled(connected: bool, responses: seq<StreamingRecognizeResponse>, sessionLifetime: nat): seq<StreamingRecognizeResponse> {
    if !connected then []
    else if sessionLifetime <= |responses| then responses[..sessionLifetime]
    else responses
  }

  /** The stream's closure is reported only when connected and the call leg outlives every response. */
  predicate ReportsClosure(connected: bool, responses: seq<StreamingRecognizeResponse>, sessionLifetime: nat) {
    connected && sessionLifetime > |responses|
  }

  /** Every callback of the read thread, in order. */
  function ThreadEvents(cb: CallbackContext, connected: bool, responses: seq<StreamingRecognizeResponse>,
                        sessionLifetime: nat, status: Status): seq<Event>
  {
    EventsOf(cb, Handled(connected, responses, sessionLifetime))
    + (if ReportsClosure(connected, responses, sessionLifetime) then ClosureEvents(status) else [])
  }

  /**
   * Lines 237-329: the callbacks for one response, whether the response
   * ends the utterance, and whether `writesDone` is called for it.
   */
  method HandleResponse(cb: CallbackContext, response: StreamingRecognizeResponse)
    returns (events: seq<Event>, endOfUtterance: bool, callsWritesDone: bool)
    ensures events == ResponseEvents(cb, response)
    ensures endOfUtterance <==> response.speechEventType == EndOfSingleUtterance
    ensures callsWritesDone <==> endOfUtterance && cb.wantsSingleUtterance != 0
  {
    events, endOfUtterance, callsWritesDone := [], false, false;
    if cb.playFile == 1 {
      events := events + [PlayInterrupt];
    }
    ghost var afterInterrupt := events;
    var r := 0;
    while r < |response.results|
      invariant 0 <= r <= |response.results|
      invariant events == afterInterrupt + ResultEvents(response.results[..r])
    {
      events := events + [Result(TranslateResult(response.results[r]))];
      r := r + 1;
    }
    assert response.results[..r] == response.results;
    // SPEECH_ACTIVITY_BEGIN and SPEECH_ACTIVITY_END are only logged
    if response.speechEventType == EndOfSingleUtterance {
      endOfUtterance := true;
      events := events + [EndOfUtterance];
      if cb.wantsSingleUtterance != 0 {
        callsWritesDone := true;
      }
    }
  }

  /**
   * grpc_read_thread: returns the callbacks made, in order, how many times
   * it called `writesDone`, and the final `got_end_of_utterance` flag.
   */
  method ReadThread(cb: CallbackContext, connected: bool, responses: seq<StreamingRecognizeResponse>,
                    sessionLifetime: nat, status: Status)
    returns (events: seq<Event>, writesDoneCalls: nat, gotEndOfUtterance: bool)
    ensures events == ThreadEvents(cb, connected, responses, sessionLifetime, status)
    ensures writesDoneCalls ==
              (if cb.wantsSingleUtterance != 0 then EndOfUtteranceCount(Handled(connected, responses, sessionLifetime)) else 0)
    ensures gotEndOfUtterance <==> EndOfUtteranceCount(Handled(connected, responses, sessionLifetime)) > 0
  {
    events, writesDoneCalls, gotEndOfUtterance := [], 0, false;
    if !connected {
      return;
    }
    var n := 0;
    while n < |responses|
      invariant 0 <= n <= |responses| && n <= sessionLifetime
      invariant events == EventsOf(cb, responses[..n])
      invariant writesDoneCalls == (if cb.wantsSingleUtterance != 0 then EndOfUtteranceCount(responses[..n]) else 0)
      invariant gotEndOfUtterance <==> EndOfUtteranceCount(responses[..n]) > 0
    {
      if n == sessionLifetime {
        // the call leg is gone: stop without reading the final status
        return;
      }
      var responseEvents, endOfUtterance, callsWritesDone := HandleResponse(cb, responses[n]);
      events := events + responseEvents;
      if endOfUtterance {
        gotEndOfUtterance := true;
      }
      if callsWritesDone {
        writesDoneCalls := writesDoneCalls + 1;
      }
      assert responses[..n + 1][..n] == responses[..n];
      n := n + 1;
    }
    assert responses[..n] == responses;
    if sessionLifetime > |responses| {
      events := events + ClosureEvents(status);
    }
  }

  // ----- properties of the whole stream -----

  lemma {:induction false} EventsOfNotTerminal(cb: CallbackContext, responses: seq<StreamingRecognizeResponse>)
    ensures forall i :: 0 <= i < |EventsOf(cb, responses)| ==> !EventsOf(cb, responses)[i].IsTerminal()
    decreases |responses|
  {
    if responses != [] {
      var last := responses[|responses| - 1];
      EventsOfNotTerminal(cb, responses[..|responses| - 1]);
      ResponseNotTerminal(cb, last);
    }
  }

  /**
   * At most one closure event is sent, always last, and exactly when the
   * stream connected, the call leg outlived it and the status is non-zero.
   */
  lemma ClosureIsLast(cb: CallbackContext, connected: bool, responses: seq<StreamingRecognizeResponse>,
                      sessionLifetime: nat, status: Status)
    ensures var e := ThreadEvents(cb, connected, responses, sessionLifetime, status);
            && (forall i :: 0 <= i < |e| - 1 ==> !e[i].IsTerminal())
            && ((|e| > 0 && e[|e| - 1].IsTerminal()) <==>
                  ReportsClosure(connected, responses, sessionLifetime) && status.code != 0)
  {
    EventsOfNotTerminal(cb, Handled(connected, responses, sessionLifetime));
  }

  /** The structured results among a run of events, in order. */
  function ResultsOf(events: seq<Event>): seq<ResultRecord>
    decreases |events|
  {
    if events == [] then []
    else ResultsOf(events[..|events| - 1])
         + (if events[|events| - 1].Result? then [events[|events| - 1].record] else [])
  }

  lemma {:induction false} ResultsOfAppend(a: seq<Event>, b: seq<Event>)
    ensures ResultsOf(a + b) == ResultsOf(a) + ResultsOf(b)
    decreases |b|
  {
    if b != [] {
      var b' := b[..|b| - 1];
      assert (a + b)[..|a + b| - 1] == a + b';
      ResultsOfAppend(a, b');
    } else {
      assert a + b == a;
    }
  }

  /** Every result of a run of responses, in order. */
  function AllResults(responses: seq<StreamingRecognizeResponse>): seq<StreamingRecognitionResult>
    decreases |responses|
  {
    if responses == [] then []
    else AllResults(responses[..|responses| - 1]) + responses[|responses| - 1].results
  }

  function TranslateAll(results: seq<StreamingRecognitionResult>): seq<ResultRecord> {
    seq(|results|, k requires 0 <= k < |results| => TranslateResult(results[k]))
  }

  lemma {:induction false} ResultsOfResultEvents(results: seq<StreamingRecognitionResult>)
    ensures ResultsOf(ResultEvents(results)) == TranslateAll(results)
    decreases |results|
  {
    if results != [] {
      var init := results[..|results| - 1];
      ResultsOfResultEvents(init);
      assert ResultEvents(results)[..|results| - 1] == ResultEvents(init);
      assert TranslateAll(results) == TranslateAll(init) + [TranslateResult(results[|results| - 1])];
    }
  }

  /**
   * The result events of a run of responses are the translations of all
   * their results, in the order the service sent them: none is lost,
   * repeated or reordered.
   */
  lemma {:induction false} ResultsInOrder(cb: CallbackContext, responses: seq<StreamingRecognizeResponse>)
    ensures ResultsOf(EventsOf(cb, responses)) == TranslateAll(AllResults(responses))
    decreases |responses|
  {
    if responses != [] {
      var init, last := responses[..|responses| - 1], responses[|responses| - 1];
      ResultsInOrder(cb, init);
      ResponseResults(cb, last);
      ResultsOfAppend(EventsOf(cb, init), ResponseEvents(cb, last));
      TranslateAllAppend(AllResults(init), last.results);
    }
  }

  lemma TranslateAllAppend(a: seq<StreamingRecognitionResult>, b: seq<StreamingRecognitionResult>)
    ensures TranslateAll(a + b) == TranslateAll(a) + TranslateAll(b)
  {
  }

  /** The results among one response's events are the translations of its results. */
  lemma ResponseResults(cb: CallbackContext, response: StreamingRecognizeResponse)
    ensures ResultsOf(ResponseEvents(cb, response)) == TranslateAll(response.results)
  {
    var play: seq<Event> := if cb.playFile == 1 then [PlayInterrupt] else [];
    var eou: seq<Event> := if response.speechEventType == EndOfSingleUtterance then [EndOfUtterance] else [];
    ResultsAmongMarkers(play, response.results, eou);
  }

  lemma ResultsAmongMarkers(before: seq<Event>, results: seq<StreamingRecognitionResult>, after: seq<Event>)
    requires forall k :: 0 <= k < |before| ==> !before[k].Result?
    requires forall k :: 0 <= k < |after| ==> !after[k].Result?
    ensures ResultsOf(before + ResultEvents(results) + after) == TranslateAll(results)
  {
    var rs := ResultEvents(results);
    ResultsOfAppend(before + rs, after);
    ResultsOfAppend(before, rs);
    ResultsOfResultEvents(results);
    NoResults(before);
    NoResults(after);
  }

  lemma {:induction false} NoResults(events: seq<Event>)
    requires forall k :: 0 <= k < |events| ==> !events[k].Result?
    ensures ResultsOf(events) == []
    decreases |events|
  {
    if events != [] {
      NoResults(events[..|events| - 1]);
    }
  }

  /**
   * One `end_of_utterance` is sent per response carrying that event, and one
   * `play_interrupt` per response when play_file is 1.
   */
  lemma {:induction false} MarkerCounts(cb: CallbackContext, responses: seq<StreamingRecognizeResponse>)
    ensures multiset(EventsOf(cb, responses))[EndOfUtterance] == EndOfUtteranceCount(responses)
    ensures multiset(EventsOf(cb, responses))[PlayInterrupt] == if cb.playFile == 1 then |responses| else 0
    decreases |responses|
  {
    if responses != [] {
      var init, last := responses[..|responses| - 1], responses[|responses| - 1];
      MarkerCounts(cb, init);
      ResponseMarkerCounts(cb, last);
      assert multiset(EventsOf(cb, responses)) == multiset(EventsOf(cb, init)) + multiset(ResponseEvents(cb, last));
    }
  }

  lemma ResponseMarkerCounts(cb: CallbackContext, response: StreamingRecognizeResponse)
    ensures multiset(ResponseEvents(cb, response))[EndOfUtterance] ==
              if response.speechEventType == EndOfSingleUtterance then 1 else 0
    ensures multiset(ResponseEvents(cb, response))[PlayInterrupt] == if cb.playFile == 1 then 1 else 0
  {
    var play: seq<Event> := if cb.playFile == 1 then [PlayInterrupt] else [];
    var rs := ResultEvents(response.results);
    var eou: seq<Event> := if response.speechEventType == EndOfSingleUtterance then [EndOfUtterance] else [];
    assert ResponseEvents(cb, response) == play + rs + eou;
    assert multiset(play + rs + eou) == multiset(play) + multiset(rs) + multiset(eou);
    assert EndOfUtterance !in rs && PlayInterrupt !in rs;
    assert multiset(rs)[EndOfUtterance] == 0 && multiset(rs)[PlayInterrupt] == 0;
  }

  /**
   * In single-utterance mode `writesDone` is called once per
   * `end_of_utterance` callback; otherwise never.
   */
  lemma WritesDoneFollowsEndOfUtterance(cb: CallbackContext, connected: bool, responses: seq<StreamingRecognizeResponse>,
                                        sessionLifetime: nat, status: Status, writesDoneCalls: nat)
    requires writesDoneCalls ==
               (if cb.wantsSingleUtterance != 0 then EndOfUtteranceCount(Handled(connected, responses, sessionLifetime)) else 0)
    ensures cb.wantsSingleUtterance != 0 ==>
              writesDoneCalls == multiset(ThreadEvents(cb, connected, responses, sessionLifetime, status))[EndOfUtterance]
    ensures cb.wantsSingleUtterance == 0 ==> writesDoneCalls == 0
  {
    var handled := Handled(connected, responses, sessionLifetime);
    MarkerCounts(cb, handled);
    if ReportsClosure(connected, responses, sessionLifetime) {
      var c := ClosureEvents(status);
      assert EndOfUtterance !in multiset(c) by {
        forall k | 0 <= k < |c| ensures c[k].IsTerminal() { }
      }
    }
  }

  /**
   * Single-utterance scenario: a response with one result, then a response
   * with the end-of-utterance event, then a clean close: the host sees the
   * result and then `end_of_utterance`, and `writesDone` is called once.
   */
  lemma SingleUtteranceScenario(result: StreamingRecognitionResult)
    ensures var cb := CallbackContext(0, 1);
            var responses := [StreamingRecognizeResponse([result], SpeechEventTypeUnspecified),
                              StreamingRecognizeResponse([], EndOfSingleUtterance)];
            && ThreadEvents(cb, true, responses, 3, Status(0, "")) == [Result(TranslateResult(result)), EndOfUtterance]
            && EndOfUtteranceCount(Handled(true, responses, 3)) == 1
  {
    var cb := CallbackContext(0, 1);
    var r1 := StreamingRecognizeResponse([result], SpeechEventTypeUnspecified);
    var r2 := StreamingRecognizeResponse([], EndOfSingleUtterance);
    var responses := [r1, r2];
    assert Handled(true, responses, 3) == responses;
    assert responses[..1] == [r1] && [r1][..0] == [];
    assert ResultEvents([result]) == [Result(TranslateResult(result))];
    assert ResultEvents([]) == [];
    assert EventsOf(cb, [r1]) == [Result(TranslateResult(result))];
    assert EventsOf(cb, responses) == EventsOf(cb, [r1]) + ResponseEvents(cb, r2);
    assert EndOfUtteranceCount([r1]) == 0;
    assert EndOfUtteranceCount(responses) == EndOfUtteranceCount([r1]) + 1;
  }
}
