/**
 * The write path of a v2 streaming session (`GStreamer<...V2...>::write`).
 * Before the stream is connected, audio goes to the pre-connection buffer,
 * and only writes of a whole number of chunks are kept; once connected, each
 * write sends the session's request with the streaming config cleared and
 * the audio set. The buffer is kept abstract: the sequence of admitted
 * writes, in order.
 */
module Streaming {
  import opened Wrappers
  import opened SpeechMessages
  import opened SessionConfig

  /** The buffer after a pre-connection write: the data is appended only when it is a whole number of chunks. */
  function Admit(buffer: seq<seq<byte>>, data: seq<byte>, chunkSize: nat): seq<seq<byte>>
    requires chunkSize > 0
  {
    if |data| % chunkSize == 0 then buffer + [data] else buffer
  }

  /** The buffer after a run of pre-connection writes. */
  function AdmitAll(buffer: seq<seq<byte>>, writes: seq<seq<byte>>, chunkSize: nat): seq<seq<byte>>
    requires chunkSize > 0
    decreases |writes|
  {
    if writes == [] then buffer else AdmitAll(Admit(buffer, writes[0], chunkSize), writes[1..], chunkSize)
  }

  /** Reference definition: the writes whose length is a multiple of the chunk size, in their order. */
  function Aligned(writes: seq<seq<byte>>, chunkSize: nat): (r: seq<seq<byte>>)
    requires chunkSize > 0
    ensures forall k :: 0 <= k < |r| ==> |r[k]| % chunkSize == 0
    ensures |r| <= |writes|
  {
    if writes == [] then []
    else (if |writes[0]| % chunkSize == 0 then [writes[0]] else []) + Aligned(writes[1..], chunkSize)
  }

  /**
   * Nothing is lost or duplicated by the filter: each whole-chunk write occurs
   * in it as often as it was written, and no other write occurs in it at all.
   */
  lemma {:induction false} AlignedCounts(writes: seq<seq<byte>>, chunkSize: nat, w: seq<byte>)
    requires chunkSize > 0
    ensures multiset(Aligned(writes, chunkSize))[w] == if |w| % chunkSize == 0 then multiset(writes)[w] else 0
    decreases |writes|
  {
    if writes != [] {
      AlignedCounts(writes[1..], chunkSize, w);
      assert writes == [writes[0]] + writes[1..];
      assert multiset(writes) == multiset([writes[0]]) + multiset(writes[1..]);
    }
  }

  /**
   * A run of writes made before connecting leaves in the buffer exactly the
   * whole-chunk writes, in the order they were made, each once.
   */
  lemma {:induction false} AdmitAllKeepsAligned(buffer: seq<seq<byte>>, writes: seq<seq<byte>>, chunkSize: nat)
    requires chunkSize > 0
    ensures AdmitAll(buffer, writes, chunkSize) == buffer + Aligned(writes, chunkSize)
    decreases |writes|
  {
    if writes != [] {
      var w, rest := writes[0], writes[1..];
      var next := Admit(buffer, w, chunkSize);
      AdmitAllKeepsAligned(next, rest, chunkSize);
      var head := if |w| % chunkSize == 0 then [w] else [];
      assert next == buffer + head;
      assert Aligned(writes, chunkSize) == head + Aligned(rest, chunkSize);
      assert (buffer + head) + Aligned(rest, chunkSize) == buffer + (head + Aligned(rest, chunkSize));
    }
  }

  class Streamer {
    /** CHUNKSIZE: the byte size of one buffered audio chunk. */
    const chunkSize: nat
    /** m_connected: set by the connect path, outside this model. */
    var connected: bool
    /** m_audioBuffer, as the sequence of admitted writes. */
    var audioBuffer: seq<seq<byte>>
    /** m_request: the first request, then the last request sent. */
    var request: StreamingRecognizeRequest
    /** Every request handed to the transport, in order. */
    var written: seq<StreamingRecognizeRequest>

    /**
     * Only whole-chunk writes are ever buffered, and no request handed to the
     * transport by `Write` repeats the streaming config.
     */
    ghost predicate Valid()
      reads this
    {
      && chunkSize > 0
      && (forall k :: 0 <= k < |audioBuffer| ==> |audioBuffer[k]| % chunkSize == 0)
      && (forall k :: 0 <= k < |written| ==> written[k].streamingConfig.None?)
    }

    /** A session that is not yet connected, holding its first request. */
    constructor (request: StreamingRecognizeRequest, chunkSize: nat)
      requires chunkSize > 0
      ensures Valid()
      ensures this.chunkSize == chunkSize && this.request == request
      ensures !connected && audioBuffer == [] && written == []
    {
      this.chunkSize := chunkSize;
      this.request := request;
      connected := false;
      audioBuffer := [];
      written := [];
    }

    /**
     * `write(data, datalen)`; `transportAccepts` is what the stream's own
     * `Write` reports for the request.
     */
    method Write(data: seq<byte>, transportAccepts: bool) returns (ok: bool)
      requires Valid()
      modifies this
      ensures Valid()
      ensures connected == old(connected)
      ensures !old(connected) ==>
                && ok
                && audioBuffer == Admit(old(audioBuffer), data, chunkSize)
                && request == old(request)
                && written == old(written)
      ensures old(connected) ==>
                && ok == transportAccepts
                && audioBuffer == old(audioBuffer)
                && request == old(request).(streamingConfig := None, audio := data)
                && written == old(written) + [request]
    {
      if !connected {
        if |data| % chunkSize == 0 {
          audioBuffer := audioBuffer + [data];
        }
        return true;
      }
      request := request.(streamingConfig := None);
      request := request.(audio := data);
      written := written + [request];
      ok := transportAccepts;
    }
  }

  /**
   * Creating the session: the constructor's first request, or its error, and
   * a disconnected streamer with an empty buffer.
   */
  method Create(call: CallOptions, vars: ChannelVars, chunkSize: nat) returns (r: Result<Streamer, ConstructionError>)
    requires chunkSize > 0
    requires TimeoutRepresentable(vars.startTimeoutMs) && TimeoutRepresentable(vars.endTimeoutMs)
    ensures r.Failure? <==> vars.recognizerParent.None?
    ensures r.Success? ==>
              && fresh(r.value) && r.value.Valid()
              && RequestFor(call, vars, r.value.request)
              && !r.value.connected && r.value.audioBuffer == [] && r.value.written == []
  {
    var request := BuildRequest(call, vars);
    if request.Failure? {
      return Failure(request.error);
    }
    var streamer := new Streamer(request.value, chunkSize);
    r := Success(streamer);
  }
}
