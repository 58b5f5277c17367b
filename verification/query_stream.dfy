/** Collecting a controller-side query stream into one result: open, wait for the metrics, read every chunk, close. */
module QueryStream {
  import opened Wrappers
  import opened Base64

  datatype Metrics = Metrics(rowCount: nat, chunkCount: nat, totalBytes: nat)

  datatype Collected = Collected(chunks: seq<seq<byte>>, rowCount: nat, chunkCount: nat, totalBytes: nat)

  datatype Call = Open | Wait(stream: nat) | Read(stream: nat, index: nat) | Close(stream: nat)

  /** What the controller answers. Any call may fail, each read in its own way. */
  datatype Answers<E> = Answers(open: Result<nat, E>, metrics: Result<Metrics, E>, read: nat -> Result<seq<byte>, E>, close: Option<E>)

  /** The controller client, reduced to its answers and the calls made so far. */
  class StreamClient<E> {
    const answers: Answers<E>
    var calls: seq<Call>

    constructor (answers: Answers<E>)
      ensures this.answers == answers && calls == []
    {
      this.answers := answers;
      calls := [];
    }

    method OpenStream() returns (r: Result<nat, E>)
      modifies this
      ensures calls == old(calls) + [Open] && r == answers.open
    {
      calls := calls + [Open];
      r := answers.open;
    }

    method WaitMetrics(stream: nat) returns (r: Result<Metrics, E>)
      modifies this
      ensures calls == old(calls) + [Wait(stream)] && r == answers.metrics
    {
      calls := calls + [Wait(stream)];
      r := answers.metrics;
    }

    method ReadChunk(stream: nat, index: nat) returns (r: Result<seq<byte>, E>)
      modifies this
      ensures calls == old(calls) + [Read(stream, index)] && r == answers.read(index)
    {
      calls := calls + [Read(stream, index)];
      r := answers.read(index);
    }

    method CloseStream(stream: nat) returns (failure: Option<E>)
      modifies this
      ensures calls == old(calls) + [Close(stream)] && failure == answers.close
    {
      calls := calls + [Close(stream)];
      failure := answers.close;
    }

    /** Everything between open and close. */
    method ReadAll(stream: nat) returns (r: Result<Collected, E>)
      modifies this
      ensures calls == old(calls) + Asked(answers, stream)
      ensures r == Outcome(answers)
    {
      var metrics := WaitMetrics(stream);
      if metrics.Err? {
        return Err(metrics.error);
      }
      var m := metrics.value;
      var chunks: seq<seq<byte>> := [];
      var index := 0;
      while index < m.chunkCount
        invariant 0 <= index <= m.chunkCount
        invariant calls == old(calls) + ([Wait(stream)] + Reads(stream, index))
        invariant |chunks| == index && forall i: nat :: i < index ==> answers.read(i) == Ok(chunks[i])
      {
        var chunk := ReadChunk(stream, index);
        if chunk.Err? {
          FirstBadIs(answers.read, m.chunkCount, index);
          return Err(chunk.error);
        }
        chunks := chunks + [chunk.value];
        index := index + 1;
      }
      FirstBadIs(answers.read, m.chunkCount, m.chunkCount);
      assert chunks == Prefix(answers.read, m.chunkCount);
      return Ok(Collected(chunks, m.rowCount, m.chunkCount, m.totalBytes));
    }

    /** Collects one stream. Whatever happens after a successful open, the stream is closed, and a failed close is
        ignored. */
    method Collect() returns (r: Result<Collected, E>)
      modifies this
      ensures calls == old(calls) + Trace(answers)
      ensures r == if answers.open.Err? then Err(answers.open.error) else Outcome(answers)
    {
      hide Outcome, Asked;
      var stream := OpenStream();
      if stream.Err? {
        return Err(stream.error);
      }
      r := ReadAll(stream.value);
      var _ := CloseStream(stream.value);
    }

    /** The JSON form of the same result, with every chunk in base64. */
    method CollectJson() returns (r: Result<JsonResponse, E>)
      modifies this
      ensures calls == old(calls) + Trace(answers)
      ensures r.Ok? <==> answers.open.Ok? && Outcome(answers).Ok?
      ensures r.Err? ==> r.error == if answers.open.Err? then answers.open.error else Outcome(answers).error
      ensures r.Ok? ==>
                && r.value.chunkCount == |r.value.chunksBase64| == answers.metrics.value.chunkCount
                && r.value.rowCount == answers.metrics.value.rowCount && r.value.totalBytes == answers.metrics.value.totalBytes
                && forall i: nat :: i < r.value.chunkCount ==> AsText(r.value.chunksBase64[i]) == EncodedAnswer(answers.read(i))
                                                                && Decode(r.value.chunksBase64[i]) == DecodedAnswer(answers.read(i))
    {
      var collected := Collect();
      if collected.Err? {
        return Err(collected.error);
      }
      var result := collected.value;
      var texts := EncodeChunks(result.chunks);
      SuccessExactly(answers);
      EncodedListDecodes(result.chunks);
      return Ok(JsonResponse(texts, result.rowCount, result.chunkCount, result.totalBytes));
    }
  }

  // ----- what is asked

  function Reads(stream: nat, count: nat): (calls: seq<Call>)
    ensures |calls| == count && forall i :: 0 <= i < count ==> calls[i] == Read(stream, i)
  {
    if count == 0 then [] else Reads(stream, count - 1) + [Read(stream, count - 1)]
  }

  /** The first index, counting from a given one, whose read fails; the count if there is none. */
  function FirstBad<E>(read: nat -> Result<seq<byte>, E>, count: nat, from: nat := 0): (k: nat)
    requires from <= count
    ensures from <= k <= count && (k < count ==> read(k).Err?)
    ensures forall i: nat :: from <= i < k ==> read(i).Ok?
    decreases count - from
  {
    if from == count || read(from).Err? then from else FirstBad(read, count, from + 1)
  }

  lemma FirstBadIs<E>(read: nat -> Result<seq<byte>, E>, count: nat, k: nat)
    requires k <= count && (k < count ==> read(k).Err?)
    requires forall i: nat :: i < k ==> read(i).Ok?
    ensures FirstBad(read, count) == k
  {
    var _ := FirstBad(read, count);
  }

  /** How many chunks are asked for: up to and including the first that fails. */
  function Attempts<E>(answers: Answers<E>): nat {
    if answers.metrics.Err? then 0
    else
      var count := answers.metrics.value.chunkCount;
      var k := FirstBad(answers.read, count);
      if k < count then k + 1 else count
  }

  function Asked<E>(answers: Answers<E>, stream: nat): seq<Call> {
    [Wait(stream)] + Reads(stream, Attempts(answers))
  }

  function Trace<E>(answers: Answers<E>): seq<Call> {
    match answers.open
    case Err(_) => [Open]
    case Ok(stream) => [Open] + Asked(answers, stream) + [Close(stream)]
  }

  // ----- what is answered

  function Prefix<E>(read: nat -> Result<seq<byte>, E>, count: nat): (chunks: seq<seq<byte>>)
    requires forall i: nat :: i < count ==> read(i).Ok?
    ensures |chunks| == count && forall i: nat :: i < count ==> read(i) == Ok(chunks[i])
  {
    if count == 0 then [] else Prefix(read, count - 1) + [read(count - 1).value]
  }

  /** The result after a successful open. */
  function Outcome<E>(answers: Answers<E>): Result<Collected, E> {
    if answers.metrics.Err? then Err(answers.metrics.error)
    else
      var m := answers.metrics.value;
      var k := FirstBad(answers.read, m.chunkCount);
      if k < m.chunkCount then Err(answers.read(k).error)
      else Ok(Collected(Prefix(answers.read, m.chunkCount), m.rowCount, m.chunkCount, m.totalBytes))
  }

  // ----- what is promised

  /** A stream that was opened is closed exactly once, and nothing is asked of it afterwards; one that was not opened is
      not closed. */
  lemma ClosedOnceAndLast<E>(answers: Answers<E>)
    ensures answers.open.Err? ==> Trace(answers) == [Open]
    ensures answers.open.Ok? ==>
              var calls := Trace(answers);
              && calls[|calls| - 1] == Close(answers.open.value)
              && forall i :: 0 <= i < |calls| - 1 ==> !calls[i].Close?
  {
    if answers.open.Ok? {
      var stream := answers.open.value;
      var asked, calls := Reads(stream, Attempts(answers)), Trace(answers);
      forall i | 0 <= i < |calls| - 1
        ensures !calls[i].Close?
      {
        assert i >= 2 ==> calls[i] == asked[i - 2];
      }
    }
  }

  /** Chunks are asked for in order, each at most once, and none after one that failed. */
  lemma AskedInOrder<E>(answers: Answers<E>, i: nat)
    requires answers.open.Ok? && i + 1 < |Trace(answers)| - 1
    ensures Trace(answers)[i + 1] == if i == 0 then Wait(answers.open.value) else Read(answers.open.value, i - 1)
    ensures i >= 2 ==> answers.metrics.Ok? && answers.read(i - 2).Ok?
  {
    var asked := Reads(answers.open.value, Attempts(answers));
    assert i >= 1 ==> Trace(answers)[i + 1] == asked[i - 1];
    if i >= 2 {
      assert i - 1 < Attempts(answers);
    }
  }

  /** The collection succeeds exactly when the metrics and every announced chunk do. Its chunks are then the
      controller's, in order; otherwise the error is that of the first call that failed. */
  lemma SuccessExactly<E>(answers: Answers<E>)
    ensures Outcome(answers).Ok? <==>
              answers.metrics.Ok? && forall i: nat :: i < answers.metrics.value.chunkCount ==> answers.read(i).Ok?
    ensures Outcome(answers).Ok? ==>
              var r, m := Outcome(answers).value, answers.metrics.value;
              && |r.chunks| == r.chunkCount == m.chunkCount && r.rowCount == m.rowCount && r.totalBytes == m.totalBytes
              && forall i: nat :: i < m.chunkCount ==> answers.read(i) == Ok(r.chunks[i])
    ensures Outcome(answers).Err? ==>
              || (answers.metrics.Err? && Outcome(answers).error == answers.metrics.error)
              || (answers.metrics.Ok?
                  && exists i: nat :: i < answers.metrics.value.chunkCount
                                      && answers.read(i).Err? && Outcome(answers).error == answers.read(i).error
                                      && forall j: nat :: j < i ==> answers.read(j).Ok?)
  {
    if answers.metrics.Ok? {
      var k := FirstBad(answers.read, answers.metrics.value.chunkCount);
      if k < answers.metrics.value.chunkCount {
        assert answers.read(k).Err?;
      }
    }
  }

  // ----- the base64 list

  datatype JsonResponse = JsonResponse(chunksBase64: seq<seq<byte>>, rowCount: nat, chunkCount: nat, totalBytes: nat)

  function EncodedList(chunks: seq<seq<byte>>): seq<seq<byte>> {
    if chunks == [] then [] else EncodedList(chunks[..|chunks| - 1]) + [Encode(chunks[|chunks| - 1])]
  }

  method EncodeChunks(chunks: seq<seq<byte>>) returns (texts: seq<seq<byte>>)
    ensures texts == EncodedList(chunks)
  {
    texts := [];
    var i := 0;
    while i < |chunks|
      invariant 0 <= i <= |chunks| && texts == EncodedList(chunks[..i])
    {
      var text := EncodeBase64(chunks[i]);
      assert chunks[..i + 1][..i] == chunks[..i];
      texts := texts + [text];
      i := i + 1;
    }
    assert chunks[..i] == chunks;
  }

  /** The list holds the RFC 4648 text of each chunk, and decoding it item by item gives the chunks back. */
  lemma {:induction false} EncodedListDecodes(chunks: seq<seq<byte>>)
    ensures |EncodedList(chunks)| == |chunks|
    ensures forall i :: 0 <= i < |chunks| ==> Decode(EncodedList(chunks)[i]) == Ok(chunks[i])
    ensures forall i :: 0 <= i < |chunks| ==> AsText(EncodedList(chunks)[i]) == RfcEncode(chunks[i])
  {
    hide Encode, Decode, RfcEncode, AsChar;
    if chunks != [] {
      EncodeIsRfc(chunks[|chunks| - 1]);
      EncodedListDecodes(chunks[..|chunks| - 1]);
      DecodeEncode(chunks[|chunks| - 1]);
    }
  }

  /** What a decoded text must be to give back what the controller answered. */
  function DecodedAnswer<E>(answer: Result<seq<byte>, E>): Decoded
    requires answer.Ok?
  {
    Ok(answer.value)
  }

  function EncodedAnswer<E>(answer: Result<seq<byte>, E>): string
    requires answer.Ok?
  {
    RfcEncode(answer.value)
  }
}
