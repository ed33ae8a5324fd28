/** The reader thread of a local terminal, and the pump fed by it. */
module LocalPty {
  import opened Common
  import opened Osc133
  import OutputPump

  const READ_CHUNK := 64 * 1024

  /** Outcome of one read into the shared buffer: `Ok(0)` is an empty `Got`. */
  datatype ReadResult = Got(data: seq<byte>) | Failed

  /** A read never returns more than the buffer it was given. */
  ghost predicate Readable(results: seq<ReadResult>) {
    forall i :: 0 <= i < |results| && results[i].Got? ==> |results[i].data| <= READ_CHUNK
  }

  /** The reads before end of file or the first error. */
  function Live(results: seq<ReadResult>): seq<seq<byte>> {
    if results == [] || results[0].Failed? || results[0].data == [] then []
    else [results[0].data] + Live(results[1..])
  }

  /** The messages that reach the channel before its receiver goes away after `accepted` sends. */
  function Sent(results: seq<ReadResult>, accepted: nat): seq<seq<byte>> {
    var live := Live(results);
    if |live| <= accepted then live else live[..accepted]
  }

  lemma {:induction false} LiveAt(results: seq<ReadResult>, i: nat)
    requires i <= |results|
    requires forall j :: 0 <= j < i ==> results[j].Got? && results[j].data != []
    ensures Live(results) == seq(i, j requires 0 <= j < i => results[j].data) + Live(results[i..])
  {
    if i == 0 {
      assert results[0..] == results;
    } else {
      LiveAt(results[1..], i - 1);
      assert results[1..][i - 1..] == results[i..];
    }
  }

  /** The reader loop: copies of the filled part of one reused buffer. */
  method ReadLoop(results: seq<ReadResult>, accepted: nat) returns (messages: seq<seq<byte>>)
    requires Readable(results)
    ensures messages == Sent(results, accepted)
    ensures forall i :: 0 <= i < |messages| ==> 0 < |messages[i]| <= OutputPump.MAX_CHUNK
  {
    var buffer := new byte[READ_CHUNK](_ => 0);
    messages := [];
    var i := 0;
    while i < |results|
      invariant i <= |results| && |messages| == i <= accepted
      invariant forall j :: 0 <= j < i ==> results[j].Got? && results[j].data != [] && messages[j] == results[j].data
    {
      if results[i].Failed? { break; }
      var count := |results[i].data|;
      if count == 0 { break; }
      for k := 0 to count
        invariant buffer[..k] == results[i].data[..k]
      {
        buffer[k] := results[i].data[k];
      }
      if |messages| == accepted { break; }
      messages := messages + [buffer[..count]];
      i := i + 1;
    }
    LiveAt(results, i);
    assert messages == seq(i, j requires 0 <= j < i => results[j].data);
  }

  /** The channel hands the reader's messages to the pump in order, with ticks in between. */
  function Messages(steps: seq<OutputPump.Step>): seq<seq<byte>> {
    if steps == [] then []
    else
      var s := steps[|steps| - 1];
      Messages(steps[..|steps| - 1]) + (if s.Message? then [s.data] else [])
  }

  lemma {:induction false} ReceivedFromMessages(steps: seq<OutputPump.Step>)
    ensures OutputPump.Received(steps) == Flatten(Messages(steps))
  {
    if steps != [] {
      var n := |steps| - 1;
      ReceivedFromMessages(steps[..n]);
      if steps[n].Message? {
        assert Messages(steps)[..|Messages(steps)| - 1] == Messages(steps[..n]);
      } else {
        assert Messages(steps) == Messages(steps[..n]);
      }
    }
  }

  lemma {:induction false} MessageIsListed(steps: seq<OutputPump.Step>, i: nat)
    requires i < |steps| && steps[i].Message?
    ensures steps[i].data in Messages(steps)
  {
    var n := |steps| - 1;
    if i < n {
      MessageIsListed(steps[..n], i);
    }
  }

  lemma LiveIsSmall(results: seq<ReadResult>)
    requires Readable(results)
    ensures forall m :: m in Live(results) ==> |m| <= READ_CHUNK
  {
    if results != [] && results[0].Got? {
      LiveIsSmall(results[1..]);
    }
  }

  /**
   From the shell's reads to the application bus: however reads, ticks and
   flushes interleave, a closed local session has emitted exactly the bytes
   read before end of file, in order and without a drop.
   */
  lemma LocalSessionIsLossless(results: seq<ReadResult>, steps: seq<OutputPump.Step>, interpret: Interpretation)
    requires Readable(results) && Messages(steps) == Live(results)
    ensures var log := OutputPump.Close(OutputPump.Run(steps, interpret)).log;
            && OutputPump.Bytes(log) == Flatten(Live(results))
            && OutputPump.Drops(OutputPump.Run(steps, interpret).log) == 0
            && OutputPump.Blocks(log) == OutputPump.Events(Marks(Fresh, Flatten(Live(results)), interpret))
  {
    LiveIsSmall(results);
    ReceivedFromMessages(steps);
    forall i | 0 <= i < |steps| && steps[i].Message?
      ensures |steps[i].data| <= OutputPump.MAX_CHUNK
    {
      MessageIsListed(steps, i);
    }
    OutputPump.CloseIsComplete(steps, interpret);
    OutputPump.SmallRunIsLossless(steps, interpret);
  }
}
