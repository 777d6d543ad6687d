/** The byte loops behind the file steps of the two-party protocol. */
module SessionStreams {
  import opened Prelude
  import opened FileStream
  import opened Session

  // ----- sending -----

  /** The stream after some sending steps. */
  function Sent(hash: Hash, u: Stream, size: nat, steps: seq<FileStep>): Stream
    requires forall k :: 0 <= k < |steps| ==> steps[k].SendChunk? || steps[k].SendDigest?
    decreases |steps|
  {
    if steps == [] then u else Sent(hash, NextStream(hash, u, size, true, steps[0]), size, steps[1..])
  }

  /** Each of the steps is allowed when it is taken. */
  predicate Sendable(hash: Hash, u: Stream, size: nat, steps: seq<FileStep>)
    decreases |steps|
  {
    steps == []
    || (!u.ended
        && (steps[0].SendChunk? || steps[0].SendDigest?)
        && (if steps[0].SendChunk? then |u.sent| + |steps[0].chunk| <= size else |u.sent| == size)
        && Sendable(hash, NextStream(hash, u, size, true, steps[0]), size, steps[1..]))
  }

  lemma SendableSends(hash: Hash, u: Stream, size: nat, steps: seq<FileStep>)
    requires Sendable(hash, u, size, steps)
    ensures forall k :: 0 <= k < |steps| ==> steps[k].SendChunk? || steps[k].SendDigest?
    decreases |steps|
  {
    if steps != [] {
      SendableSends(hash, NextStream(hash, u, size, true, steps[0]), size, steps[1..]);
      assert forall k :: 0 < k < |steps| ==> steps[k] == steps[1..][k - 1];
    }
  }

  /** The steps that put this much of the file, and its digest if it is finished, on the stream. */
  function StepsFor(data: seq<byte>, finished: bool): seq<FileStep> {
    if finished then [SendChunk(data), SendDigest] else [SendChunk(data)]
  }

  /** A finished stream, or the beginning of the file, comes about by sending steps. */
  lemma StreamIsSent(hash: Hash, u: Stream, size: nat, data: seq<byte>, finished: bool)
    requires u.sent == [] && !u.ended && |data| <= size && (finished ==> |data| == size)
    ensures Sendable(hash, u, size, StepsFor(data, finished))
    ensures var sent := if finished then Encode(hash, data) else data;
            Sent(hash, u, size, StepsFor(data, finished)) == u.(sent := sent, ended := finished)
  {
    var steps := StepsFor(data, finished);
    assert [] + data == data;
    if finished {
      var v := NextStream(hash, u, size, true, steps[0]);
      assert steps[1..] == [SendDigest] && steps[1..][1..] == [];
      assert Sent(hash, v, size, [SendDigest]) == NextStream(hash, v, size, true, SendDigest);
    } else {
      assert steps[1..] == [];
    }
  }

  /** A send task leaves on its stream what some allowed sending steps leave there, a digest cut short
      aside; if it is done it has sent a whole file. */
  method SendTask(hash: Hash, source: Source, u: Stream, size: nat, chunkSize: nat, healthy: bool)
    returns (outcome: Outcome, steps: seq<FileStep>, left: Stream)
    requires chunkSize > 0 && u.sent == [] && !u.ended
    modifies source`pos
    ensures Sendable(hash, u, size, steps)
    ensures forall k :: 0 <= k < |steps| ==> steps[k].SendChunk? || steps[k].SendDigest?
    ensures left == Sent(hash, u, size, steps)
    ensures outcome.Done? ==>
      left.ended && size <= |source.content| && left.sent == Encode(hash, source.content[..size])
    ensures healthy ==> (outcome.Done? <==> size <= |source.content| && source.intact)
  {
    var wire := new Outgoing();
    var reports: seq<nat>;
    outcome, reports := SendFile(hash, source, size, chunkSize, wire, healthy);
    var data := if |wire.sent| <= size then wire.sent else wire.sent[..size];
    if wire.finished {
      assert wire.sent[..size] == source.content[..size];
      data := wire.sent[..size];
    }
    StreamIsSent(hash, u, size, data, wire.finished);
    steps := StepsFor(data, wire.finished);
    SendableSends(hash, u, size, steps);
    left := Sent(hash, u, size, steps);
  }

  // ----- receiving -----

  /** The system once file `i` has been received up to its end. */
  function AtEnd(y: System, i: nat): System
    requires i < |y.streams| && i < |y.sizes|
  {
    y.(streams := y.streams[i := y.streams[i].(offset := y.sizes[i])])
  }

  /** A receive task that works through a taken stream is done exactly when the protocol may finalize
      the file, unless it is interrupted, and then it staged what the protocol finalizes: the file that
      the sender encoded. */
  method ReceiveTask(hash: Hash, y: System, i: nat, chunkSize: nat, healthy: bool)
    returns (outcome: Outcome, staged: seq<byte>)
    requires i < |y.streams| && i < |y.sizes| && i < |y.sender.tasks| && chunkSize > 0
    requires y.streams[i].stage.Taken?
    ensures outcome.Done? ==>
      && FileCan(hash, AtEnd(y, i), i, Finalize)
      && NextStream(hash, y.streams[i], y.sizes[i], true, Finalize).finalized == Some(staged)
      && y.streams[i].sent == Encode(hash, staged)
    ensures healthy ==> (outcome.Done? <==> FileCan(hash, AtEnd(y, i), i, Finalize))
  {
    var u, size := y.streams[i], y.sizes[i];
    var incoming := new Incoming(u.sent, u.ended);
    var reports: seq<nat>;
    outcome, staged, reports := ReceiveFile(hash, incoming, size, chunkSize, healthy);
    CompleteIsEncoding(hash, u.sent, u.ended, size);
  }
}
