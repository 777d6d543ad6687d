/**
 The byte loops of one file: chunked reads with an incremental hash on the sending side, chunked
 writes, digest check and end-of-stream check on the receiving side.

 Reads are as short as the operating system or the transport likes. Waiting, timeouts, progress
 reports and disk writes can fail at any moment, unless the transfer is `healthy`; those failures are
 `Interrupted`.
 */
module FileStream {
  import opened Prelude

  type byte = bv8

  const DIGEST_SIZE := 32

  type Digest = d: seq<byte> | |d| == DIGEST_SIZE witness seq(DIGEST_SIZE, _ => 0)

  type Hash = seq<byte> -> Digest

  /** An incremental hash is determined by the bytes it has absorbed. */
  datatype Hasher = Hasher(absorbed: seq<byte>) {
    function Update(chunk: seq<byte>): Hasher {
      Hasher(absorbed + chunk)
    }

    function Finish(hash: Hash): Digest {
      hash(absorbed)
    }
  }

  // ----- the format -----

  function Encode(hash: Hash, data: seq<byte>): seq<byte> {
    data + hash(data)
  }

  /** A whole stream: `size` bytes, their digest, and then a regular end. */
  predicate Complete(hash: Hash, bytes: seq<byte>, ended: bool, size: nat) {
    ended && |bytes| == size + DIGEST_SIZE && bytes[size..] == hash(bytes[..size])
  }

  /** The receiver accepts exactly the encodings of `size` bytes, and the bytes are determined. */
  lemma CompleteIsEncoding(hash: Hash, bytes: seq<byte>, ended: bool, size: nat)
    ensures Complete(hash, bytes, ended, size) <==>
            ended && exists data :: |data| == size && bytes == Encode(hash, data)
    ensures forall data :: |data| == size && bytes == Encode(hash, data) ==> size <= |bytes| && data == bytes[..size]
  {
    if Complete(hash, bytes, ended, size) {
      assert bytes == Encode(hash, bytes[..size]);
    }
    forall data | |data| == size && bytes == Encode(hash, data)
      ensures size <= |bytes| && data == bytes[..size]
      ensures bytes[size..] == hash(bytes[..size])
    {
    }
  }

  // ----- the ends of the loops -----

  /** An open source file: the bytes its handle delivers before end of file, and whether its size and
      modification time are still the prepared ones afterwards. */
  class Source {
    const content: seq<byte>
    const intact: bool
    var pos: nat

    constructor (content: seq<byte>, intact: bool)
      ensures this.content == content && this.intact == intact && pos == 0
    {
      this.content, this.intact, pos := content, intact, 0;
    }

    method Read(buffer: array<byte>, wanted: nat) returns (count: nat)
      requires 0 < wanted <= buffer.Length && pos <= |content|
      modifies this`pos, buffer
      ensures count <= wanted && pos == old(pos) + count <= |content|
      ensures count == 0 <==> old(pos) == |content|
      ensures buffer[..count] == content[old(pos)..pos]
    {
      if pos == |content| {
        return 0;
      }
      var available := Min(wanted, |content| - pos);
      count :| 1 <= count <= available;
      forall i | 0 <= i < count {
        buffer[i] := content[pos + i];
      }
      pos := pos + count;
    }
  }

  /** The sending half of a stream. */
  class Outgoing {
    var sent: seq<byte>
    var finished: bool

    constructor ()
      ensures sent == [] && !finished
    {
      sent, finished := [], false;
    }
  }

  datatype ReadResult = Got(count: nat) | End | Reset

  /** The receiving half of a stream: what will arrive, and whether it then ends or is reset. */
  class Incoming {
    const bytes: seq<byte>
    const ended: bool
    var pos: nat

    constructor (bytes: seq<byte>, ended: bool)
      ensures this.bytes == bytes && this.ended == ended && pos == 0
    {
      this.bytes, this.ended, pos := bytes, ended, 0;
    }

    method Read(buffer: array<byte>, wanted: nat) returns (r: ReadResult)
      requires 0 < wanted <= buffer.Length && pos <= |bytes|
      modifies this`pos, buffer
      ensures r.Got? ==>
        0 < r.count <= wanted && pos == old(pos) + r.count <= |bytes| && buffer[..r.count] == bytes[old(pos)..pos]
      ensures !r.Got? ==> pos == old(pos) == |bytes| && r == if ended then End else Reset
    {
      if pos == |bytes| {
        return if ended then End else Reset;
      }
      var available := Min(wanted, |bytes| - pos);
      var count :| 1 <= count <= available;
      forall i | 0 <= i < count {
        buffer[i] := bytes[pos + i];
      }
      pos := pos + count;
      r := Got(count);
    }

    /** Fills the buffer or fails. */
    method ReadExact(buffer: array<byte>) returns (ok: bool)
      requires pos <= |bytes|
      modifies this`pos, buffer
      ensures ok <==> old(pos) + buffer.Length <= |bytes|
      ensures pos <= |bytes|
      ensures ok ==> pos == old(pos) + buffer.Length && buffer[..] == bytes[old(pos)..pos]
    {
      if pos + buffer.Length > |bytes| {
        pos := |bytes|;
        return false;
      }
      forall i | 0 <= i < buffer.Length {
        buffer[i] := bytes[pos + i];
      }
      pos := pos + buffer.Length;
      ok := true;
    }
  }

  /** Anything around the loops that can fail on its own. */
  method Attempt(healthy: bool) returns (ok: bool)
    ensures healthy ==> ok
  {
    var fault := *;
    ok := healthy || !fault;
  }

  datatype Outcome = Done | Rejected(error: Error) | Interrupted

  predicate Increasing(reports: seq<nat>) {
    forall i, j :: 0 <= i < j < |reports| ==> reports[i] < reports[j]
  }

  /** Progress reports grow strictly, never pass the file, and stop at the current offset. */
  predicate Reported(reports: seq<nat>, offset: nat) {
    && Increasing(reports)
    && (forall i :: 0 <= i < |reports| ==> 0 < reports[i] <= offset)
    && (if reports == [] then offset == 0 else reports[|reports| - 1] == offset)
  }

  // ----- sending -----

  /** Sends the first `size` bytes of the source and their digest. The stream only ever carries a
      prefix of the encoding, and it is finished only when it carries all of it. */
  method SendFile(hash: Hash, source: Source, size: nat, chunkSize: nat, wire: Outgoing, healthy: bool)
    returns (outcome: Outcome, reports: seq<nat>)
    requires chunkSize > 0 && wire.sent == [] && !wire.finished
    modifies source`pos, wire
    ensures |source.content| >= size ==> wire.sent <= Encode(hash, source.content[..size])
    ensures |source.content| < size ==> wire.sent <= source.content && !wire.finished
    ensures wire.finished ==> source.intact && wire.sent == Encode(hash, source.content[..size])
    ensures outcome.Done? ==> wire.finished && Reported(reports, size)
    ensures outcome.Rejected? ==> outcome.error == Integrity && (|source.content| < size || !source.intact)
    ensures healthy ==> !outcome.Interrupted?
    ensures Increasing(reports) && forall i :: 0 <= i < |reports| ==> reports[i] <= Min(size, |source.content|)
  {
    source.pos := 0;
    var offset := 0;
    var sha := Hasher([]);
    var buffer := new byte[chunkSize];
    reports := [];
    while offset < size
      invariant offset <= size && offset == source.pos <= |source.content|
      invariant sha.absorbed == wire.sent == source.content[..offset] && !wire.finished
      invariant Reported(reports, offset)
      decreases size - offset
    {
      var ready := Attempt(healthy);
      if !ready {
        return Interrupted, reports;
      }
      var wanted := Min(size - offset, buffer.Length);
      var count := source.Read(buffer, wanted);
      if count == 0 {
        return Rejected(Integrity), reports;
      }
      sha := sha.Update(buffer[..count]);
      var written := Attempt(healthy);
      if !written {
        return Interrupted, reports;
      }
      wire.sent := wire.sent + buffer[..count];
      offset := offset + count;
      var recorded := Attempt(healthy);
      if !recorded {
        return Interrupted, reports;
      }
      reports := reports + [offset];
    }
    if !source.intact {
      return Rejected(Integrity), reports;
    }
    var digest := sha.Finish(hash);
    var written := Attempt(healthy);
    if !written {
      return Interrupted, reports;
    }
    wire.sent := wire.sent + digest;
    wire.finished := true;
    outcome := Done;
  }

  // ----- receiving -----

  /** Reads the digest and the end of the stream, after the file itself was absorbed. */
  method ReceiveEnd(hash: Hash, incoming: Incoming, sha: Hasher) returns (outcome: Outcome)
    requires incoming.pos <= |incoming.bytes| && sha.absorbed == incoming.bytes[..incoming.pos]
    modifies incoming`pos
    ensures outcome.Done? <==> Complete(hash, incoming.bytes, incoming.ended, old(incoming.pos))
    ensures !outcome.Interrupted?
  {
    var expectedDigest := new byte[DIGEST_SIZE];
    var full := incoming.ReadExact(expectedDigest);
    if !full {
      return Rejected(Network);
    }
    var digest := sha.Finish(hash);
    if digest != expectedDigest[..] {
      return Rejected(Integrity);
    }
    var one := new byte[1];
    var trailing := incoming.Read(one, 1);
    match trailing {
      case Reset => return Rejected(Network);
      case Got(_) => return Rejected(Integrity);
      case End => outcome := Done;
    }
  }

  /** Stages the file and checks it. Unless it is interrupted, it is done if and only if the stream
      is complete, and then it has staged exactly the file's bytes; whatever it stages is at every
      moment a prefix of the stream. */
  method ReceiveFile(hash: Hash, incoming: Incoming, size: nat, chunkSize: nat, healthy: bool)
    returns (outcome: Outcome, staged: seq<byte>, reports: seq<nat>)
    requires chunkSize > 0 && incoming.pos == 0
    modifies incoming`pos
    ensures outcome.Done? ==>
      && Complete(hash, incoming.bytes, incoming.ended, size)
      && staged == incoming.bytes[..size] && Reported(reports, size)
    ensures outcome.Rejected? ==> !Complete(hash, incoming.bytes, incoming.ended, size)
    ensures healthy ==> !outcome.Interrupted?
    ensures staged <= incoming.bytes && |staged| <= size
    ensures Increasing(reports) && forall i :: 0 <= i < |reports| ==> reports[i] <= |staged|
  {
    var expectedOffset := 0;
    var sha := Hasher([]);
    var buffer := new byte[chunkSize];
    staged, reports := [], [];
    while expectedOffset < size
      invariant expectedOffset <= size && expectedOffset == incoming.pos <= |incoming.bytes|
      invariant sha.absorbed == staged == incoming.bytes[..expectedOffset]
      invariant Reported(reports, expectedOffset)
      decreases size - expectedOffset
    {
      var ready := Attempt(healthy);
      if !ready {
        return Interrupted, staged, reports;
      }
      var wanted := Min(size - expectedOffset, buffer.Length);
      var read := incoming.Read(buffer, wanted);
      match read {
        case Reset => return Rejected(Network), staged, reports;
        case End => return Rejected(Integrity), staged, reports;
        case Got(count) =>
          var written := Attempt(healthy);
          if !written {
            return Interrupted, staged, reports;
          }
          staged := staged + buffer[..count];
          sha := sha.Update(buffer[..count]);
          expectedOffset := expectedOffset + count;
          var recorded := Attempt(healthy);
          if !recorded {
            return Interrupted, staged, reports;
          }
          reports := reports + [expectedOffset];
      }
    }
    outcome := ReceiveEnd(hash, incoming, sha);
  }

  /** The round trip: whatever chunks both sides use, a finished stream carried to its end is done at
      the receiver, with the bytes that the sender read; only interruptions can prevent it. A healthy
      transfer succeeds on both sides exactly when the source still is what was prepared. */
  method RoundTrip(hash: Hash, content: seq<byte>, intact: bool, size: nat, sendChunk: nat, receiveChunk: nat,
                   healthy: bool)
    returns (sending: Outcome, receiving: Outcome, staged: seq<byte>)
    requires sendChunk > 0 && receiveChunk > 0
    ensures sending.Done? ==> size <= |content| && (receiving.Done? || receiving.Interrupted?)
    ensures receiving.Done? ==> size <= |content| && staged == content[..size]
    ensures healthy ==> (sending.Done? <==> size <= |content| && intact) && (receiving.Done? <==> sending.Done?)
  {
    var source := new Source(content, intact);
    var wire := new Outgoing();
    var reports: seq<nat>;
    sending, reports := SendFile(hash, source, size, sendChunk, wire, healthy);
    var incoming := new Incoming(wire.sent, wire.finished);
    receiving, staged, reports := ReceiveFile(hash, incoming, size, receiveChunk, healthy);
    if wire.finished {
      assert wire.sent[size..] == hash(content[..size]);
    }
  }
}
