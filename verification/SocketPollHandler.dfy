/**
  The poll handler of a client socket: two queues between whole buffers and a stream that takes
  and gives bytes as it pleases.
 */
module SocketPollHandlers {
  import opened Bytes

  // ---- The stream, as an oracle ----

  /** What the socket and the TLS layer will answer to a write, or to a read. Any script may occur. */
  datatype WriteAnswer = Accept(count: nat) | RefuseWrite(wantWrite: bool) | EndWrite(closes: bool) | FaultWrite

  datatype ReadAnswer = Deliver(count: nat) | RefuseRead | EndRead(closes: bool) | FaultRead

  datatype WriteResult = Wrote(count: nat) | WriteBlocked | WriteEof | WriteFault

  datatype ReadResult = Chunk(buf: bytes) | ReadBlocked | ReadEof | ReadFault

  class Stream {
    var isOpen: bool
    var wantWrite: bool
    var writeScript: seq<WriteAnswer>
    var readScript: seq<ReadAnswer>
    /** Every byte accepted for sending. */
    var wire: bytes
    /** The bytes that have arrived and were not read yet. */
    var incoming: bytes
    /** How often the stream has not taken or not given anything. */
    ghost var refusals: nat

    /** A write takes between one byte and all of them, or nothing; a fault closes the socket. */
    method Write(buf: bytes) returns (r: WriteResult)
      modifies this
      ensures incoming == old(incoming) && readScript == old(readScript)
      ensures r.Wrote? ==>
        && 1 <= r.count <= |buf| && wire == old(wire) + buf[..r.count]
        && isOpen == old(isOpen) && refusals == old(refusals)
      ensures !r.Wrote? ==> wire == old(wire) && refusals == old(refusals) + 1
      ensures r.WriteFault? ==> !isOpen
      ensures isOpen ==> old(isOpen)
    {
      var answer := if writeScript == [] then RefuseWrite(false) else writeScript[0];
      writeScript := if writeScript == [] then [] else writeScript[1..];
      match answer {
      case Accept(count) =>
        if count == 0 || buf == [] {
          // A write of zero bytes says that the socket has closed.
          isOpen := false;
          r := WriteEof;
        } else {
          r := Wrote(if count < |buf| then count else |buf|);
          wire := wire + buf[..r.count];
          wantWrite := false;
        }
      case RefuseWrite(want) =>
        wantWrite := want;
        r := WriteBlocked;
      case EndWrite(closes) =>
        isOpen := isOpen && !closes;
        r := WriteEof;
      case FaultWrite =>
        isOpen := false;
        r := WriteFault;
      }
      if !r.Wrote? {
        refusals := refusals + 1;
      }
    }

    /** A read gives between one and `len` of the bytes that have arrived, or nothing. */
    method Read(len: nat) returns (r: ReadResult)
      modifies this
      ensures wire == old(wire) && writeScript == old(writeScript) && wantWrite == old(wantWrite)
      ensures r.Chunk? ==>
        && 1 <= |r.buf| <= len && r.buf + incoming == old(incoming)
        && isOpen == old(isOpen) && refusals == old(refusals)
      ensures !r.Chunk? ==> incoming == old(incoming) && refusals == old(refusals) + 1
      ensures r.ReadFault? ==> !isOpen
      ensures isOpen ==> old(isOpen)
    {
      var answer := if readScript == [] then RefuseRead else readScript[0];
      readScript := if readScript == [] then [] else readScript[1..];
      match answer {
      case Deliver(count) =>
        var most := if len < |incoming| then len else |incoming|;
        var n := if count < most then count else most;
        if count == 0 || len == 0 {
          // A read of zero bytes says that the socket has closed.
          isOpen := false;
          r := ReadEof;
        } else if incoming == [] {
          // Nothing has arrived yet.
          r := ReadBlocked;
        } else {
          r := Chunk(incoming[..n]);
          incoming := incoming[n..];
        }
      case RefuseRead =>
        r := ReadBlocked;
      case EndRead(closes) =>
        isOpen := isOpen && !closes;
        r := ReadEof;
      case FaultRead =>
        isOpen := false;
        r := ReadFault;
      }
      if !r.Chunk? {
        refusals := refusals + 1;
      }
    }
  }

  // ---- The write queue ----

  datatype Queued = Queued(buf: bytes, offset: nat)

  /** An entry that is written out completely is gone, unless it was empty to begin with. */
  predicate QueueValid(q: seq<Queued>) {
    forall e :: e in q ==> e.offset <= |e.buf| && (e.offset == |e.buf| ==> e.buf == [])
  }

  function Unsent(q: seq<Queued>): bytes
    requires QueueValid(q)
  {
    if q == [] then [] else q[0].buf[q[0].offset..] + Unsent(q[1..])
  }

  /** The queue once `n` more bytes are out. */
  function Advance(q: seq<Queued>, n: nat): seq<Queued>
    requires QueueValid(q)
  {
    if n == 0 || q == [] then q
    else
      var left := |q[0].buf| - q[0].offset;
      if n < left then [Queued(q[0].buf, q[0].offset + n)] + q[1..]
      else Advance(q[1..], n - left)
  }

  lemma {:induction false} AdvanceUnsent(q: seq<Queued>, n: nat)
    requires QueueValid(q) && n <= |Unsent(q)|
    ensures QueueValid(Advance(q, n))
    ensures Unsent(Advance(q, n)) == Unsent(q)[n..]
  {
    if n > 0 {
      var left := |q[0].buf| - q[0].offset;
      if n < left {
        FrontAdvanced(q, n);
      } else {
        AdvanceUnsent(q[1..], n - left);
        DropPast(q[0].buf[q[0].offset..], Unsent(q[1..]), n);
      }
    }
  }

  /** Bytes that leave the front entry unfinished. */
  lemma FrontAdvanced(q: seq<Queued>, n: nat)
    requires QueueValid(q) && q != [] && n < |q[0].buf| - q[0].offset
    ensures var q' := [Queued(q[0].buf, q[0].offset + n)] + q[1..];
      QueueValid(q') && n <= |Unsent(q)| && Unsent(q') == Unsent(q)[n..]
  {
    var e := q[0];
    var q' := [Queued(e.buf, e.offset + n)] + q[1..];
    assert q'[1..] == q[1..];
    forall x | x in q'
      ensures x == q'[0] || x in q
    {
      assert x != q'[0] ==> x in q[1..];
    }
    DropTwice(e.buf, e.offset, n);
    DropOfConcat(e.buf[e.offset..], Unsent(q[1..]), n);
  }

  lemma DropTwice<T>(s: seq<T>, i: nat, n: nat)
    requires i + n <= |s|
    ensures s[i..][n..] == s[i + n..]
  {
  }

  lemma DropPast<T>(a: seq<T>, b: seq<T>, n: nat)
    requires |a| <= n <= |a| + |b|
    ensures (a + b)[n..] == b[n - |a|..]
  {
  }

  lemma CutTwice<T>(s: seq<T>, i: nat, count: nat, n: nat, rest: seq<T>)
    requires n <= count && i + count <= |s|
    ensures s[i..i + count][..n] == (s[i..] + rest)[..n]
  {
  }

  lemma {:induction false} AdvanceTwice(q: seq<Queued>, n: nat, k: nat)
    requires QueueValid(q) && n + k <= |Unsent(q)|
    ensures QueueValid(Advance(q, n)) && Advance(Advance(q, n), k) == Advance(q, n + k)
  {
    AdvanceUnsent(q, n);
    if n > 0 && k > 0 {
      var left := |q[0].buf| - q[0].offset;
      if n < left {
        var q' := Advance(q, n);
        assert q'[1..] == q[1..] && |q'[0].buf| - q'[0].offset == left - n;
      } else {
        AdvanceTwice(q[1..], n - left, k);
      }
    }
  }

  /** After `n` bytes, `k` more: what has gone out, what the queue is and what it still holds. */
  lemma AdvanceMore(q: seq<Queued>, n: nat, k: nat)
    requires QueueValid(q) && n + k <= |Unsent(q)|
    ensures QueueValid(Advance(q, n)) && Unsent(Advance(q, n)) == Unsent(q)[n..]
    ensures Unsent(q)[..n] + Unsent(q)[n..][..k] == Unsent(q)[..n + k]
    ensures Advance(Advance(q, n), k) == Advance(q, n + k)
    ensures QueueValid(Advance(q, n + k)) && Unsent(Advance(q, n + k)) == Unsent(q)[n + k..]
  {
    MoveCut(Unsent(q), n, k);
    AdvanceTwice(q, n, k);
    AdvanceUnsent(q, n);
    AdvanceUnsent(q, n + k);
  }

  /**
    Between one state of the queue and the wire and a later one: what is new on the wire is exactly
    the front of what was unsent, and the queue holds exactly the rest.
   */
  ghost predicate SentFrom(q: seq<Queued>, wire: bytes, q': seq<Queued>, wire': bytes)
    requires QueueValid(q) && QueueValid(q')
  {
    var n := |wire'| - |wire|;
    && 0 <= n <= |Unsent(q)|
    && wire' == wire + Unsent(q)[..n]
    && q' == Advance(q, n)
    && Unsent(q') == Unsent(q)[n..]
  }

  lemma SentMore(q: seq<Queued>, wire: bytes, q1: seq<Queued>, wire1: bytes, k: nat)
    requires QueueValid(q) && QueueValid(q1) && SentFrom(q, wire, q1, wire1) && k <= |Unsent(q1)|
    ensures QueueValid(Advance(q1, k)) && SentFrom(q, wire, Advance(q1, k), wire1 + Unsent(q1)[..k])
    ensures |Unsent(Advance(q1, k))| == |Unsent(q1)| - k
  {
    hide Advance, Unsent;
    var n, all := |wire1| - |wire|, Unsent(q);
    AdvanceMore(q, n, k);
    assert wire1 + all[n..][..k] == wire + (all[..n] + all[n..][..k]);
  }

  /** What is offered of the front entry is the front of what is unsent. */
  lemma OfferedFront(q: seq<Queued>, count: nat, n: nat)
    requires QueueValid(q) && q != [] && n <= count && q[0].offset + count <= |q[0].buf|
    ensures n <= |Unsent(q)|
    ensures q[0].buf[q[0].offset..q[0].offset + count][..n] == Unsent(q)[..n]
  {
    CutTwice(q[0].buf, q[0].offset, count, n, Unsent(q[1..]));
  }

  lemma UnsentSnoc(q: seq<Queued>, buf: bytes)
    requires QueueValid(q)
    ensures QueueValid(q + [Queued(buf, 0)])
    ensures Unsent(q + [Queued(buf, 0)]) == Unsent(q) + buf
  {
    if q == [] {
      assert q + [Queued(buf, 0)] == [Queued(buf, 0)];
      assert Unsent([Queued(buf, 0)]) == buf + Unsent([Queued(buf, 0)][1..]);
    } else {
      assert (q + [Queued(buf, 0)])[1..] == q[1..] + [Queued(buf, 0)];
      UnsentSnoc(q[1..], buf);
    }
  }

  // ---- The handler ----

  datatype IoError = StreamFault

  class TcpSocketPollHandler {
    const stream: Stream
    const readBufsiz: nat
    const writeBufsiz: nat
    var readQueue: seq<bytes>
    var writeQueue: seq<Queued>

    constructor (stream: Stream, readBufsiz: nat, writeBufsiz: nat)
      ensures this.stream == stream && this.readBufsiz == readBufsiz && this.writeBufsiz == writeBufsiz
      ensures readQueue == [] && writeQueue == []
    {
      this.stream, this.readBufsiz, this.writeBufsiz := stream, readBufsiz, writeBufsiz;
      readQueue, writeQueue := [], [];
    }

    predicate Valid()
      reads this
    {
      QueueValid(writeQueue)
    }

    method Enqueue(buf: bytes)
      requires Valid()
      modifies this`writeQueue
      ensures Valid() && writeQueue == old(writeQueue) + [Queued(buf, 0)]
      ensures Unsent(writeQueue) == old(Unsent(writeQueue)) + buf
    {
      UnsentSnoc(writeQueue, buf);
      writeQueue := writeQueue + [Queued(buf, 0)];
    }

    /** One pass of the write loop: offer at most `writeBufsiz` bytes of the front entry. */
    method WriteFront() returns (r: WriteResult)
      requires Valid() && writeQueue != []
      modifies this`writeQueue, stream
      ensures Valid() && stream.incoming == old(stream.incoming) && stream.readScript == old(stream.readScript)
      ensures stream.isOpen ==> old(stream.isOpen)
      ensures r.Wrote? ==>
        && 1 <= r.count <= |old(Unsent(writeQueue))| && r.count <= writeBufsiz
        && r.count <= |old(writeQueue[0].buf)| - old(writeQueue[0].offset)
        && stream.wire == old(stream.wire) + old(Unsent(writeQueue))[..r.count]
        && writeQueue == Advance(old(writeQueue), r.count)
        && stream.refusals == old(stream.refusals)
      ensures !r.Wrote? ==>
        && writeQueue == old(writeQueue) && stream.wire == old(stream.wire)
        && stream.refusals > old(stream.refusals)
      ensures r.WriteFault? ==> !stream.isOpen
    {
      var front := writeQueue[0];
      var left := |front.buf| - front.offset;
      var count := if left < writeBufsiz then left else writeBufsiz;
      r := stream.Write(front.buf[front.offset..front.offset + count]);
      if r.Wrote? {
        ghost var q := writeQueue;
        AdvanceUnsent(q, r.count);
        OfferedFront(q, count, r.count);
        writeQueue := writeQueue[0 := Queued(front.buf, front.offset + r.count)];
        if front.offset + r.count == |front.buf| {
          writeQueue := writeQueue[1..];
          assert writeQueue == q[1..];
        } else {
          assert writeQueue == [Queued(front.buf, front.offset + r.count)] + q[1..];
        }
      }
    }

    /** Some TLS writes may be pending, typically at shutdown. */
    method FlushPending() returns (ok: bool)
      modifies stream
      ensures stream.incoming == old(stream.incoming) && stream.readScript == old(stream.readScript)
      ensures stream.wire == old(stream.wire) && stream.refusals >= old(stream.refusals)
      ensures stream.isOpen ==> old(stream.isOpen)
      ensures !ok ==> !stream.isOpen
    {
      ok := true;
      if stream.isOpen && stream.wantWrite {
        var r := stream.Write([]);
        ok := r != WriteFault;
      }
    }

    /** The write loop. */
    method Drain() returns (faulted: bool)
      requires Valid()
      modifies this`writeQueue, stream
      ensures Valid() && stream.incoming == old(stream.incoming) && stream.readScript == old(stream.readScript)
      ensures SentFrom(old(writeQueue), old(stream.wire), writeQueue, stream.wire)
      ensures writeQueue == [] || !stream.isOpen || stream.refusals > old(stream.refusals)
      ensures stream.refusals >= old(stream.refusals)
      ensures faulted ==> !stream.isOpen
      ensures !old(stream.isOpen) ==> writeQueue == old(writeQueue) && stream.wire == old(stream.wire)
    {
      assert SentFrom(writeQueue, stream.wire, writeQueue, stream.wire);
      hide SentFrom, Advance, Unsent;
      var canWrite := true;
      faulted := false;
      while canWrite && stream.isOpen && writeQueue != []
        invariant Valid() && stream.incoming == old(stream.incoming) && stream.readScript == old(stream.readScript)
        invariant SentFrom(old(writeQueue), old(stream.wire), writeQueue, stream.wire)
        invariant stream.refusals >= old(stream.refusals)
        invariant !canWrite ==> stream.refusals > old(stream.refusals)
        invariant faulted ==> !stream.isOpen
        invariant stream.isOpen ==> old(stream.isOpen)
        invariant !old(stream.isOpen) ==> writeQueue == old(writeQueue) && stream.wire == old(stream.wire)
        decreases |Unsent(writeQueue)|, canWrite
      {
        ghost var q, wire := writeQueue, stream.wire;
        var result := WriteFront();
        canWrite := result.Wrote?;
        faulted := result.WriteFault?;
        if result.Wrote? {
          SentMore(old(writeQueue), old(stream.wire), q, wire, result.count);
        }
      }
    }

    /**
      Whatever the stream answers, what it has accepted is exactly the front of what was unsent and
      the queue holds exactly the rest; the loop gives up only when the stream has refused or closed.
     */
    method Write() returns (r: Result<bool, IoError>)
      requires Valid()
      modifies this`writeQueue, stream
      ensures Valid() && stream.incoming == old(stream.incoming) && stream.readScript == old(stream.readScript)
      ensures SentFrom(old(writeQueue), old(stream.wire), writeQueue, stream.wire)
      ensures writeQueue == [] || !stream.isOpen || stream.refusals > old(stream.refusals)
      ensures r.Ok? ==> r.value == stream.isOpen
      ensures r.Err? ==> !stream.isOpen
      ensures !old(stream.isOpen) ==> writeQueue == old(writeQueue) && stream.wire == old(stream.wire)
    {
      var faulted := Drain();
      if faulted {
        return Err(StreamFault);
      }
      var flushed := FlushPending();
      if !flushed {
        return Err(StreamFault);
      }
      return Ok(stream.isOpen);
    }

    /** What was read and what is still to be read are, in order, what had arrived. */
    method Read() returns (open: bool)
      modifies this`readQueue, stream
      ensures stream.wire == old(stream.wire)
      ensures old(readQueue) <= readQueue
      ensures Flatten(readQueue[|old(readQueue)|..]) + stream.incoming == old(stream.incoming)
      ensures forall i :: |old(readQueue)| <= i < |readQueue| ==> 1 <= |readQueue[i]| <= readBufsiz
      ensures !stream.isOpen || stream.refusals > old(stream.refusals)
      ensures open == stream.isOpen
    {
      ghost var k := |readQueue|;
      var canRead := true;
      while canRead && stream.isOpen
        invariant stream.wire == old(stream.wire) && k <= |readQueue| && old(readQueue) == readQueue[..k]
        invariant Flatten(readQueue[k..]) + stream.incoming == old(stream.incoming)
        invariant forall i :: k <= i < |readQueue| ==> 1 <= |readQueue[i]| <= readBufsiz
        invariant stream.refusals >= old(stream.refusals)
        invariant !canRead ==> stream.refusals > old(stream.refusals)
        decreases |stream.incoming|, canRead
      {
        var result := stream.Read(readBufsiz);
        match result
        case Chunk(buf) =>
          FlattenSnoc(readQueue[k..], buf);
          assert (readQueue + [buf])[k..] == readQueue[k..] + [buf];
          readQueue := readQueue + [buf];
        case _ =>
          canRead := false;
      }
      return stream.isOpen;
    }

    method Dequeue() returns (buf: Option<bytes>)
      modifies this`readQueue
      ensures buf == None <==> old(readQueue) == []
      ensures buf.Some? ==> old(readQueue) == [buf.value] + readQueue
      ensures buf == None ==> readQueue == []
    {
      if readQueue == [] {
        return None;
      }
      buf := Some(readQueue[0]);
      readQueue := readQueue[1..];
    }

    /** What the poller collects after a read. */
    method DequeueAll() returns (bufs: seq<bytes>)
      modifies this`readQueue
      ensures bufs == old(readQueue) && readQueue == []
    {
      bufs := [];
      var buf := Dequeue();
      while buf.Some?
        invariant old(readQueue) == bufs + (if buf.Some? then [buf.value] else []) + readQueue
        invariant buf == None ==> readQueue == []
        decreases |readQueue|, buf.Some?
      {
        bufs := bufs + [buf.value];
        buf := Dequeue();
      }
    }
  }
}
