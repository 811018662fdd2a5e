/**
  The two ends of a connection as objects: the sender's poll handler, the receiver's poll handler and
  the receiving interactor. Each operation takes the step of the channel state machine it stands for,
  and a read event leaves the link in order exactly when it is undisturbed.
 */
module Links {
  import opened Bytes
  import opened FrameReaders
  import opened SocketPollHandlers
  import opened Channels
  import M = Messages
  import IO = FrameBufferIO

  class Link {
    const out: TcpSocketPollHandler
    const into: TcpSocketPollHandler
    const rx: Receiver
    ghost var sent: seq<M.Message>
    var taken: nat
    ghost var chunks: seq<bytes>

    /** The two handlers share nothing, and the network has carried a prefix of what was accepted. */
    ghost predicate Connected()
      reads this, out, out.stream, into, into.stream, rx, rx.reader, rx.reader.fbuf
    {
      && out != into && out.stream != into.stream
      && out.Valid() && rx.reader.Valid() && into.readQueue == []
      && taken <= |out.stream.wire| && into.stream.incoming <= out.stream.wire[taken..]
    }

    /** Besides, no byte has been dropped, so both ends are in order. */
    ghost predicate Valid()
      reads this, out, out.stream, into, into.stream, rx, rx.reader, rx.reader.fbuf
    {
      Connected() && Inv(State())
    }

    ghost function State(): Channel
      requires rx.reader.Valid()
      reads this, out, out.stream, rx, rx.reader, rx.reader.fbuf
    {
      Channel(sent, out.writeQueue, out.stream.wire, taken, chunks, rx.reader.State(), rx.received)
    }

    constructor (out: TcpSocketPollHandler, into: TcpSocketPollHandler, throws: Throws)
      requires out != into && out.stream != into.stream
      requires out.writeQueue == [] && out.stream.wire == [] && into.readQueue == [] && into.stream.incoming == []
      ensures this.out == out && this.into == into && rx.throws == throws
      ensures Valid() && State() == CLOSED_LOOP
    {
      hide Inv, Flatten;
      this.out, this.into := out, into;
      sent, taken, chunks := [], 0, [];
      rx := new Receiver(throws);
      new;
      StartsInOrder(throws);
    }

    /** Interactor::send: serialize, frame and enqueue. */
    method Send(m: M.Message)
      requires Valid() && Sendable(m)
      modifies this`sent, out`writeQueue
      ensures Valid() && State() == Next(rx.throws, old(State()), Step.Send(m))
    {
      hide Inv, M.Encode, M.Encodable, FrameReader.State, Flatten;
      var r := IO.ToWire(m);
      SendKeepsInv(rx.throws, State(), m);
      out.Enqueue(r.value);
      sent := sent + [m];
    }

    /** One write event of the poller. */
    method Write() returns (r: Result<bool, IoError>)
      requires Valid()
      modifies out`writeQueue, out.stream
      ensures Valid()
      ensures var n := |out.stream.wire| - |old(out.stream.wire)|;
        n >= 0 && Enabled(old(State()), Transmit(n)) && State() == Next(rx.throws, old(State()), Transmit(n))
    {
      hide Inv, FrameReader.State, Flatten, Unsent, Advance, SentFrom, QueueValid, Next, Enabled;
      ghost var c := State();
      r := out.Write();
      Accepted(rx.throws, c, out.writeQueue, out.stream.wire);
    }

    /** The network hands over the next bytes, in order. */
    method Carry(n: nat)
      requires Valid() && taken + |into.stream.incoming| + n <= |out.stream.wire|
      modifies into.stream`incoming
      ensures Valid() && State() == old(State())
      ensures |into.stream.incoming| == |old(into.stream.incoming)| + n
    {
      hide Inv, FrameReader.State, Flatten;
      var arrived := taken + |into.stream.incoming|;
      into.stream.incoming := into.stream.incoming + out.stream.wire[arrived..arrived + n];
    }

    /** One chunk for the interactor; the answer is whether the loop over the chunks goes on. */
    method FeedChunk(buf: bytes) returns (ok: bool)
      requires rx.reader.Valid() && Inv(State()) && buf <= out.stream.wire[taken..]
      requires rx.reader.fbuf.Retained() + |buf| < 0x8000_0000
      modifies this`chunks, this`taken, rx`received, rx.reader, rx.reader.fbuf
      ensures rx.reader.Valid() && rx.reader.fbuf == old(rx.reader.fbuf)
      ensures rx.reader.fbuf.Retained() <= old(rx.reader.fbuf.Retained()) + |buf|
      ensures (State(), ok) == FeedOne(rx.throws, old(State()), buf) && Inv(State())
    {
      hide Inv, Flatten, Reader.Write, M.Decode, FrameBuffers.FrameBuffer.Retained, Collect;
      FeedKeepsInv(rx.throws, State(), buf);
      ok := rx.Receive(buf);
      taken := taken + |buf|;
      chunks := chunks + [buf];
    }

    /** Distributor::on_read: an exception ends the loop, and the chunks behind it are destroyed. */
    method FeedAll(bufs: seq<bytes>)
      requires rx.reader.Valid() && Inv(State()) && Enabled(State(), Read(bufs))
      requires rx.reader.fbuf.Retained() + |Flatten(bufs)| < 0x8000_0000
      modifies this`chunks, this`taken, rx`received, rx.reader, rx.reader.fbuf
      ensures rx.reader.Valid() && rx.reader.fbuf == old(rx.reader.fbuf)
      ensures State() == FeedEvent(rx.throws, old(State()), bufs)
    {
      hide Inv, Flatten, Enabled, FeedOne, FrameReader.State, FrameBuffers.FrameBuffer.Retained;
      ghost var after := FeedEvent(rx.throws, State(), bufs);
      assert bufs[0..] == bufs;
      var i, ok := 0, true;
      while i < |bufs| && ok
        invariant 0 <= i <= |bufs|
        invariant rx.reader.Valid() && rx.reader.fbuf == old(rx.reader.fbuf)
        invariant ok ==> Inv(State()) && Enabled(State(), Read(bufs[i..]))
        invariant ok ==> rx.reader.fbuf.Retained() + |Flatten(bufs[i..])| < 0x8000_0000
        invariant ok ==> FeedEvent(rx.throws, State(), bufs[i..]) == after
        invariant !ok ==> after == State().(taken := taken + |Flatten(bufs[i..])|)
      {
        assert bufs[i..][1..] == bufs[i + 1..];
        FirstOfEvent(rx.throws, State(), bufs[i..]);
        InBounds(State(), bufs[i]);
        ok := FeedChunk(bufs[i]);
        i := i + 1;
      }
      if !ok {
        taken := taken + |Flatten(bufs[i..])|;
      }
    }

    /** One read event of the poller: read all there is, then feed the chunks to the interactor. */
    method HandleRead() returns (open: bool, ghost bufs: seq<bytes>)
      requires Valid() && rx.reader.fbuf.Retained() + |into.stream.incoming| < 0x8000_0000
      modifies this`chunks, this`taken, into`readQueue, into.stream, rx`received, rx.reader, rx.reader.fbuf
      ensures Connected()
      ensures Flatten(bufs) + into.stream.incoming == old(into.stream.incoming)
      ensures Enabled(old(State()), Read(bufs)) && State() == Next(rx.throws, old(State()), Read(bufs))
      ensures Valid() <==> Undisturbed(rx.throws, old(State()), bufs)
    {
      hide Inv, Flatten, FrameReader.State, FrameBuffers.FrameBuffer.Retained, Undisturbed, FeedEvent;
      ghost var c := State();
      open := into.Read();
      var read := into.DequeueAll();
      bufs := read;
      assert into.readQueue == [] && bufs[0..] == bufs;
      Behead(c.wire[c.taken..], Flatten(bufs), into.stream.incoming);
      FeedEventLaw(rx.throws, c, bufs);
      FeedAll(read);
      assert c.wire[c.taken..][|Flatten(bufs)|..] == c.wire[taken..];
    }
  }

  /** What one write event has done to queue and wire is the step Transmit. */
  lemma Accepted(throws: Throws, c: Channel, queue: seq<Queued>, wire: bytes)
    requires Inv(c) && QueueValid(c.queue) && QueueValid(queue) && SentFrom(c.queue, c.wire, queue, wire)
    ensures c.wire <= wire
    ensures var n := |wire| - |c.wire|;
      Enabled(c, Transmit(n)) && Next(throws, c, Transmit(n)) == c.(queue := queue, wire := wire)
    ensures Inv(c.(queue := queue, wire := wire))
  {
    hide Inv, Unsent, Advance, QueueValid;
    TransmitKeepsInv(throws, c, |wire| - |c.wire|);
  }

  lemma InBounds(c: Channel, buf: bytes)
    requires Inv(c) && buf <= c.wire[c.taken..]
    ensures c.taken + |buf| <= |c.wire|
  {
  }
}
