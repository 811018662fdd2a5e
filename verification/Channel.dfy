/**
  One direction of a connection from end to end: messages are framed and queued, the queue drains
  into a stream in arbitrary pieces, the bytes arrive in arbitrary chunks and are deframed, decoded and
  processed. Processing may throw, and then the read event it happens in loses its later chunks.
 */
module Channels {
  import opened Bytes
  import opened FrameReaders
  import opened SocketPollHandlers
  import M = Messages
  import IO = FrameBufferIO

  // ---- The receiving interactor ----

  /**
    What the receiving server will make of its messages: whether processing the last one of those
    received so far throws. Any answers may occur.
   */
  type Throws = seq<M.Message> -> bool

  /** What processing a list of frames in order gives: all messages so far, the frames left, no exception. */
  datatype Collected = Collected(received: seq<M.Message>, left: seq<bytes>, ok: bool)

  /** A frame whose message throws, or that has no message type, is gone; the frames behind it stay. */
  function Collect(throws: Throws, received: seq<M.Message>, frames: seq<bytes>): Collected
    decreases |frames|
  {
    if frames == [] then Collected(received, [], true)
    else
      match M.Decode(frames[0])
      case Done(m, _) =>
        if throws(received + [m]) then Collected(received + [m], frames[1..], false)
        else Collect(throws, received + [m], frames[1..])
      case _ => Collected(received, frames[1..], false)
  }

  /** The first message that throws is still processed, and the frames behind it are left. */
  lemma {:induction false} CollectStops(
    throws: Throws, received: seq<M.Message>, frames: seq<bytes>, ms: seq<M.Message>)
    requires |ms| <= |frames|
    requires forall i :: 0 <= i < |ms| ==> M.Decode(frames[i]).Done? && M.Decode(frames[i]).value == ms[i]
    requires forall i :: 0 < i < |ms| ==> !throws(received + ms[..i])
    ensures ms != [] && throws(received + ms) ==>
      Collect(throws, received, frames) == Collected(received + ms, frames[|ms|..], false)
    ensures (ms == [] || !throws(received + ms)) && |ms| == |frames| ==>
      Collect(throws, received, frames) == Collected(received + ms, [], true)
    decreases |ms|
  {
    hide M.Decode;
    if ms == [] {
      assert received + ms == received;
    } else {
      var now := received + [ms[0]];
      assert now + ms[1..] == received + ms && received + ms[..1] == now;
      if |ms| == 1 {
        assert ms[1..] == [] && received + ms == now;
        assert |frames| == 1 ==> frames[1..] == [];
      } else {
        var rest := ms[1..];
        forall i | 0 < i < |rest|
          ensures !throws(now + rest[..i])
        {
          assert now + rest[..i] == received + ms[..i + 1];
        }
        CollectStops(throws, now, frames[1..], ms[1..]);
        assert frames[1..][|ms| - 1..] == frames[|ms|..];
      }
    }
  }

  class Receiver {
    const throws: Throws
    var reader: FrameReader
    var received: seq<M.Message>

    constructor (throws: Throws)
      ensures this.throws == throws && reader.Valid() && fresh(reader) && fresh(reader.fbuf)
      ensures reader.State() == IDLE && reader.fbuf.data == [] && received == []
    {
      this.throws := throws;
      reader := new FrameReader();
      received := [];
    }

    /** Take the front frame off the reader and process its message. */
    method ProcessFront() returns (ok: bool)
      requires reader.Valid() && reader.frames != [] && !M.Decode(reader.frames[0]).Short?
      modifies this`received, reader`frames
      ensures reader.Valid() && reader.frames == old(reader.frames)[1..]
      ensures var d := M.Decode(old(reader.frames)[0]);
        && received == (if d.Done? then old(received) + [d.value] else old(received))
        && ok == (d.Done? && !throws(received))
    {
      hide M.Decode;
      var frame := reader.Read();
      var m := IO.Deserialize(frame);
      if m.Err? {
        return false;
      }
      received := received + [m.value];
      return !throws(received);
    }

    /**
      Deframe a chunk and process the messages it completes, up to one that throws. A frame that ends
      in the middle of its message would be read past its end, hence the second precondition.
     */
    method Receive(buf: bytes) returns (ok: bool)
      requires reader.Valid() && reader.fbuf.Retained() + |buf| < 0x8000_0000
      requires forall f :: f in reader.State().Write(buf).frames ==> !M.Decode(f).Short?
      modifies this`received, reader, reader.fbuf
      ensures reader.Valid() && reader.fbuf == old(reader.fbuf)
      ensures reader.fbuf.Retained() <= old(reader.fbuf.Retained()) + |buf|
      ensures var r := old(reader.State()).Write(buf);
        var c := Collect(throws, old(received), r.frames);
        reader.State() == r.(frames := c.left) && received == c.received && ok == c.ok
    {
      var ready := reader.Write(buf);
      ok := ProcessAll();
    }

    method ProcessAll() returns (ok: bool)
      requires reader.Valid() && forall f :: f in reader.frames ==> !M.Decode(f).Short?
      modifies this`received, reader`frames
      ensures reader.Valid()
      ensures var c := Collect(throws, old(received), old(reader.frames));
        reader.frames == c.left && received == c.received && ok == c.ok
    {
      hide M.Decode, FrameReader.State;
      ok := true;
      ghost var all := Collect(throws, received, reader.frames);
      while ok && reader.HasFrame()
        invariant reader.Valid()
        invariant forall f :: f in reader.frames ==> !M.Decode(f).Short?
        invariant ok ==> Collect(throws, received, reader.frames) == all
        invariant !ok ==> all == Collected(received, reader.frames, false)
        decreases |reader.frames|
      {
        ok := ProcessFront();
      }
    }
  }

  // ---- The channel as a state machine ----

  /** A message whose encoding the 32-bit size of a frame buffer can measure. */
  predicate Sendable(m: M.Message) {
    M.Encodable(m) && |M.Encode(m)| < 0x8000_0000
  }

  predicate AllSendable(ms: seq<M.Message>) {
    forall i :: 0 <= i < |ms| ==> Sendable(ms[i])
  }

  /**
    The state of both ends, with its histories: what was sent, what the stream accepted, how much of
    that was read off the socket, and which chunks of it were given to the reader.
   */
  datatype Channel = Channel(
    sent: seq<M.Message>,
    queue: seq<Queued>,
    wire: bytes,
    taken: nat,
    chunks: seq<bytes>,
    reader: Reader,
    received: seq<M.Message>)
  {
    /** Bytes that were read off the socket and never given to the reader. */
    function Dropped(): int {
      taken - |Flatten(chunks)|
    }
  }

  /** Enqueue a message; let the stream accept `n` bytes; one read event, with the chunks it reads. */
  datatype Step = Send(m: M.Message) | Transmit(n: nat) | Read(bufs: seq<bytes>)

  const CLOSED_LOOP := Channel([], [], [], 0, [], IDLE, [])

  predicate Enabled(c: Channel, s: Step) {
    match s
    case Send(m) => Sendable(m)
    case Transmit(n) => QueueValid(c.queue) && n <= |Unsent(c.queue)|
    case Read(bufs) => c.taken <= |c.wire| && Flatten(bufs) <= c.wire[c.taken..]
  }

  /** One chunk is given to the reader, and the messages it completes are processed. */
  function FeedOne(throws: Throws, c: Channel, chunk: bytes): (Channel, bool) {
    var reader := c.reader.Write(chunk);
    var collected := Collect(throws, c.received, reader.frames);
    (c.(taken := c.taken + |chunk|, chunks := c.chunks + [chunk],
        reader := reader.(frames := collected.left), received := collected.received),
     collected.ok)
  }

  /** The chunks of one read event in order; those behind one that throws are destroyed. */
  function FeedEvent(throws: Throws, c: Channel, bufs: seq<bytes>): Channel
    decreases |bufs|
  {
    if bufs == [] then c
    else
      var (c', ok) := FeedOne(throws, c, bufs[0]);
      if ok then FeedEvent(throws, c', bufs[1..])
      else c'.(taken := c'.taken + |Flatten(bufs[1..])|)
  }

  function Next(throws: Throws, c: Channel, s: Step): Channel
    requires Enabled(c, s)
  {
    match s
    case Send(m) =>
      c.(sent := c.sent + [m], queue := c.queue + [Queued(Framed(M.Encode(m)), 0)])
    case Transmit(n) =>
      c.(wire := c.wire + Unsent(c.queue)[..n], queue := Advance(c.queue, n))
    case Read(bufs) =>
      FeedEvent(throws, c, bufs)
  }

  /** The state after a run; a step that is not enabled does not happen. */
  function Run(throws: Throws, steps: seq<Step>): Channel {
    if steps == [] then CLOSED_LOOP
    else
      var c, s := Run(throws, steps[..|steps| - 1]), steps[|steps| - 1];
      if Enabled(c, s) then Next(throws, c, s) else c
  }

  // ---- The stream of a list of messages ----

  function Bodies(ms: seq<M.Message>): (bs: seq<bytes>)
    requires AllSendable(ms)
    ensures |bs| == |ms| && forall i :: 0 <= i < |ms| ==> bs[i] == M.Encode(ms[i])
    ensures forall b :: b in bs ==> |b| < 0x1_0000_0000
  {
    seq(|ms|, i requires 0 <= i < |ms| && Sendable(ms[i]) => M.Encode(ms[i]))
  }

  function StreamOf(ms: seq<M.Message>): bytes
    requires AllSendable(ms)
  {
    FramedAll(Bodies(ms))
  }

  lemma {:induction false} FramedAllSnoc(bodies: seq<bytes>, b: bytes)
    requires |b| < 0x1_0000_0000 && forall x :: x in bodies ==> |x| < 0x1_0000_0000
    ensures FramedAll(bodies + [b]) == FramedAll(bodies) + Framed(b)
  {
    hide Framed;
    if bodies == [] {
      assert bodies + [b] == [b] && [b][1..] == [];
      assert FramedAll([b]) == Framed(b) + [];
    } else {
      assert (bodies + [b])[1..] == bodies[1..] + [b];
      FramedAllSnoc(bodies[1..], b);
    }
  }

  lemma StreamSnoc(ms: seq<M.Message>, m: M.Message)
    requires AllSendable(ms) && Sendable(m)
    ensures AllSendable(ms + [m]) && StreamOf(ms + [m]) == StreamOf(ms) + Framed(M.Encode(m))
  {
    assert Bodies(ms + [m]) == Bodies(ms) + [M.Encode(m)];
    FramedAllSnoc(Bodies(ms), M.Encode(m));
  }

  // ---- The invariant ----

  /** No byte is lost, added or reordered between the queue, the wire and the reader. */
  ghost predicate Inv(c: Channel) {
    && SenderInv(c)
    && c.taken <= |c.wire| && Flatten(c.chunks) == c.wire[..c.taken]
    && c.reader.frames == []
    && |c.received| == Released(c.chunks) <= Complete(c.chunks)
    && c.received <= c.sent
    && c.reader.Pending() == AfterFrames(Flatten(c.chunks), |c.received|)
  }

  ghost predicate SenderInv(c: Channel) {
    && AllSendable(c.sent) && QueueValid(c.queue)
    && c.wire + Unsent(c.queue) == StreamOf(c.sent)
  }

  lemma SendKeepsInv(throws: Throws, c: Channel, m: M.Message)
    requires Inv(c) && Sendable(m)
    ensures Inv(Next(throws, c, Send(m)))
  {
    hide Unsent, StreamOf, Framed, M.Encode, M.Encodable, Complete, Released, AfterFrames, Reader.Pending, Flatten;
    var f := Framed(M.Encode(m));
    StreamSnoc(c.sent, m);
    UnsentSnoc(c.queue, f);
    Associative(c.wire, Unsent(c.queue), f);
  }

  lemma TransmitKeepsInv(throws: Throws, c: Channel, n: nat)
    requires Inv(c) && Enabled(c, Transmit(n))
    ensures Inv(Next(throws, c, Transmit(n)))
  {
    hide Unsent, StreamOf, Advance, Flatten, Complete, Released, AfterFrames;
    AdvanceUnsent(c.queue, n);
    var u := Unsent(c.queue);
    assert c.wire + u[..n] + u[n..] == c.wire + u;
  }

  /** The frame that a chunk completes decodes to the next message that was sent. */
  lemma NextMessage(c: Channel, s: bytes, k: nat)
    requires SenderInv(c) && s <= c.wire && k < |Frames(s)|
    ensures k < |c.sent| && M.Decode(Frames(s)[k]) == M.Done(c.sent[k], [])
  {
    hide M.Encode, M.Decode, Unsent, Frames, FramedAll, M.Encodable;
    assert s <= StreamOf(c.sent);
    FramesOfPrefix(s, Bodies(c.sent));
    M.RoundTrip(c.sent[k], []);
    assert M.Encode(c.sent[k]) + [] == M.Encode(c.sent[k]);
  }

  /** The message that a chunk completes, if it completes one, throws. */
  ghost predicate Disturbs(throws: Throws, c: Channel, before: seq<bytes>, after: seq<bytes>) {
    Released(before) < Released(after) <= |c.sent| && throws(c.sent[..Released(after)])
  }

  /** One chunk keeps everything in order, and throws exactly when the message it completes does. */
  lemma FeedKeepsInv(throws: Throws, c: Channel, chunk: bytes)
    requires Inv(c) && chunk <= c.wire[c.taken..]
    ensures Inv(FeedOne(throws, c, chunk).0)
    ensures FeedOne(throws, c, chunk).1 <==> !Disturbs(throws, c, c.chunks, c.chunks + [chunk])
    ensures var frames := c.reader.Write(chunk).frames; forall f :: f in frames ==> M.Decode(f).Done?
  {
    hide M.Encode, M.Decode, Unsent, Frames, FramedAll, AfterFrames, Reader.Write, Flatten, Collect;
    var s, k := Flatten(c.chunks), |c.received|;
    var chunks := c.chunks + [chunk];
    assert chunks[..|chunks| - 1] == c.chunks;
    assert s + chunk == c.wire[..c.taken + |chunk|];
    FlattenSnoc(c.chunks, chunk);
    DeframingLaw(chunks);
    ChunkLaw(c.reader, s, chunk, k);
    if k < |Frames(s + chunk)| {
      NextMessage(c, s + chunk, k);
      CollectOne(throws, c.received, Frames(s + chunk)[k], c.sent[k]);
      assert c.received + [c.sent[k]] == c.sent[..k + 1];
      assert c.reader.Write(chunk).frames == [Frames(s + chunk)[k]];
    } else {
      CollectNone(throws, c.received);
    }
  }

  lemma CollectOne(throws: Throws, received: seq<M.Message>, frame: bytes, m: M.Message)
    requires M.Decode(frame) == M.Done(m, [])
    ensures Collect(throws, received, [frame]) == Collected(received + [m], [], !throws(received + [m]))
  {
    hide M.Decode;
    assert [frame][1..] == [];
    assert Collect(throws, received + [m], []) == Collected(received + [m], [], true);
  }

  lemma CollectNone(throws: Throws, received: seq<M.Message>)
    ensures Collect(throws, received, []) == Collected(received, [], true)
  {
  }

  /**
    No message that throws is completed by a chunk of the event with more bytes behind it. This can be
    told from what was sent and how the bytes were cut.
   */
  ghost predicate Undisturbed(throws: Throws, c: Channel, bufs: seq<bytes>) {
    forall j :: 0 <= j < |bufs| ==> UndisturbedAt(throws, c, bufs, j)
  }

  ghost predicate UndisturbedAt(throws: Throws, c: Channel, bufs: seq<bytes>, j: nat)
    requires j < |bufs|
  {
    Disturbs(throws, c, c.chunks + bufs[..j], c.chunks + bufs[..j + 1]) ==> Flatten(bufs[j + 1..]) == []
  }

  lemma UndisturbedLater(throws: Throws, c: Channel, bufs: seq<bytes>, j: nat)
    requires 0 < j < |bufs|
    ensures UndisturbedAt(throws, c, bufs, j) <==>
      UndisturbedAt(throws, FeedOne(throws, c, bufs[0]).0, bufs[1..], j - 1)
  {
    hide Released, Flatten, Collect, Reader.Write;
    var rest := bufs[1..];
    assert c.chunks + [bufs[0]] + rest[..j - 1] == c.chunks + bufs[..j];
    assert c.chunks + [bufs[0]] + rest[..j] == c.chunks + bufs[..j + 1];
    assert rest[j..] == bufs[j + 1..];
  }

  /** The condition for an event, after its first chunk. */
  lemma UndisturbedTail(throws: Throws, c: Channel, bufs: seq<bytes>)
    requires bufs != []
    ensures var c1 := FeedOne(throws, c, bufs[0]).0;
      Undisturbed(throws, c, bufs) <==>
      (Disturbs(throws, c, c.chunks, c.chunks + [bufs[0]]) ==> Flatten(bufs[1..]) == []) &&
      Undisturbed(throws, c1, bufs[1..])
  {
    hide Disturbs, Flatten, FeedOne;
    var c1, rest := FeedOne(throws, c, bufs[0]).0, bufs[1..];
    assert c.chunks + bufs[..0] == c.chunks && bufs[..1] == [bufs[0]];
    forall j | 0 < j < |bufs|
      ensures UndisturbedAt(throws, c, bufs, j) <==> UndisturbedAt(throws, c1, rest, j - 1)
    {
      UndisturbedLater(throws, c, bufs, j);
    }
    if Undisturbed(throws, c, bufs) {
      assert UndisturbedAt(throws, c, bufs, 0);
      forall i | 0 <= i < |rest|
        ensures UndisturbedAt(throws, c1, rest, i)
      {
        assert UndisturbedAt(throws, c, bufs, i + 1);
      }
    }
  }

  /** Nothing behind nothing: where no bytes follow, none follow later. */
  lemma NothingBehind(throws: Throws, c: Channel, bufs: seq<bytes>)
    requires Flatten(bufs) == []
    ensures Undisturbed(throws, c, bufs)
  {
    forall j | 0 <= j < |bufs|
      ensures UndisturbedAt(throws, c, bufs, j)
    {
      assert bufs == bufs[..j + 1] + bufs[j + 1..];
      FlattenConcat(bufs[..j + 1], bufs[j + 1..]);
    }
  }

  /**
    A read event keeps the order exactly when it drops no byte, and it drops none exactly when nothing
    that throws is completed before its last bytes.
   */
  lemma {:induction false} FeedEventLaw(throws: Throws, c: Channel, bufs: seq<bytes>)
    requires Inv(c) && Enabled(c, Read(bufs))
    ensures var c' := FeedEvent(throws, c, bufs);
      && c'.wire == c.wire && c'.sent == c.sent && c'.queue == c.queue
      && c'.taken == c.taken + |Flatten(bufs)|
      && (Inv(c') <==> c'.Dropped() == 0)
      && (c'.Dropped() == 0 <==> Undisturbed(throws, c, bufs))
    decreases |bufs|
  {
    hide Inv, Disturbs, Undisturbed, Collect, Reader.Write, Flatten, FeedOne, Channel.Dropped;
    if bufs == [] {
      EmptyEvent(throws, c);
    } else {
      var (c1, ok) := FeedOne(throws, c, bufs[0]);
      FirstOfEvent(throws, c, bufs);
      FeedKeepsInv(throws, c, bufs[0]);
      UndisturbedTail(throws, c, bufs);
      if ok {
        FeedEventLaw(throws, c1, bufs[1..]);
      } else {
        RestIsDropped(throws, c1, bufs[1..]);
      }
    }
  }

  lemma EmptyEvent(throws: Throws, c: Channel)
    requires Inv(c)
    ensures |Flatten([])| == 0 && c.Dropped() == 0 && Undisturbed(throws, c, [])
  {
  }

  lemma FirstOfEvent(throws: Throws, c: Channel, bufs: seq<bytes>)
    requires bufs != [] && Enabled(c, Read(bufs))
    ensures |Flatten(bufs)| == |bufs[0]| + |Flatten(bufs[1..])|
    ensures bufs[0] <= c.wire[c.taken..] && Enabled(FeedOne(throws, c, bufs[0]).0, Read(bufs[1..]))
    ensures var c1 := FeedOne(throws, c, bufs[0]).0;
      && c1.wire == c.wire && c1.sent == c.sent && c1.queue == c.queue && c1.taken == c.taken + |bufs[0]|
  {
    hide Collect, Reader.Write;
    Behead(c.wire[c.taken..], bufs[0], Flatten(bufs[1..]));
    assert c.wire[c.taken..][|bufs[0]|..] == c.wire[c.taken + |bufs[0]|..];
  }

  lemma RestIsDropped(throws: Throws, c: Channel, rest: seq<bytes>)
    requires Inv(c)
    ensures var c' := c.(taken := c.taken + |Flatten(rest)|);
      && (c'.Dropped() == 0 <==> Flatten(rest) == [])
      && (Inv(c') <==> c'.Dropped() == 0)
    ensures Flatten(rest) == [] ==> Undisturbed(throws, c, rest)
  {
    hide SenderInv, Released, Complete, AfterFrames, Reader.Pending;
    if Flatten(rest) == [] {
      NothingBehind(throws, c, rest);
    }
  }

  lemma Behead(s: bytes, a: bytes, b: bytes)
    requires a + b <= s
    ensures a <= s && b <= s[|a|..]
  {
    assert s == (a + b) + s[|a + b|..];
  }

  // ---- Every run ----

  /** What has been dropped stays dropped. */
  lemma DroppedStays(throws: Throws, c: Channel, s: Step)
    requires Enabled(c, s)
    ensures Next(throws, c, s).Dropped() >= c.Dropped()
  {
    match s
    case Read(bufs) => FeedEventDrops(throws, c, bufs);
    case _ =>
  }

  lemma {:induction false} FeedEventDrops(throws: Throws, c: Channel, bufs: seq<bytes>)
    ensures FeedEvent(throws, c, bufs).Dropped() >= c.Dropped()
    decreases |bufs|
  {
    if bufs != [] {
      hide Collect, Reader.Write;
      FlattenSnoc(c.chunks, bufs[0]);
      FeedEventDrops(throws, FeedOne(throws, c, bufs[0]).0, bufs[1..]);
    }
  }

  /** Every read event of a run is undisturbed. */
  ghost predicate Quiet(throws: Throws, steps: seq<Step>) {
    steps == [] ||
    (Quiet(throws, steps[..|steps| - 1]) &&
     QuietStep(throws, Run(throws, steps[..|steps| - 1]), steps[|steps| - 1]))
  }

  ghost predicate QuietStep(throws: Throws, c: Channel, s: Step) {
    s.Read? && Enabled(c, s) ==> Undisturbed(throws, c, s.bufs)
  }

  /** Over every schedule the order is kept exactly as long as no read event is disturbed. */
  lemma {:induction false} RunKeepsInv(throws: Throws, steps: seq<Step>)
    ensures Run(throws, steps).Dropped() >= 0
    ensures Inv(Run(throws, steps)) <==> Quiet(throws, steps)
    ensures Run(throws, steps).Dropped() == 0 <==> Quiet(throws, steps)
  {
    hide Inv, QuietStep, Channel.Dropped, Enabled, Next;
    if steps == [] {
      StartsInOrder(throws);
    } else {
      var c, s := Run(throws, steps[..|steps| - 1]), steps[|steps| - 1];
      RunKeepsInv(throws, steps[..|steps| - 1]);
      if Enabled(c, s) {
        StepKeepsOrder(throws, c, s);
      } else {
        NothingHappens(throws, c, s);
      }
    }
  }

  lemma StartsInOrder(throws: Throws)
    ensures Inv(CLOSED_LOOP) && CLOSED_LOOP.Dropped() == 0 && Quiet(throws, [])
  {
  }

  lemma NothingHappens(throws: Throws, c: Channel, s: Step)
    requires !Enabled(c, s)
    ensures QuietStep(throws, c, s)
  {
  }

  lemma StepKeepsOrder(throws: Throws, c: Channel, s: Step)
    requires c.Dropped() >= 0 && (Inv(c) <==> c.Dropped() == 0) && Enabled(c, s)
    ensures var c' := Next(throws, c, s);
      && c'.Dropped() >= 0
      && (Inv(c') <==> c'.Dropped() == 0)
      && (c'.Dropped() == 0 <==> c.Dropped() == 0 && QuietStep(throws, c, s))
  {
    hide Undisturbed, SenderInv, Complete, Released, AfterFrames, Advance, Unsent, FeedEvent;
    DroppedStays(throws, c, s);
    if c.Dropped() == 0 {
      match s
      case Send(m) => SendKeepsInv(throws, c, m);
      case Transmit(n) => TransmitKeepsInv(throws, c, n);
      case Read(bufs) => FeedEventLaw(throws, c, bufs);
    }
  }

  /** Events of one chunk each are never disturbed, whatever throws. */
  lemma {:induction false} SingleChunksAreQuiet(throws: Throws, steps: seq<Step>)
    requires forall s :: s in steps && s.Read? ==> |s.bufs| <= 1
    ensures Quiet(throws, steps)
  {
    if steps != [] {
      SingleChunksAreQuiet(throws, steps[..|steps| - 1]);
      assert steps[|steps| - 1] in steps;
    }
  }

  // ---- End to end ----

  /**
    For every schedule of sends, partial writes and undisturbed reads, what was received is a prefix of
    what was sent, and its length is the number of frames that the chunks read so far have released.
   */
  lemma EndToEnd(throws: Throws, steps: seq<Step>)
    requires Quiet(throws, steps)
    ensures var c := Run(throws, steps);
      && c.received <= c.sent
      && |c.received| == Released(c.chunks)
      && c.taken <= |c.wire| && Flatten(c.chunks) == c.wire[..c.taken]
  {
    RunKeepsInv(throws, steps);
  }

  /** Once every byte has been read, everything has been received exactly when no chunk list lagged. */
  lemma AllReceived(throws: Throws, steps: seq<Step>)
    requires Quiet(throws, steps)
    requires var c := Run(throws, steps); QueueValid(c.queue) && Unsent(c.queue) == [] && c.taken == |c.wire|
    ensures var c := Run(throws, steps);
      c.received == c.sent <==>
      forall j :: 0 <= j <= |c.chunks| ==> Complete(c.chunks) - Complete(c.chunks[..j]) <= |c.chunks| - j
  {
    hide Run, Quiet, Unsent, Flatten, Frames, FramedAll, AfterFrames, M.Encode, M.Encodable, Reader.Pending;
    var c := Run(throws, steps);
    RunKeepsInv(throws, steps);
    assert c.wire == StreamOf(c.sent) && Flatten(c.chunks) == c.wire;
    FramesOfPrefix(c.wire, Bodies(c.sent));
    NothingLags(c.chunks);
  }

  // ---- A message that is lost ----

  /** A reader with nothing pending takes a frame that comes as one chunk. */
  lemma WholeFrame(throws: Throws, c: Channel, m: M.Message)
    requires Sendable(m) && c.reader == IDLE
    ensures var f := Framed(M.Encode(m));
      FeedOne(throws, c, f) ==
        (c.(taken := c.taken + |f|, chunks := c.chunks + [f], received := c.received + [m]),
         !throws(c.received + [m]))
  {
    hide M.Encode, M.Decode, Framed, Frames, Reader.Write, Collect, M.Encodable;
    var body := M.Encode(m);
    var f := Framed(body);
    assert f + [] == f && body + [] == body && IDLE.Pending() + f == f;
    FramesOfFramed(body, []);
    WriteLaw(IDLE, f);
    assert IDLE.Write(f).frames == [body];
    M.RoundTrip(m, []);
    CollectOne(throws, c.received, body, m);
    NothingPending(IDLE.Write(f));
  }

  lemma NothingPending(r: Reader)
    requires r.Pending() == []
    ensures r.(frames := []) == IDLE
  {
  }

  /** Three messages and four events: the first message throws, the second one shares its event. */
  function ThreeMessages(m1: M.Message, m2: M.Message, m3: M.Message): seq<Step>
    requires Sendable(m1) && Sendable(m2) && Sendable(m3)
  {
    var f1, f2, f3 := Framed(M.Encode(m1)), Framed(M.Encode(m2)), Framed(M.Encode(m3));
    [Send(m1), Send(m2), Send(m3), Transmit(|f1 + (f2 + f3)|), Read([f1, f2]), Read([f3])]
  }

  lemma RunSnoc(throws: Throws, steps: seq<Step>, s: Step)
    ensures var c := Run(throws, steps);
      Run(throws, steps + [s]) == if Enabled(c, s) then Next(throws, c, s) else c
    ensures steps == [] ==> Run(throws, steps) == CLOSED_LOOP
  {
    assert (steps + [s])[..|steps|] == steps;
  }

  lemma ThreeSent(throws: Throws, m1: M.Message, m2: M.Message, m3: M.Message)
    requires Sendable(m1) && Sendable(m2) && Sendable(m3)
    ensures var f1, f2, f3 := Framed(M.Encode(m1)), Framed(M.Encode(m2)), Framed(M.Encode(m3));
      var c := Run(throws, ThreeMessages(m1, m2, m3)[..3]);
      c == CLOSED_LOOP.(sent := [m1, m2, m3], queue := [Queued(f1, 0), Queued(f2, 0), Queued(f3, 0)])
  {
    hide Run, M.Encode, Framed, FeedEvent, Advance, Unsent, Flatten;
    var q := ThreeMessages(m1, m2, m3);
    assert q[..1] == [] + [Send(m1)] && q[..2] == q[..1] + [Send(m2)] && q[..3] == q[..2] + [Send(m3)];
    RunSnoc(throws, [], Send(m1));
    RunSnoc(throws, q[..1], Send(m2));
    RunSnoc(throws, q[..2], Send(m3));
  }

  lemma ThreeUnsent(m1: M.Message, m2: M.Message, m3: M.Message)
    requires Sendable(m1) && Sendable(m2) && Sendable(m3)
    ensures var f1, f2, f3 := Framed(M.Encode(m1)), Framed(M.Encode(m2)), Framed(M.Encode(m3));
      var q := [Queued(f1, 0), Queued(f2, 0), Queued(f3, 0)];
      QueueValid(q) && Unsent(q) == f1 + (f2 + f3)
  {
    hide M.Encode, M.Encodable, Framed;
    var f1, f2, f3 := Framed(M.Encode(m1)), Framed(M.Encode(m2)), Framed(M.Encode(m3));
    UnsentSnoc([], f1);
    UnsentSnoc([Queued(f1, 0)], f2);
    UnsentSnoc([Queued(f1, 0), Queued(f2, 0)], f3);
    assert [] + [Queued(f1, 0)] == [Queued(f1, 0)];
    assert [Queued(f1, 0)] + [Queued(f2, 0)] == [Queued(f1, 0), Queued(f2, 0)];
    assert [Queued(f1, 0), Queued(f2, 0)] + [Queued(f3, 0)] == [Queued(f1, 0), Queued(f2, 0), Queued(f3, 0)];
    assert Unsent([]) == [] && [] + f1 == f1;
    Associative(f1, f2, f3);
  }

  lemma ThreeAccepted(throws: Throws, m1: M.Message, m2: M.Message, m3: M.Message)
    requires Sendable(m1) && Sendable(m2) && Sendable(m3)
    ensures var f1, f2, f3 := Framed(M.Encode(m1)), Framed(M.Encode(m2)), Framed(M.Encode(m3));
      var c := Run(throws, ThreeMessages(m1, m2, m3)[..4]);
      && c.sent == [m1, m2, m3] && c.wire == f1 + (f2 + f3) && c.taken == 0
      && c.reader == IDLE && c.chunks == [] && c.received == []
  {
    hide Run, M.Encode, M.Encodable, Framed, FeedEvent, Advance, Unsent, Flatten, QueueValid;
    var q := ThreeMessages(m1, m2, m3);
    assert q[..4] == q[..3] + [q[3]];
    ThreeSent(throws, m1, m2, m3);
    ThreeUnsent(m1, m2, m3);
    RunSnoc(throws, q[..3], q[3]);
    var u := Unsent(Run(throws, q[..3]).queue);
    assert u[..|u|] == u && [] + u == u;
  }

  /** Of two frames in one event the second is destroyed when the first one's message throws. */
  lemma SecondFrameLost(throws: Throws, c: Channel, m: M.Message, f: bytes)
    requires Sendable(m) && c.reader == IDLE && throws(c.received + [m])
    ensures var f1 := Framed(M.Encode(m));
      FeedEvent(throws, c, [f1, f]) ==
        c.(taken := c.taken + |f1| + |f|, chunks := c.chunks + [f1], received := c.received + [m])
  {
    hide M.Encode, M.Encodable, Framed, FeedOne;
    var f1 := Framed(M.Encode(m));
    WholeFrame(throws, c, m);
    FlattenSnoc([], f);
    assert [f1, f][1..] == [f] && [] + [f] == [f];
  }

  lemma LoneFrame(throws: Throws, c: Channel, m: M.Message)
    requires Sendable(m) && c.reader == IDLE
    ensures var f := Framed(M.Encode(m)); var c' := FeedEvent(throws, c, [f]);
      c'.received == c.received + [m] && c'.taken == c.taken + |f| && c'.sent == c.sent && c'.wire == c.wire
  {
    hide M.Encode, M.Encodable, Framed, FeedOne;
    var f := Framed(M.Encode(m));
    WholeFrame(throws, c, m);
    var bufs: seq<bytes> := [f];
    assert bufs[1..] == [];
  }

  /**
    A disturbed run: the second message is destroyed with its chunk, the third one arrives in its place,
    and what was received is no prefix of what was sent.
   */
  lemma LostMessage(throws: Throws, m1: M.Message, m2: M.Message, m3: M.Message)
    requires Sendable(m1) && Sendable(m2) && Sendable(m3) && m2 != m3
    requires throws([m1])
    ensures var c := Run(throws, ThreeMessages(m1, m2, m3));
      c.sent == [m1, m2, m3] && c.received == [m1, m3] && !(c.received <= c.sent) && c.taken == |c.wire|
  {
    hide Run, M.Encode, M.Encodable, Framed, FeedEvent, Flatten, FeedOne;
    var q := ThreeMessages(m1, m2, m3);
    var f1, f2, f3 := Framed(M.Encode(m1)), Framed(M.Encode(m2)), Framed(M.Encode(m3));
    assert q[..5] == q[..4] + [Read([f1, f2])] && q == q[..5] + [Read([f3])];
    ThreeAccepted(throws, m1, m2, m3);
    RunSnoc(throws, q[..4], Read([f1, f2]));
    RunSnoc(throws, q[..5], Read([f3]));
    TwoChunks(f1, f2, f3);
    assert [] + [m1] == [m1] && [m1] + [m3] == [m1, m3];
    SecondFrameLost(throws, Run(throws, q[..4]), m1, f2);
    LoneFrame(throws, Run(throws, q[..5]), m3);
    assert [m1, m3][1] == m3 && [m1, m2, m3][1] == m2;
  }

  lemma TwoChunks(f1: bytes, f2: bytes, f3: bytes)
    ensures Flatten([f1, f2]) == f1 + f2 && Flatten([f3]) == f3
    ensures var wire := f1 + (f2 + f3);
      f1 + f2 <= wire[0..] && wire[|f1| + |f2|..] == f3
  {
    FlattenSnoc([], f1);
    FlattenSnoc([], f3);
    FlattenSnoc([f1], f2);
    assert [f1] + [f2] == [f1, f2] && [] + [f1] == [f1] && [] + [f3] == [f3];
    assert f1 + (f2 + f3) == (f1 + f2) + f3;
  }
}
