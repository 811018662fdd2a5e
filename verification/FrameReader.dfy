/**
  Incremental deframing: a byte stream of length-prefixed frames arrives in arbitrary chunks, and
  every chunk releases at most one frame.
 */
module FrameReaders {
  import opened Bytes
  import opened FrameBuffers

  // ---- The stream, independently of any chunking ----

  /** A frame on the wire. */
  function Framed(body: bytes): bytes
    requires |body| < 0x1_0000_0000
  {
    U32ToBytes(|body|) + body
  }

  predicate HasFrame(s: bytes) {
    |s| >= 4 && |s| - 4 >= U32FromBytes(s[..4])
  }

  function FirstFrame(s: bytes): (f: bytes)
    requires HasFrame(s)
    ensures |f| < 0x1_0000_0000
  {
    s[4..4 + U32FromBytes(s[..4])]
  }

  function AfterFirst(s: bytes): (r: bytes)
    requires HasFrame(s)
    ensures |r| < |s|
  {
    s[4 + U32FromBytes(s[..4])..]
  }

  /** The complete frames of a byte string, in order. */
  function Frames(s: bytes): seq<bytes> {
    if HasFrame(s) then [FirstFrame(s)] + Frames(AfterFirst(s)) else []
  }

  /** What is left of a byte string after its first `n` frames. */
  function AfterFrames(s: bytes, n: nat): bytes
    requires n <= |Frames(s)|
    decreases n
  {
    if n == 0 then s else AfterFrames(AfterFirst(s), n - 1)
  }

  // ---- The reader ----

  /** The observable state of a reader: pending length, unread bytes, frames not yet collected. */
  datatype Reader = Reader(len: Option<uint32>, buffered: bytes, frames: seq<bytes>) {

    /** The bytes received that belong to no released frame. */
    function Pending(): bytes {
      (if len.Some? then U32ToBytes(len.value) else []) + buffered
    }

    function Write(chunk: bytes): Reader {
      this.(buffered := buffered + chunk).ReadLength().TakeFrame()
    }

    function ReadLength(): Reader {
      if len == None && |buffered| >= 4
      then Reader(Some(U32FromBytes(buffered[..4])), buffered[4..], frames)
      else this
    }

    function TakeFrame(): Reader {
      if len.Some? && |buffered| >= len.value
      then Reader(None, buffered[len.value..], frames + [buffered[..len.value]])
      else this
    }
  }

  const IDLE := Reader(None, [], [])

  class FrameReader {
    var len: Option<uint32>
    var fbuf: FrameBuffer
    var frames: seq<bytes>

    ghost predicate Valid()
      reads this, fbuf
    {
      fbuf.Valid()
    }

    ghost function State(): Reader
      requires Valid()
      reads this, fbuf
    {
      Reader(len, fbuf.Contents(), frames)
    }

    constructor ()
      ensures Valid() && fresh(fbuf) && State() == IDLE && fbuf.data == []
    {
      len, frames := None, [];
      fbuf := new FrameBuffer();
    }

    /** The buffer measures itself in a 32-bit int, hence the bound. */
    method Write(buf: bytes) returns (ready: bool)
      requires Valid() && fbuf.Retained() + |buf| < 0x8000_0000
      modifies this, fbuf
      ensures Valid() && fbuf == old(fbuf) && fbuf.Retained() <= old(fbuf.Retained()) + |buf|
      ensures State() == old(State()).Write(buf)
      ensures ready <==> State().frames != []
    {
      hide Flatten, U32FromBytes, FrameBuffer.Retained, FrameBuffer.Contents, FrameBuffer.Valid;
      fbuf.Write(buf);
      var size := fbuf.Size();
      if len == None && size >= 4 {
        var header := fbuf.Read(4);
        len := Some(U32FromBytes(header));
      }
      assert State() == old(State().(buffered := State().buffered + buf).ReadLength());
      size := fbuf.Size();
      if len.Some? && size >= len.value {
        var frame := fbuf.Read(len.value);
        frames := frames + [frame];
        len := None;
      }
      return frames != [];
    }

    predicate HasFrame()
      reads this
    {
      frames != []
    }

    method Read() returns (frame: FrameBuffer)
      requires Valid() && HasFrame()
      modifies this`frames
      ensures Valid() && frames == old(frames)[1..]
      ensures fresh(frame) && frame.Valid() && frame.offset == 0 && frame.Contents() == old(frames)[0]
    {
      frame := new FrameBuffer.From(frames[0]);
      frames := frames[1..];
    }
  }

  // ---- The law of one write ----

  /** A write releases the first complete frame of what is pending, if there is one, and no other. */
  lemma WriteLaw(r: Reader, chunk: bytes)
    ensures var s := r.Pending() + chunk;
      if HasFrame(s)
      then r.Write(chunk).frames == r.frames + [FirstFrame(s)] && r.Write(chunk).Pending() == AfterFirst(s)
      else r.Write(chunk).frames == r.frames && r.Write(chunk).Pending() == s
  {
    var s := r.Pending() + chunk;
    var all := r.buffered + chunk;
    if r.len.Some? {
      U32RoundTrip(r.len.value);
      assert s == U32ToBytes(r.len.value) + all;
      assert s[..4] == U32ToBytes(r.len.value) && s[4..] == all;
    } else {
      assert s == all;
      if |s| >= 4 {
        U32BytesRoundTrip(s[..4]);
        assert s == s[..4] + s[4..];
      }
    }
    if HasFrame(s) {
      var n := U32FromBytes(s[..4]);
      assert s[4..][..n] == FirstFrame(s) && s[4..][n..] == AfterFirst(s);
    }
  }

  // ---- The stream grows ----

  lemma {:induction false} MoreBytes(s: bytes, more: bytes)
    ensures Frames(s) <= Frames(s + more)
    ensures AfterFrames(s + more, |Frames(s)|) == AfterFrames(s, |Frames(s)|) + more
    decreases |s|
  {
    if HasFrame(s) {
      FirstOfMore(s, more);
      MoreBytes(AfterFirst(s), more);
    }
  }

  lemma FirstOfMore(s: bytes, more: bytes)
    requires HasFrame(s)
    ensures HasFrame(s + more) && FirstFrame(s + more) == FirstFrame(s)
    ensures AfterFirst(s + more) == AfterFirst(s) + more
  {
    assert (s + more)[..4] == s[..4];
  }

  /** Skipping frames one after the other. */
  lemma {:induction false} FramesAfter(s: bytes, n: nat)
    requires n <= |Frames(s)|
    ensures Frames(AfterFrames(s, n)) == Frames(s)[n..]
    decreases n
  {
    if n > 0 {
      FramesAfter(AfterFirst(s), n - 1);
      assert Frames(s)[n..] == Frames(AfterFirst(s))[n - 1..];
    }
  }

  lemma {:induction false} NextFrame(s: bytes, n: nat)
    requires n < |Frames(s)|
    ensures HasFrame(AfterFrames(s, n)) && FirstFrame(AfterFrames(s, n)) == Frames(s)[n]
    ensures AfterFrames(s, n + 1) == AfterFirst(AfterFrames(s, n))
    decreases n
  {
    if n == 0 {
      assert AfterFrames(AfterFirst(s), 0) == AfterFirst(s);
    } else {
      NextFrame(AfterFirst(s), n - 1);
    }
  }

  lemma {:induction false} AfterMore(s: bytes, more: bytes, n: nat)
    requires n <= |Frames(s)|
    ensures n <= |Frames(s + more)| && AfterFrames(s + more, n) == AfterFrames(s, n) + more
    decreases n
  {
    MoreBytes(s, more);
    if n > 0 {
      FirstOfMore(s, more);
      AfterMore(AfterFirst(s), more, n - 1);
    }
  }

  // ---- The law of a run ----

  /** A reader after a list of chunks, none of its frames collected. */
  function Fed(chunks: seq<bytes>): Reader {
    if chunks == [] then IDLE else Fed(chunks[..|chunks| - 1]).Write(chunks[|chunks| - 1])
  }

  function Min(a: int, b: int): int { if a < b then a else b }

  /** How many frames are complete in the bytes received, and how many of them were released. */
  function Complete(chunks: seq<bytes>): nat { |Frames(Flatten(chunks))| }

  function Released(chunks: seq<bytes>): nat { |Fed(chunks).frames| }

  /** The released frames are a prefix of the complete ones and the rest is pending. */
  ghost predicate InStep(chunks: seq<bytes>) {
    && Released(chunks) <= Complete(chunks)
    && Fed(chunks).frames == Frames(Flatten(chunks))[..Released(chunks)]
    && Fed(chunks).Pending() == AfterFrames(Flatten(chunks), Released(chunks))
  }

  /**
    The law of deframing, for every stream and every chunking: a chunk releases one more frame
    exactly when a complete frame is waiting.
   */
  lemma {:induction false} DeframingLaw(chunks: seq<bytes>)
    ensures InStep(chunks)
    ensures chunks != [] ==>
      Released(chunks) == Min(Complete(chunks), Released(chunks[..|chunks| - 1]) + 1)
  {
    if chunks != [] {
      DeframingLaw(chunks[..|chunks| - 1]);
      StaysInStep(chunks);
    }
  }

  lemma StaysInStep(chunks: seq<bytes>)
    requires chunks != [] && InStep(chunks[..|chunks| - 1])
    ensures InStep(chunks)
    ensures Released(chunks) == Min(Complete(chunks), Released(chunks[..|chunks| - 1]) + 1)
  {
    hide Frames, AfterFrames, Reader.Write, Reader.Pending, Flatten;
    var before, chunk := chunks[..|chunks| - 1], chunks[|chunks| - 1];
    assert chunks == before + [chunk];
    FlattenSnoc(before, chunk);
    ChunkLaw(Fed(before), Flatten(before), chunk, Released(before));
    MoreBytes(Flatten(before), chunk);
  }

  /** One chunk more, for a reader that has released `n` frames of the bytes `s` received so far. */
  lemma ChunkLaw(r: Reader, s: bytes, chunk: bytes, n: nat)
    requires n <= |Frames(s)| && r.Pending() == AfterFrames(s, n)
    ensures var all := Frames(s + chunk);
      && n <= |all|
      && r.Write(chunk).frames == r.frames + (if n < |all| then [all[n]] else [])
      && r.Write(chunk).Pending() == AfterFrames(s + chunk, Min(|all|, n + 1))
  {
    WriteLaw(r, chunk);
    MoreBytes(s, chunk);
    AfterMore(s, chunk, n);
    FramesAfter(s + chunk, n);
    if n < |Frames(s + chunk)| {
      NextFrame(s + chunk, n);
    }
  }

  // ---- When nothing lags ----

  lemma {:induction false} LagBound(chunks: seq<bytes>, j: nat)
    requires j <= |chunks|
    ensures Released(chunks) <= Complete(chunks[..j]) + |chunks| - j
  {
    DeframingLaw(chunks);
    if j == |chunks| {
      assert chunks[..j] == chunks;
    } else {
      var before := chunks[..|chunks| - 1];
      LagBound(before, j);
      assert before[..j] == chunks[..j];
    }
  }

  /** The last moment at which no frame was waiting accounts for the number released since. */
  lemma {:induction false} CaughtUp(chunks: seq<bytes>) returns (j: nat)
    ensures j <= |chunks| && Released(chunks) == Complete(chunks[..j]) + |chunks| - j
  {
    DeframingLaw(chunks);
    j := |chunks|;
    assert chunks[..j] == chunks;
    if Released(chunks) != Complete(chunks) {
      var before := chunks[..|chunks| - 1];
      j := CaughtUp(before);
      assert before[..j] == chunks[..j];
    }
  }

  /**
    No complete frame is left waiting exactly when no tail of the chunks completes more frames
    than it has chunks.
   */
  lemma NothingLags(chunks: seq<bytes>)
    ensures Released(chunks) == Complete(chunks)
      <==> forall j :: 0 <= j <= |chunks| ==> Complete(chunks) - Complete(chunks[..j]) <= |chunks| - j
  {
    DeframingLaw(chunks);
    forall j | 0 <= j <= |chunks|
      ensures Released(chunks) <= Complete(chunks[..j]) + |chunks| - j
    {
      LagBound(chunks, j);
    }
    var j := CaughtUp(chunks);
    assert 0 <= j <= |chunks|;
  }

  /** The smallest lag: two frames in one chunk, of which one stays behind. */
  lemma TwoFramesInOneChunk(a: bytes, b: bytes)
    requires |a| < 0x1_0000_0000 && |b| < 0x1_0000_0000
    ensures var chunks := [Framed(a) + Framed(b)]; Complete(chunks) == 2 && Released(chunks) == 1
  {
    var s := Framed(a) + Framed(b);
    assert Framed(b) == Framed(b) + [];
    FramesOfFramed(a, Framed(b));
    FramesOfFramed(b, []);
    FlattenSnoc([], s);
    assert [] + [s] == [s] && Flatten([s]) == s;
    assert Frames(s) == [a] + [b];
    DeframingLaw([s]);
    var chunks := [s];
    assert chunks[..0] == [];
    assert Released(chunks[..0]) == 0;
  }

  // ---- A stream of frames ----

  lemma FramesOfFramed(body: bytes, rest: bytes)
    requires |body| < 0x1_0000_0000
    ensures HasFrame(Framed(body) + rest)
    ensures FirstFrame(Framed(body) + rest) == body && AfterFirst(Framed(body) + rest) == rest
    ensures Frames(Framed(body) + rest) == [body] + Frames(rest)
  {
    var s := Framed(body) + rest;
    U32RoundTrip(|body|);
    assert s[..4] == U32ToBytes(|body|);
    assert s[4..4 + |body|] == body && s[4 + |body|..] == rest;
  }

  function FramedAll(bodies: seq<bytes>): bytes
    requires forall b :: b in bodies ==> |b| < 0x1_0000_0000
  {
    if bodies == [] then [] else Framed(bodies[0]) + FramedAll(bodies[1..])
  }

  /** Whatever part of a stream of frames has arrived, its complete frames are the first ones sent. */
  lemma {:induction false} FramesOfPrefix(p: bytes, bodies: seq<bytes>)
    requires forall b :: b in bodies ==> |b| < 0x1_0000_0000
    requires p <= FramedAll(bodies)
    ensures Frames(p) <= bodies
    ensures p == FramedAll(bodies) ==> Frames(p) == bodies
    decreases |bodies|
  {
    if bodies != [] {
      var body, rest := bodies[0], bodies[1..];
      FramesOfFramed(body, FramedAll(rest));
      if HasFrame(p) {
        FirstOfPrefix(p, body, FramedAll(rest));
        FramesOfPrefix(AfterFirst(p), rest);
        assert bodies == [body] + rest;
        assert Frames(p) == [body] + Frames(AfterFirst(p));
      }
    }
  }

  lemma FirstOfPrefix(p: bytes, body: bytes, rest: bytes)
    requires |body| < 0x1_0000_0000 && HasFrame(p) && p <= Framed(body) + rest
    ensures FirstFrame(p) == body && AfterFirst(p) <= rest
    ensures p == Framed(body) + rest ==> AfterFirst(p) == rest
  {
    var all := Framed(body) + rest;
    FramesOfFramed(body, rest);
    assert all == p + all[|p|..];
    FirstOfMore(p, all[|p|..]);
  }
}
