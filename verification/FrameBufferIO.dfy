/** The stream operators on a frame buffer, each against the pure codec. */
module FrameBufferIO {
  import opened Bytes
  import opened FrameBuffers
  import opened Messages
  import opened WireFormat
  import FrameReaders

  datatype WriteError = SizeTooBig

  datatype ReadError = InvalidMessageType

  type Written = Result<(), WriteError>

  // ---- Writing ----

  method WriteChar(f: FrameBuffer, c: byte)
    requires f.Valid()
    modifies f
    ensures f.Valid() && f.Contents() == old(f.Contents()) + [c] && f.offset == old(f.offset)
  {
    f.Write([c]);
  }

  method WriteBool(f: FrameBuffer, b: bool)
    requires f.Valid()
    modifies f
    ensures f.Valid() && f.Contents() == old(f.Contents()) + EncBool(b) && f.offset == old(f.offset)
  {
    WriteChar(f, if b then 1 else 0);
  }

  method WriteU32(f: FrameBuffer, n: uint32)
    requires f.Valid()
    modifies f
    ensures f.Valid() && f.Contents() == old(f.Contents()) + U32ToBytes(n) && f.offset == old(f.offset)
  {
    f.Write(U32ToBytes(n));
  }

  method WriteInt32(f: FrameBuffer, i: int32)
    requires f.Valid()
    modifies f
    ensures f.Valid() && f.Contents() == old(f.Contents()) + EncInt32(i) && f.offset == old(f.offset)
  {
    WriteU32(f, i as int % 0x1_0000_0000);
  }

  method WriteSize(f: FrameBuffer, n: nat) returns (r: Written)
    requires f.Valid()
    modifies f
    ensures f.Valid() && f.offset == old(f.offset)
    ensures r.Ok? <==> n < 0x1_0000_0000
    ensures r.Ok? ==> f.Contents() == old(f.Contents()) + U32ToBytes(n)
  {
    if n > 0xFFFF_FFFF {
      return Err(SizeTooBig);
    }
    WriteU32(f, n);
    return Ok(());
  }

  method WriteString(f: FrameBuffer, s: bytes) returns (r: Written)
    requires f.Valid()
    modifies f
    ensures f.Valid() && f.offset == old(f.offset)
    ensures r.Ok? <==> Fits(s)
    ensures r.Ok? ==> f.Contents() == old(f.Contents()) + EncString(s)
  {
    var _ :- WriteSize(f, |s|);
    f.Write(s);
    return Ok(());
  }

  /** A vector of chars goes out one fragment a char, but as the same bytes as a string. */
  method WriteChars(f: FrameBuffer, v: bytes) returns (r: Written)
    requires f.Valid()
    modifies f
    ensures f.Valid() && f.offset == old(f.offset)
    ensures r.Ok? <==> Fits(v)
    ensures r.Ok? ==> f.Contents() == old(f.Contents()) + EncString(v)
  {
    var _ :- WriteSize(f, |v|);
    for i := 0 to |v|
      invariant f.Valid() && f.offset == old(f.offset)
      invariant f.Contents() == old(f.Contents()) + U32ToBytes(|v|) + v[..i]
    {
      WriteChar(f, v[i]);
    }
    return Ok(());
  }

  method WritePacket(f: FrameBuffer, p: DataPacket) returns (r: Written)
    requires f.Valid()
    modifies f
    ensures f.Valid() && f.offset == old(f.offset)
    ensures r.Ok? <==> PacketFits(p)
    ensures r.Ok? ==> f.Contents() == old(f.Contents()) + EncPacket(p)
  {
    hide EncString, EncInt32;
    WriteInt32(f, p.entitlement);
    var _ :- WriteString(f, p.contentType);
    var _ :- WriteChars(f, p.data);
    return Ok(());
  }

  method WritePackets(f: FrameBuffer, ps: seq<DataPacket>) returns (r: Written)
    requires f.Valid()
    modifies f
    ensures f.Valid() && f.offset == old(f.offset)
    ensures r.Ok? <==> PacketsFit(ps)
    ensures r.Ok? ==> f.Contents() == old(f.Contents()) + EncPackets(ps)
  {
    assert EncPacketList(ps[..0]) == [];
    hide EncPacket, EncPacketList, PacketFits;
    var _ :- WriteSize(f, |ps|);
    ghost var head := f.Contents();
    for i := 0 to |ps|
      invariant f.Valid() && f.offset == old(f.offset)
      invariant forall p :: p in ps[..i] ==> PacketFits(p)
      invariant f.Contents() == head + EncPacketList(ps[..i])
    {
      var _ :- WritePacket(f, ps[i]);
      assert ps[..i + 1] == ps[..i] + [ps[i]];
      PacketListSnoc(ps[..i], ps[i]);
      Associative(head, EncPacketList(ps[..i]), EncPacket(ps[i]));
    }
    assert ps[..|ps|] == ps;
    Join(old(f.Contents()), U32ToBytes(|ps|), EncPacketList(ps), [], [], []);
    return Ok(());
  }

  lemma {:induction false} PacketListSnoc(ps: seq<DataPacket>, p: DataPacket)
    requires PacketFits(p) && forall q :: q in ps ==> PacketFits(q)
    ensures EncPacketList(ps + [p]) == EncPacketList(ps) + EncPacket(p)
  {
    hide EncPacket;
    if ps == [] {
      assert [] + [p] == [p] && [p][1..] == [];
    } else {
      assert (ps + [p])[1..] == ps[1..] + [p];
      PacketListSnoc(ps[1..], p);
    }
  }

  /** Appending one after the other is appending the concatenation. */
  lemma Join(s: bytes, a: bytes, b: bytes, c: bytes, d: bytes, e: bytes)
    ensures s + a + b == s + (a + b)
    ensures s + a + b + c == s + (a + (b + c))
    ensures s + a + b + c + d == s + (a + (b + (c + d)))
    ensures s + a + b + c + d + e == s + (a + (b + (c + (d + e))))
  {
  }

  method WriteAuthenticationRequest(f: FrameBuffer, authMethod: bytes, credentials: bytes) returns (r: Written)
    requires f.Valid()
    modifies f
    ensures f.Valid() && f.offset == old(f.offset)
    ensures r.Ok? <==> Fits(authMethod) && Fits(credentials)
    ensures r.Ok? ==> f.Contents() == old(f.Contents()) + (EncString(authMethod) + EncString(credentials))
  {
    hide EncString, EncBool, EncPackets;
    var _ :- WriteString(f, authMethod);
    var _ :- WriteString(f, credentials);
    return Ok(());
  }

  method WriteMulticastData(f: FrameBuffer, topic: bytes, packets: seq<DataPacket>) returns (r: Written)
    requires f.Valid()
    modifies f
    ensures f.Valid() && f.offset == old(f.offset)
    ensures r.Ok? <==> Fits(topic) && PacketsFit(packets)
    ensures r.Ok? ==> f.Contents() == old(f.Contents()) + (EncString(topic) + EncPackets(packets))
  {
    hide EncString, EncBool, EncPackets;
    var _ :- WriteString(f, topic);
    var _ :- WritePackets(f, packets);
    return Ok(());
  }

  /** The body of a subscription request and of a notification request. */
  method WriteTopicRequest(f: FrameBuffer, topic: bytes, isAdd: bool) returns (r: Written)
    requires f.Valid()
    modifies f
    ensures f.Valid() && f.offset == old(f.offset)
    ensures r.Ok? <==> Fits(topic)
    ensures r.Ok? ==> f.Contents() == old(f.Contents()) + (EncString(topic) + EncBool(isAdd))
  {
    hide EncString, EncBool, EncPackets;
    var _ :- WriteString(f, topic);
    WriteBool(f, isAdd);
    return Ok(());
  }

  method WriteUnicastData(f: FrameBuffer, clientId: bytes, topic: bytes, packets: seq<DataPacket>)
    returns (r: Written)
    requires f.Valid()
    modifies f
    ensures f.Valid() && f.offset == old(f.offset)
    ensures r.Ok? <==> Fits(clientId) && Fits(topic) && PacketsFit(packets)
    ensures r.Ok? ==>
      f.Contents() == old(f.Contents()) + (EncString(clientId) + (EncString(topic) + EncPackets(packets)))
  {
    hide EncString, EncBool, EncPackets;
    ghost var before := f.Contents();
    var _ :- WriteString(f, clientId);
    var _ :- WriteString(f, topic);
    var _ :- WritePackets(f, packets);
    Join(before, EncString(clientId), EncString(topic), EncPackets(packets), [], []);
    return Ok(());
  }

  method WriteForwardedSubscriptionRequest(
    f: FrameBuffer, user: bytes, host: bytes, clientId: bytes, topic: bytes, isAdd: bool)
    returns (r: Written)
    requires f.Valid()
    modifies f
    ensures f.Valid() && f.offset == old(f.offset)
    ensures r.Ok? <==> Fits(user) && Fits(host) && Fits(clientId) && Fits(topic)
    ensures r.Ok? ==>
      f.Contents() == old(f.Contents()) +
      (EncString(user) + (EncString(host) + (EncString(clientId) + (EncString(topic) + EncBool(isAdd)))))
  {
    hide EncString, EncBool, EncPackets;
    ghost var before := f.Contents();
    var _ :- WriteString(f, user);
    var _ :- WriteString(f, host);
    var _ :- WriteString(f, clientId);
    var _ :- WriteString(f, topic);
    WriteBool(f, isAdd);
    Join(before, EncString(user), EncString(host), EncString(clientId), EncString(topic), EncBool(isAdd));
    return Ok(());
  }

  method WriteForwardedMulticastData(f: FrameBuffer, user: bytes, host: bytes, topic: bytes, packets: seq<DataPacket>)
    returns (r: Written)
    requires f.Valid()
    modifies f
    ensures f.Valid() && f.offset == old(f.offset)
    ensures r.Ok? <==> Fits(user) && Fits(host) && Fits(topic) && PacketsFit(packets)
    ensures r.Ok? ==>
      f.Contents() == old(f.Contents()) +
      (EncString(user) + (EncString(host) + (EncString(topic) + EncPackets(packets))))
  {
    hide EncString, EncBool, EncPackets;
    ghost var before := f.Contents();
    var _ :- WriteString(f, user);
    var _ :- WriteString(f, host);
    var _ :- WriteString(f, topic);
    var _ :- WritePackets(f, packets);
    Join(before, EncString(user), EncString(host), EncString(topic), EncPackets(packets), []);
    return Ok(());
  }

  method WriteForwardedUnicastData(
    f: FrameBuffer, user: bytes, host: bytes, clientId: bytes, topic: bytes, packets: seq<DataPacket>)
    returns (r: Written)
    requires f.Valid()
    modifies f
    ensures f.Valid() && f.offset == old(f.offset)
    ensures r.Ok? <==> Fits(user) && Fits(host) && Fits(clientId) && Fits(topic) && PacketsFit(packets)
    ensures r.Ok? ==>
      f.Contents() == old(f.Contents()) +
      (EncString(user) + (EncString(host) + (EncString(clientId) + (EncString(topic) + EncPackets(packets)))))
  {
    hide EncString, EncBool, EncPackets;
    ghost var before := f.Contents();
    var _ :- WriteString(f, user);
    var _ :- WriteString(f, host);
    var _ :- WriteString(f, clientId);
    var _ :- WriteString(f, topic);
    var _ :- WritePackets(f, packets);
    Join(before, EncString(user), EncString(host), EncString(clientId), EncString(topic), EncPackets(packets));
    return Ok(());
  }

  method WriteBody(f: FrameBuffer, m: Message) returns (r: Written)
    requires f.Valid()
    modifies f
    ensures f.Valid() && f.offset == old(f.offset)
    ensures r.Ok? <==> Encodable(m)
    ensures r.Ok? ==> f.Contents() == old(f.Contents()) + EncBody(m)
  {
    hide EncString, EncBool, EncPackets;
    match m
    case AuthenticationRequest(authMethod, credentials) =>
      r := WriteAuthenticationRequest(f, authMethod, credentials);
    case AuthenticationResponse(isAuthenticated) =>
      WriteBool(f, isAuthenticated);
      r := Ok(());
    case MulticastData(topic, packets) =>
      r := WriteMulticastData(f, topic, packets);
    case UnicastData(clientId, topic, packets) =>
      r := WriteUnicastData(f, clientId, topic, packets);
    case ForwardedSubscriptionRequest(user, host, clientId, topic, isAdd) =>
      r := WriteForwardedSubscriptionRequest(f, user, host, clientId, topic, isAdd);
    case NotificationRequest(topicPattern, isAdd) =>
      r := WriteTopicRequest(f, topicPattern, isAdd);
    case SubscriptionRequest(topic, isAdd) =>
      r := WriteTopicRequest(f, topic, isAdd);
    case ForwardedMulticastData(user, host, topic, packets) =>
      r := WriteForwardedMulticastData(f, user, host, topic, packets);
    case ForwardedUnicastData(user, host, clientId, topic, packets) =>
      r := WriteForwardedUnicastData(f, user, host, clientId, topic, packets);
  }

  method Serialize(m: Message) returns (r: Result<FrameBuffer, WriteError>)
    ensures r.Ok? <==> Encodable(m)
    ensures r.Ok? ==> fresh(r.value) && r.value.Valid() && r.value.offset == 0 && r.value.Contents() == Encode(m)
    ensures r.Ok? ==> IsMessage(true, r.value.Contents(), m)
  {
    hide EncBody, AreFields;
    var f := new FrameBuffer();
    WriteChar(f, TypeByte(m));
    var _ :- WriteBody(f, m);
    BodyWritten(m);
    return Ok(f);
  }

  /** A message as it is queued for a socket. The buffer measures itself in a 32-bit int. */
  method ToWire(m: Message) returns (r: Result<bytes, WriteError>)
    requires Encodable(m) ==> |Encode(m)| < 0x8000_0000
    ensures r.Ok? <==> Encodable(m)
    ensures r.Ok? ==> r.value == FrameReaders.Framed(Encode(m))
    ensures r.Ok? ==> |r.value| >= 4 && IsNumber(r.value[..4], |r.value| - 4) && IsMessage(true, r.value[4..], m)
  {
    hide Encode, IsMessage, Encodable;
    var f :- Serialize(m);
    var buf := f.ToVector();
    return Ok(buf);
  }

  // ---- Reading: the buffer holds a whole value ----

  method ReadChar(f: FrameBuffer) returns (c: byte)
    requires f.Valid() && DecByte(f.Contents()).Done?
    modifies f
    ensures f.Valid() && DecByte(old(f.Contents())) == Done(c, f.Contents())
  {
    var buf := f.Read(1);
    c := buf[0];
  }

  method ReadBool(f: FrameBuffer) returns (b: bool)
    requires f.Valid() && DecBool(f.Contents()).Done?
    modifies f
    ensures f.Valid() && DecBool(old(f.Contents())) == Done(b, f.Contents())
    ensures b <==> old(f.Contents()[0]) == 1
  {
    var c := ReadChar(f);
    b := c == 1;
  }

  method ReadU32(f: FrameBuffer) returns (n: uint32)
    requires f.Valid() && DecU32(f.Contents()).Done?
    modifies f
    ensures f.Valid() && DecU32(old(f.Contents())) == Done(n, f.Contents())
  {
    var buf := f.Read(4);
    n := U32FromBytes(buf);
  }

  method ReadInt32(f: FrameBuffer) returns (i: int32)
    requires f.Valid() && DecInt32(f.Contents()).Done?
    modifies f
    ensures f.Valid() && DecInt32(old(f.Contents())) == Done(i, f.Contents())
  {
    var u := ReadU32(f);
    i := ToInt32(u);
  }

  method ReadString(f: FrameBuffer) returns (s: bytes)
    requires f.Valid() && DecString(f.Contents()).Done?
    modifies f
    ensures f.Valid() && DecString(old(f.Contents())) == Done(s, f.Contents())
  {
    var n := ReadU32(f);
    s := f.Read(n);
  }

  /** A vector of chars comes in one char at a time. */
  method ReadChars(f: FrameBuffer) returns (v: bytes)
    requires f.Valid() && DecString(f.Contents()).Done?
    modifies f
    ensures f.Valid() && DecString(old(f.Contents())) == Done(v, f.Contents())
  {
    var n := ReadU32(f);
    ghost var all := f.Contents();
    v := [];
    for i := 0 to n
      invariant f.Valid() && |v| == i <= |all| && v == all[..i] && f.Contents() == all[i..]
    {
      MoveCut(all, i, 1);
      var c := ReadChar(f);
      v := v + [c];
    }
  }

  method ReadPacket(f: FrameBuffer) returns (p: DataPacket)
    requires f.Valid() && DecPacket(f.Contents()).Done?
    modifies f
    ensures f.Valid() && DecPacket(old(f.Contents())) == Done(p, f.Contents())
  {
    hide DecString, DecInt32;
    var entitlement := ReadInt32(f);
    var contentType := ReadString(f);
    var data := ReadChars(f);
    p := DataPacket(entitlement, contentType, data);
  }

  method ReadPackets(f: FrameBuffer) returns (ps: seq<DataPacket>)
    requires f.Valid() && DecPackets(f.Contents()).Done?
    modifies f
    ensures f.Valid() && DecPackets(old(f.Contents())) == Done(ps, f.Contents())
  {
    hide DecPacket;
    var n := ReadU32(f);
    ghost var all := DecPacketList(n, f.Contents());
    ps := [];
    for i := 0 to n
      invariant f.Valid() && all.Done? && |ps| == i
      invariant DecPacketList(n - i, f.Contents()).Done?
      invariant all.rest == DecPacketList(n - i, f.Contents()).rest
      invariant all.value == ps + DecPacketList(n - i, f.Contents()).value
    {
      var p := ReadPacket(f);
      ps := ps + [p];
    }
    assert DecPacketList(0, f.Contents()) == Done([], f.Contents()) && ps + [] == ps;
  }

  method ReadBody(f: FrameBuffer, t: byte) returns (r: Result<Message, ReadError>)
    requires f.Valid() && !DecBody(t, f.Contents()).Short?
    modifies f
    ensures f.Valid()
    ensures r.Err? <==> old(DecBody(t, f.Contents())) == UnknownType
    ensures r.Err? <==> !(1 <= t <= 9)
    ensures r.Ok? ==> old(DecBody(t, f.Contents())) == Done(r.value, f.Contents())
  {
    hide DecString, DecBool, DecPackets;
    if t == 1 {
      var authMethod := ReadString(f);
      var credentials := ReadString(f);
      return Ok(AuthenticationRequest(authMethod, credentials));
    } else if t == 2 {
      var isAuthenticated := ReadBool(f);
      return Ok(AuthenticationResponse(isAuthenticated));
    } else if t == 3 {
      var topic := ReadString(f);
      var packets := ReadPackets(f);
      return Ok(MulticastData(topic, packets));
    } else if t == 4 {
      var clientId := ReadString(f);
      var topic := ReadString(f);
      var packets := ReadPackets(f);
      return Ok(UnicastData(clientId, topic, packets));
    } else if t == 5 {
      var user := ReadString(f);
      var host := ReadString(f);
      var clientId := ReadString(f);
      var topic := ReadString(f);
      var isAdd := ReadBool(f);
      return Ok(ForwardedSubscriptionRequest(user, host, clientId, topic, isAdd));
    } else if t == 6 {
      var topicPattern := ReadString(f);
      var isAdd := ReadBool(f);
      return Ok(NotificationRequest(topicPattern, isAdd));
    } else if t == 7 {
      var topic := ReadString(f);
      var isAdd := ReadBool(f);
      return Ok(SubscriptionRequest(topic, isAdd));
    } else if t == 8 {
      var user := ReadString(f);
      var host := ReadString(f);
      var topic := ReadString(f);
      var packets := ReadPackets(f);
      return Ok(ForwardedMulticastData(user, host, topic, packets));
    } else if t == 9 {
      var user := ReadString(f);
      var host := ReadString(f);
      var clientId := ReadString(f);
      var topic := ReadString(f);
      var packets := ReadPackets(f);
      return Ok(ForwardedUnicastData(user, host, clientId, topic, packets));
    } else {
      return Err(InvalidMessageType);
    }
  }

  method Deserialize(f: FrameBuffer) returns (r: Result<Message, ReadError>)
    requires f.Valid() && !Decode(f.Contents()).Short?
    modifies f
    ensures f.Valid()
    ensures r.Err? <==> old(Decode(f.Contents())) == UnknownType
    ensures r.Ok? ==> old(Decode(f.Contents())) == Done(r.value, f.Contents())
    ensures r.Ok? ==> exists s :: old(f.Contents()) == s + f.Contents() && IsMessage(false, s, r.value)
    ensures r.Err? <==> !(1 <= old(f.Contents()[0]) <= 9)
  {
    hide IsMessage, DecBody;
    ghost var all := f.Contents();
    DecodeIsFormat(all);
    var t := ReadChar(f);
    r := ReadBody(f, t);
    if r.Ok? {
      assert all == all[..|all| - |f.Contents()|] + f.Contents();
    }
  }
}
