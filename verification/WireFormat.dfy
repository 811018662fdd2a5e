/**
  The wire format spelled out byte by byte, apart from the functions of the codec: which byte stands in
  front of which message, which fields follow in which order, and what each of them looks like.
 */
module WireFormat {
  import opened Bytes
  import opened Messages

  datatype Field = Count(n: nat) | Entitlement(e: int32) | Text(x: bytes) | Flag(b: bool)

  /** Four bytes by their weights. */
  predicate IsNumber(s: bytes, n: int) {
    |s| == 4 && s[0] as int * 0x100_0000 + s[1] as int * 0x1_0000 + s[2] as int * 0x100 + s[3] as int == n
  }

  function Size(f: Field): nat {
    match f
    case Count(_) => 4
    case Entitlement(_) => 4
    case Text(x) => 4 + |x|
    case Flag(_) => 1
  }

  /** Negative numbers count down from 2^32. A writer writes 0 for false, a reader takes all but 1 for it. */
  predicate IsField(written: bool, s: bytes, f: Field) {
    match f
    case Count(n) => IsNumber(s, n)
    case Entitlement(e) => IsNumber(s, if e < 0 then e as int + 0x1_0000_0000 else e as int)
    case Text(x) => |s| == 4 + |x| && IsNumber(s[..4], |x|) && s[4..] == x
    case Flag(b) => |s| == 1 && (b <==> s[0] == 1) && (written && !b ==> s[0] == 0)
  }

  predicate AreFields(written: bool, s: bytes, fs: seq<Field>) {
    if fs == [] then s == []
    else
      && Size(fs[0]) <= |s|
      && IsField(written, s[..Size(fs[0])], fs[0])
      && AreFields(written, s[Size(fs[0])..], fs[1..])
  }

  function EachPacket(ps: seq<DataPacket>): seq<Field> {
    if ps == [] then []
    else [Entitlement(ps[0].entitlement)] + ([Text(ps[0].contentType)] + ([Text(ps[0].data)] + EachPacket(ps[1..])))
  }

  function PacketFields(ps: seq<DataPacket>): seq<Field> {
    [Count(|ps|)] + EachPacket(ps)
  }

  predicate IsMessage(written: bool, s: bytes, m: Message) {
    s != [] &&
    match m
    case AuthenticationRequest(authMethod, credentials) =>
      s[0] == 1 && AreFields(written, s[1..], [Text(authMethod)] + [Text(credentials)])
    case AuthenticationResponse(isAuthenticated) =>
      s[0] == 2 && AreFields(written, s[1..], [Flag(isAuthenticated)])
    case MulticastData(topic, packets) =>
      s[0] == 3 && AreFields(written, s[1..], [Text(topic)] + PacketFields(packets))
    case UnicastData(clientId, topic, packets) =>
      s[0] == 4 && AreFields(written, s[1..], [Text(clientId)] + ([Text(topic)] + PacketFields(packets)))
    case ForwardedSubscriptionRequest(user, host, clientId, topic, isAdd) =>
      s[0] == 5 && AreFields(written, s[1..],
        [Text(user)] + ([Text(host)] + ([Text(clientId)] + ([Text(topic)] + [Flag(isAdd)]))))
    case NotificationRequest(topicPattern, isAdd) =>
      s[0] == 6 && AreFields(written, s[1..], [Text(topicPattern)] + [Flag(isAdd)])
    case SubscriptionRequest(topic, isAdd) =>
      s[0] == 7 && AreFields(written, s[1..], [Text(topic)] + [Flag(isAdd)])
    case ForwardedMulticastData(user, host, topic, packets) =>
      s[0] == 8 && AreFields(written, s[1..],
        [Text(user)] + ([Text(host)] + ([Text(topic)] + PacketFields(packets))))
    case ForwardedUnicastData(user, host, clientId, topic, packets) =>
      s[0] == 9 && AreFields(written, s[1..],
        [Text(user)] + ([Text(host)] + ([Text(clientId)] + ([Text(topic)] + PacketFields(packets)))))
  }

  // ---- Writing ----

  lemma NumberIsBytes(s: bytes, n: uint32)
    ensures IsNumber(s, n) <==> s == U32ToBytes(n)
  {
    BigEndian(n);
    if IsNumber(s, n) {
      U32BytesRoundTrip(s);
      BigEndianRead(s);
    }
  }

  /** One field in front of others. */
  lemma FieldInFront(written: bool, s: bytes, f: Field, t: bytes, fs: seq<Field>)
    requires |s| == Size(f)
    ensures AreFields(written, s + t, [f] + fs) <==> IsField(written, s, f) && AreFields(written, t, fs)
  {
    hide IsField;
    assert ([f] + fs)[1..] == fs;
    assert (s + t)[..Size(f)] == s && (s + t)[Size(f)..] == t;
  }

  lemma LastField(written: bool, s: bytes, f: Field)
    requires |s| == Size(f)
    ensures AreFields(written, s, [f]) <==> IsField(written, s, f)
  {
    FieldInFront(written, s, f, [], []);
    assert s + [] == s && [f] + [] == [f];
  }

  lemma TextInFront(x: bytes, t: bytes, fs: seq<Field>)
    requires Fits(x)
    ensures AreFields(true, EncString(x) + t, [Text(x)] + fs) <==> AreFields(true, t, fs)
  {
    var s := EncString(x);
    NumberIsBytes(s[..4], |x|);
    assert s[..4] == U32ToBytes(|x|) && s[4..] == x;
    FieldInFront(true, s, Text(x), t, fs);
  }

  lemma EntitlementInFront(e: int32, t: bytes, fs: seq<Field>)
    ensures AreFields(true, EncInt32(e) + t, [Entitlement(e)] + fs) <==> AreFields(true, t, fs)
  {
    var n := if e < 0 then e as int + 0x1_0000_0000 else e as int;
    assert e as int % 0x1_0000_0000 == n;
    NumberIsBytes(EncInt32(e), n);
    FieldInFront(true, EncInt32(e), Entitlement(e), t, fs);
  }

  lemma LastText(x: bytes)
    requires Fits(x)
    ensures AreFields(true, EncString(x), [Text(x)])
  {
    TextInFront(x, [], []);
    assert EncString(x) + [] == EncString(x) && [Text(x)] + [] == [Text(x)];
  }

  lemma LastFlag(b: bool)
    ensures AreFields(true, EncBool(b), [Flag(b)])
  {
    LastField(true, EncBool(b), Flag(b));
  }

  lemma {:induction false} EachPacketWritten(ps: seq<DataPacket>)
    requires forall p :: p in ps ==> PacketFits(p)
    ensures AreFields(true, EncPacketList(ps), EachPacket(ps))
  {
    hide AreFields, EncString, EncInt32;
    if ps == [] {
      NoFields();
    } else {
      var p, tail, fs := ps[0], EncPacketList(ps[1..]), EachPacket(ps[1..]);
      assert PacketFits(p);
      EachPacketWritten(ps[1..]);
      TextInFront(p.data, tail, fs);
      TextInFront(p.contentType, EncString(p.data) + tail, [Text(p.data)] + fs);
      EntitlementInFront(p.entitlement, EncString(p.contentType) + (EncString(p.data) + tail),
        [Text(p.contentType)] + ([Text(p.data)] + fs));
      assert EncPacketList(ps) ==
        EncInt32(p.entitlement) + (EncString(p.contentType) + (EncString(p.data) + tail));
    }
  }

  lemma NoFields()
    ensures AreFields(true, [], []) && AreFields(false, [], [])
  {
  }

  lemma PacketsWritten(ps: seq<DataPacket>)
    requires PacketsFit(ps)
    ensures AreFields(true, EncPackets(ps), PacketFields(ps))
  {
    hide EncPacketList, EachPacket, AreFields;
    NumberIsBytes(U32ToBytes(|ps|), |ps|);
    EachPacketWritten(ps);
    FieldInFront(true, U32ToBytes(|ps|), Count(|ps|), EncPacketList(ps), EachPacket(ps));
  }

  lemma BodyWritten(m: Message)
    requires Encodable(m)
    ensures IsMessage(true, Encode(m), m)
  {
    hide AreFields, EncString, EncBool, EncPackets, PacketFields;
    assert Encode(m)[1..] == EncBody(m);
    match m
    case AuthenticationRequest(authMethod, credentials) =>
      LastText(credentials);
      TextInFront(authMethod, EncString(credentials), [Text(credentials)]);
    case AuthenticationResponse(isAuthenticated) =>
      LastFlag(isAuthenticated);
    case MulticastData(topic, packets) =>
      PacketsWritten(packets);
      TextInFront(topic, EncPackets(packets), PacketFields(packets));
    case UnicastData(clientId, topic, packets) =>
      PacketsWritten(packets);
      TextInFront(topic, EncPackets(packets), PacketFields(packets));
      TextInFront(clientId, EncString(topic) + EncPackets(packets), [Text(topic)] + PacketFields(packets));
    case ForwardedSubscriptionRequest(user, host, clientId, topic, isAdd) =>
      var s, fs := EncString(topic) + EncBool(isAdd), [Text(topic)] + [Flag(isAdd)];
      LastFlag(isAdd);
      TextInFront(topic, EncBool(isAdd), [Flag(isAdd)]);
      TextInFront(clientId, s, fs);
      TextInFront(host, EncString(clientId) + s, [Text(clientId)] + fs);
      TextInFront(user, EncString(host) + (EncString(clientId) + s), [Text(host)] + ([Text(clientId)] + fs));
    case NotificationRequest(topicPattern, isAdd) =>
      LastFlag(isAdd);
      TextInFront(topicPattern, EncBool(isAdd), [Flag(isAdd)]);
    case SubscriptionRequest(topic, isAdd) =>
      LastFlag(isAdd);
      TextInFront(topic, EncBool(isAdd), [Flag(isAdd)]);
    case ForwardedMulticastData(user, host, topic, packets) =>
      var s, fs := EncString(topic) + EncPackets(packets), [Text(topic)] + PacketFields(packets);
      PacketsWritten(packets);
      TextInFront(topic, EncPackets(packets), PacketFields(packets));
      TextInFront(host, s, fs);
      TextInFront(user, EncString(host) + s, [Text(host)] + fs);
    case ForwardedUnicastData(user, host, clientId, topic, packets) =>
      var s, fs := EncString(topic) + EncPackets(packets), [Text(topic)] + PacketFields(packets);
      PacketsWritten(packets);
      TextInFront(topic, EncPackets(packets), PacketFields(packets));
      TextInFront(clientId, s, fs);
      TextInFront(host, EncString(clientId) + s, [Text(clientId)] + fs);
      TextInFront(user, EncString(host) + (EncString(clientId) + s), [Text(host)] + ([Text(clientId)] + fs));
  }

  // ---- There is only one way to write a message ----

  lemma FieldUnique(s: bytes, s': bytes, f: Field)
    requires IsField(true, s, f) && IsField(true, s', f)
    ensures s == s'
  {
    match f
    case Text(x) =>
      NumbersUnique(s[..4], s'[..4], |x|);
      assert s == s[..4] + s[4..] && s' == s'[..4] + s'[4..];
    case Count(n) => NumbersUnique(s, s', n);
    case Entitlement(e) => NumbersUnique(s, s', if e < 0 then e as int + 0x1_0000_0000 else e as int);
    case Flag(_) =>
  }

  lemma NumbersUnique(s: bytes, s': bytes, n: int)
    requires IsNumber(s, n) && IsNumber(s', n)
    ensures s == s'
  {
    NumberIsBytes(s, n);
    NumberIsBytes(s', n);
  }

  lemma {:induction false} FieldsUnique(s: bytes, s': bytes, fs: seq<Field>)
    requires AreFields(true, s, fs) && AreFields(true, s', fs)
    ensures s == s'
    decreases |fs|
  {
    hide IsField;
    if fs != [] {
      var n := Size(fs[0]);
      FieldUnique(s[..n], s'[..n], fs[0]);
      FieldsUnique(s[n..], s'[n..], fs[1..]);
      assert s == s[..n] + s[n..] && s' == s'[..n] + s'[n..];
    }
  }

  /** The encoding of a message is the one string that the format allows for it. */
  lemma EncodeIsFormat(m: Message, s: bytes)
    requires Encodable(m)
    ensures s == Encode(m) <==> IsMessage(true, s, m)
  {
    hide AreFields, EncBody, PacketFields;
    BodyWritten(m);
    if IsMessage(true, s, m) {
      var e := Encode(m);
      assert s == [s[0]] + s[1..] && e == [e[0]] + e[1..];
      match m
      case AuthenticationRequest(authMethod, credentials) =>
        FieldsUnique(s[1..], e[1..], [Text(authMethod)] + [Text(credentials)]);
      case AuthenticationResponse(isAuthenticated) =>
        FieldsUnique(s[1..], e[1..], [Flag(isAuthenticated)]);
      case MulticastData(topic, packets) =>
        FieldsUnique(s[1..], e[1..], [Text(topic)] + PacketFields(packets));
      case UnicastData(clientId, topic, packets) =>
        FieldsUnique(s[1..], e[1..], [Text(clientId)] + ([Text(topic)] + PacketFields(packets)));
      case ForwardedSubscriptionRequest(user, host, clientId, topic, isAdd) =>
        FieldsUnique(s[1..], e[1..],
          [Text(user)] + ([Text(host)] + ([Text(clientId)] + ([Text(topic)] + [Flag(isAdd)]))));
      case NotificationRequest(topicPattern, isAdd) =>
        FieldsUnique(s[1..], e[1..], [Text(topicPattern)] + [Flag(isAdd)]);
      case SubscriptionRequest(topic, isAdd) =>
        FieldsUnique(s[1..], e[1..], [Text(topic)] + [Flag(isAdd)]);
      case ForwardedMulticastData(user, host, topic, packets) =>
        FieldsUnique(s[1..], e[1..], [Text(user)] + ([Text(host)] + ([Text(topic)] + PacketFields(packets))));
      case ForwardedUnicastData(user, host, clientId, topic, packets) =>
        FieldsUnique(s[1..], e[1..],
          [Text(user)] + ([Text(host)] + ([Text(clientId)] + ([Text(topic)] + PacketFields(packets)))));
    }
  }

  // ---- Reading ----

  /** What was read off `s` in front of `rest` are these fields. */
  ghost predicate Reads(s: bytes, fs: seq<Field>, rest: bytes) {
    |rest| <= |s| && s[|s| - |rest|..] == rest && AreFields(false, s[..|s| - |rest|], fs)
  }

  lemma ReadsNothing(s: bytes)
    ensures Reads(s, [], s)
  {
  }

  lemma ReadsField(s: bytes, f: Field, s1: bytes, fs: seq<Field>, rest: bytes)
    requires Size(f) <= |s| && IsField(false, s[..Size(f)], f) && s1 == s[Size(f)..] && Reads(s1, fs, rest)
    ensures Reads(s, [f] + fs, rest)
  {
    hide IsField, AreFields;
    var n, k := Size(f), |s1| - |rest|;
    FieldInFront(false, s[..n], f, s1[..k], fs);
    assert s[..|s| - |rest|] == s[..n] + s1[..k];
  }

  lemma ReadsText(s: bytes, fs: seq<Field>, rest: bytes)
    requires var d := DecString(s); d.Done? && Reads(d.rest, fs, rest)
    ensures Reads(s, [Text(DecString(s).value)] + fs, rest)
  {
    hide Reads;
    var d := DecString(s);
    BigEndianRead(s[..4]);
    var n := 4 + |d.value|;
    assert s[..n][..4] == s[..4] && s[..n][4..] == d.value && s[n..] == d.rest;
    ReadsField(s, Text(d.value), d.rest, fs, rest);
  }

  lemma ReadsFlag(s: bytes)
    requires DecBool(s).Done?
    ensures Reads(s, [Flag(DecBool(s).value)], DecBool(s).rest)
  {
    var d := DecBool(s);
    ReadsNothing(d.rest);
    ReadsField(s, Flag(d.value), d.rest, [], d.rest);
    assert [Flag(d.value)] + [] == [Flag(d.value)];
  }

  lemma ReadsEntitlement(s: bytes, fs: seq<Field>, rest: bytes)
    requires var d := DecInt32(s); d.Done? && Reads(d.rest, fs, rest)
    ensures Reads(s, [Entitlement(DecInt32(s).value)] + fs, rest)
  {
    hide Reads;
    BigEndianRead(s[..4]);
    ReadsField(s, Entitlement(DecInt32(s).value), s[4..], fs, rest);
  }

  lemma {:induction false} ReadsEachPacket(n: nat, s: bytes)
    requires DecPacketList(n, s).Done?
    ensures var d := DecPacketList(n, s); |d.value| == n && Reads(s, EachPacket(d.value), d.rest)
  {
    hide Reads, DecString, DecInt32;
    if n == 0 {
      ReadsNothing(s);
    } else {
      var e := DecInt32(s);
      var c := DecString(e.rest);
      var t := DecString(c.rest);
      var d, all := DecPacketList(n - 1, t.rest), DecPacketList(n, s);
      ReadsEachPacket(n - 1, t.rest);
      assert all.value == [DataPacket(e.value, c.value, t.value)] + d.value && all.value[1..] == d.value;
      var fs := EachPacket(d.value);
      ReadsText(c.rest, fs, d.rest);
      ReadsText(e.rest, [Text(t.value)] + fs, d.rest);
      ReadsEntitlement(s, [Text(c.value)] + ([Text(t.value)] + fs), d.rest);
    }
  }

  lemma ReadsPackets(s: bytes)
    requires DecPackets(s).Done?
    ensures var d := DecPackets(s); Reads(s, PacketFields(d.value), d.rest)
  {
    hide Reads, DecPacketList, EachPacket;
    var d, n := DecPackets(s), U32FromBytes(s[..4]);
    BigEndianRead(s[..4]);
    ReadsEachPacket(n, s[4..]);
    ReadsField(s, Count(n), s[4..], EachPacket(d.value), d.rest);
  }

  lemma ReadsTextAndFlag(s: bytes)
    requires DecString(s).Done? && DecBool(DecString(s).rest).Done?
    ensures var x := DecString(s); var b := DecBool(x.rest);
      Reads(s, [Text(x.value)] + [Flag(b.value)], b.rest)
  {
    hide Reads, DecString, DecBool;
    ReadsFlag(DecString(s).rest);
    ReadsText(s, [Flag(DecBool(DecString(s).rest).value)], DecBool(DecString(s).rest).rest);
  }

  lemma ReadsTextAndPackets(s: bytes)
    requires DecString(s).Done? && DecPackets(DecString(s).rest).Done?
    ensures var x := DecString(s); var ps := DecPackets(x.rest);
      Reads(s, [Text(x.value)] + PacketFields(ps.value), ps.rest)
  {
    hide Reads, DecString, DecPackets, PacketFields;
    var x := DecString(s);
    ReadsPackets(x.rest);
    ReadsText(s, PacketFields(DecPackets(x.rest).value), DecPackets(x.rest).rest);
  }

  /** The fields of a body that was read, by the number of its type. */
  lemma BodyRead(t: byte, s: bytes)
    requires DecBody(t, s).Done?
    ensures var d := DecBody(t, s);
      && |d.rest| <= |s| && s[|s| - |d.rest|..] == d.rest
      && IsMessage(false, [t] + s[..|s| - |d.rest|], d.value)
  {
    hide DecString, DecBool, DecPackets, AreFields, PacketFields;
    var d := DecBody(t, s);
    if t == 1 {
      var x := DecString(s);
      ReadsNothing(d.rest);
      ReadsText(x.rest, [], d.rest);
      assert [Text(DecString(x.rest).value)] + [] == [Text(DecString(x.rest).value)];
      ReadsText(s, [Text(DecString(x.rest).value)], d.rest);
    } else if t == 2 {
      ReadsFlag(s);
    } else if t == 3 {
      ReadsTextAndPackets(s);
    } else if t == 4 {
      var x := DecString(s);
      ReadsTextAndPackets(x.rest);
      ReadsText(s, [Text(d.value.topic)] + PacketFields(d.value.packets), d.rest);
    } else if t == 5 {
      var u := DecString(s);
      var h := DecString(u.rest);
      var c := DecString(h.rest);
      var fs := [Text(d.value.topic)] + [Flag(d.value.isAdd)];
      ReadsTextAndFlag(c.rest);
      ReadsText(h.rest, fs, d.rest);
      ReadsText(u.rest, [Text(c.value)] + fs, d.rest);
      ReadsText(s, [Text(h.value)] + ([Text(c.value)] + fs), d.rest);
    } else if t == 6 || t == 7 {
      ReadsTextAndFlag(s);
    } else if t == 8 {
      var u := DecString(s);
      var h := DecString(u.rest);
      var fs := [Text(d.value.topic)] + PacketFields(d.value.packets);
      ReadsTextAndPackets(h.rest);
      ReadsText(u.rest, fs, d.rest);
      ReadsText(s, [Text(h.value)] + fs, d.rest);
    } else {
      var u := DecString(s);
      var h := DecString(u.rest);
      var c := DecString(h.rest);
      var fs := [Text(d.value.topic)] + PacketFields(d.value.packets);
      ReadsTextAndPackets(c.rest);
      ReadsText(h.rest, fs, d.rest);
      ReadsText(u.rest, [Text(c.value)] + fs, d.rest);
      ReadsText(s, [Text(h.value)] + ([Text(c.value)] + fs), d.rest);
    }
    assert ([t] + s[..|s| - |d.rest|])[1..] == s[..|s| - |d.rest|];
  }

  lemma UnknownBody(t: byte, s: bytes)
    ensures DecBody(t, s).UnknownType? <==> !(1 <= t <= 9)
  {
    hide DecString, DecBool, DecPackets;
  }

  /** Whatever is decoded, from any bytes at all, is what the format says they hold. */
  lemma DecodeIsFormat(s: bytes)
    ensures var d := Decode(s);
      && (d.Done? ==>
          |d.rest| <= |s| && s[|s| - |d.rest|..] == d.rest && IsMessage(false, s[..|s| - |d.rest|], d.value))
      && (d.UnknownType? <==> s != [] && !(1 <= s[0] <= 9))
  {
    hide IsMessage, DecBody;
    var d := Decode(s);
    if s != [] {
      UnknownBody(s[0], s[1..]);
    }
    if d.Done? {
      BodyRead(s[0], s[1..]);
      assert [s[0]] + s[1..][..|s| - 1 - |d.rest|] == s[..|s| - |d.rest|];
    }
  }
}
