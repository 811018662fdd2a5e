/** The nine message types and their wire format, as pure functions with their round trips. */
module Messages {
  import opened Bytes

  datatype DataPacket = DataPacket(entitlement: int32, contentType: bytes, data: bytes) {
    predicate IsAuthorized(granted: set<int32>) {
      entitlement in granted
    }
  }

  datatype Message =
    | AuthenticationRequest(authMethod: bytes, credentials: bytes)
    | AuthenticationResponse(isAuthenticated: bool)
    | MulticastData(topic: bytes, packets: seq<DataPacket>)
    | UnicastData(clientId: bytes, topic: bytes, packets: seq<DataPacket>)
    | ForwardedSubscriptionRequest(user: bytes, host: bytes, clientId: bytes, topic: bytes, isAdd: bool)
    | NotificationRequest(topicPattern: bytes, isAdd: bool)
    | SubscriptionRequest(topic: bytes, isAdd: bool)
    | ForwardedMulticastData(user: bytes, host: bytes, topic: bytes, packets: seq<DataPacket>)
    | ForwardedUnicastData(user: bytes, host: bytes, clientId: bytes, topic: bytes, packets: seq<DataPacket>)

  /** The byte in front of every body. */
  function TypeByte(m: Message): byte {
    match m
    case AuthenticationRequest(_, _) => 1
    case AuthenticationResponse(_) => 2
    case MulticastData(_, _) => 3
    case UnicastData(_, _, _) => 4
    case ForwardedSubscriptionRequest(_, _, _, _, _) => 5
    case NotificationRequest(_, _) => 6
    case SubscriptionRequest(_, _) => 7
    case ForwardedMulticastData(_, _, _, _) => 8
    case ForwardedUnicastData(_, _, _, _, _) => 9
  }

  // ---- What can be encoded: every length must fit 32 bits ----

  predicate Fits<T>(s: seq<T>) {
    |s| < 0x1_0000_0000
  }

  predicate PacketFits(p: DataPacket) {
    Fits(p.contentType) && Fits(p.data)
  }

  predicate PacketsFit(ps: seq<DataPacket>) {
    Fits(ps) && forall p :: p in ps ==> PacketFits(p)
  }

  predicate Encodable(m: Message) {
    match m
    case AuthenticationRequest(authMethod, credentials) => Fits(authMethod) && Fits(credentials)
    case AuthenticationResponse(_) => true
    case MulticastData(topic, packets) => Fits(topic) && PacketsFit(packets)
    case UnicastData(clientId, topic, packets) => Fits(clientId) && Fits(topic) && PacketsFit(packets)
    case ForwardedSubscriptionRequest(user, host, clientId, topic, _) =>
      Fits(user) && Fits(host) && Fits(clientId) && Fits(topic)
    case NotificationRequest(topicPattern, _) => Fits(topicPattern)
    case SubscriptionRequest(topic, _) => Fits(topic)
    case ForwardedMulticastData(user, host, topic, packets) =>
      Fits(user) && Fits(host) && Fits(topic) && PacketsFit(packets)
    case ForwardedUnicastData(user, host, clientId, topic, packets) =>
      Fits(user) && Fits(host) && Fits(clientId) && Fits(topic) && PacketsFit(packets)
  }

  // ---- Encoding ----

  function EncBool(b: bool): bytes { [if b then 1 else 0] }

  function EncInt32(i: int32): bytes { U32ToBytes(i as int % 0x1_0000_0000) }

  /** A string, and equally a vector of chars: the length and the bytes. */
  function EncString(s: bytes): bytes
    requires Fits(s)
  {
    U32ToBytes(|s|) + s
  }

  function EncPacket(p: DataPacket): bytes
    requires PacketFits(p)
  {
    EncInt32(p.entitlement) + (EncString(p.contentType) + EncString(p.data))
  }

  function EncPacketList(ps: seq<DataPacket>): bytes
    requires forall p :: p in ps ==> PacketFits(p)
  {
    if ps == [] then [] else EncPacket(ps[0]) + EncPacketList(ps[1..])
  }

  function EncPackets(ps: seq<DataPacket>): bytes
    requires PacketsFit(ps)
  {
    U32ToBytes(|ps|) + EncPacketList(ps)
  }

  function EncBody(m: Message): bytes
    requires Encodable(m)
  {
    match m
    case AuthenticationRequest(authMethod, credentials) => EncString(authMethod) + EncString(credentials)
    case AuthenticationResponse(isAuthenticated) => EncBool(isAuthenticated)
    case MulticastData(topic, packets) => EncString(topic) + EncPackets(packets)
    case UnicastData(clientId, topic, packets) => EncString(clientId) + (EncString(topic) + EncPackets(packets))
    case ForwardedSubscriptionRequest(user, host, clientId, topic, isAdd) =>
      EncString(user) + (EncString(host) + (EncString(clientId) + (EncString(topic) + EncBool(isAdd))))
    case NotificationRequest(topicPattern, isAdd) => EncString(topicPattern) + EncBool(isAdd)
    case SubscriptionRequest(topic, isAdd) => EncString(topic) + EncBool(isAdd)
    case ForwardedMulticastData(user, host, topic, packets) =>
      EncString(user) + (EncString(host) + (EncString(topic) + EncPackets(packets)))
    case ForwardedUnicastData(user, host, clientId, topic, packets) =>
      EncString(user) + (EncString(host) + (EncString(clientId) + (EncString(topic) + EncPackets(packets))))
  }

  function Encode(m: Message): bytes
    requires Encodable(m)
  {
    [TypeByte(m)] + EncBody(m)
  }

  // ---- Decoding: a value and the bytes behind it ----

  datatype Parsed<+T> = Done(value: T, rest: bytes) | Short | UnknownType {
    predicate IsFailure() { !Done? }
    function PropagateFailure<U>(): Parsed<U>
      requires !Done?
    {
      if Short? then Short else UnknownType
    }
    function Extract(): (T, bytes)
      requires Done?
    {
      (value, rest)
    }
  }

  function DecByte(s: bytes): (r: Parsed<byte>)
    ensures !r.UnknownType?
  {
    if s == [] then Short else Done(s[0], s[1..])
  }

  /** Only 1 is true. */
  function DecBool(s: bytes): (r: Parsed<bool>)
    ensures !r.UnknownType?
  {
    var (c, s1) :- DecByte(s);
    Done(c == 1, s1)
  }

  function DecU32(s: bytes): (r: Parsed<uint32>)
    ensures !r.UnknownType?
  {
    if |s| < 4 then Short else Done(U32FromBytes(s[..4]), s[4..])
  }

  function DecInt32(s: bytes): (r: Parsed<int32>)
    ensures !r.UnknownType?
  {
    var (u, s1) :- DecU32(s);
    Done(ToInt32(u), s1)
  }

  function DecString(s: bytes): (r: Parsed<bytes>)
    ensures !r.UnknownType?
  {
    var (n, s1) :- DecU32(s);
    if |s1| < n then Short else Done(s1[..n], s1[n..])
  }

  function DecPacket(s: bytes): (r: Parsed<DataPacket>)
    ensures !r.UnknownType?
  {
    var (entitlement, s1) :- DecInt32(s);
    var (contentType, s2) :- DecString(s1);
    var (data, s3) :- DecString(s2);
    Done(DataPacket(entitlement, contentType, data), s3)
  }

  function DecPacketList(n: nat, s: bytes): (r: Parsed<seq<DataPacket>>)
    ensures !r.UnknownType?
  {
    if n == 0 then Done([], s) else
      var (p, s1) :- DecPacket(s);
      var (ps, s2) :- DecPacketList(n - 1, s1);
      Done([p] + ps, s2)
  }

  function DecPackets(s: bytes): (r: Parsed<seq<DataPacket>>)
    ensures !r.UnknownType?
  {
    var (n, s1) :- DecU32(s);
    DecPacketList(n, s1)
  }

  function DecBody(t: byte, s: bytes): Parsed<Message> {
    if t == 1 then
      var (authMethod, s1) :- DecString(s);
      var (credentials, s2) :- DecString(s1);
      Done(AuthenticationRequest(authMethod, credentials), s2)
    else if t == 2 then
      var (isAuthenticated, s1) :- DecBool(s);
      Done(AuthenticationResponse(isAuthenticated), s1)
    else if t == 3 then
      var (topic, s1) :- DecString(s);
      var (packets, s2) :- DecPackets(s1);
      Done(MulticastData(topic, packets), s2)
    else if t == 4 then
      var (clientId, s1) :- DecString(s);
      var (topic, s2) :- DecString(s1);
      var (packets, s3) :- DecPackets(s2);
      Done(UnicastData(clientId, topic, packets), s3)
    else if t == 5 then
      var (user, s1) :- DecString(s);
      var (host, s2) :- DecString(s1);
      var (clientId, s3) :- DecString(s2);
      var (topic, s4) :- DecString(s3);
      var (isAdd, s5) :- DecBool(s4);
      Done(ForwardedSubscriptionRequest(user, host, clientId, topic, isAdd), s5)
    else if t == 6 then
      var (topicPattern, s1) :- DecString(s);
      var (isAdd, s2) :- DecBool(s1);
      Done(NotificationRequest(topicPattern, isAdd), s2)
    else if t == 7 then
      var (topic, s1) :- DecString(s);
      var (isAdd, s2) :- DecBool(s1);
      Done(SubscriptionRequest(topic, isAdd), s2)
    else if t == 8 then
      var (user, s1) :- DecString(s);
      var (host, s2) :- DecString(s1);
      var (topic, s3) :- DecString(s2);
      var (packets, s4) :- DecPackets(s3);
      Done(ForwardedMulticastData(user, host, topic, packets), s4)
    else if t == 9 then
      var (user, s1) :- DecString(s);
      var (host, s2) :- DecString(s1);
      var (clientId, s3) :- DecString(s2);
      var (topic, s4) :- DecString(s3);
      var (packets, s5) :- DecPackets(s4);
      Done(ForwardedUnicastData(user, host, clientId, topic, packets), s5)
    else
      UnknownType
  }

  function Decode(s: bytes): Parsed<Message> {
    var (t, s1) :- DecByte(s);
    DecBody(t, s1)
  }

  // ---- Round trips ----

  lemma Int32RoundTrip(i: int32, rest: bytes)
    ensures DecInt32(EncInt32(i) + rest) == Done(i, rest)
  {
    var u := i as int % 0x1_0000_0000;
    U32RoundTrip(u);
    assert (EncInt32(i) + rest)[..4] == U32ToBytes(u) && (EncInt32(i) + rest)[4..] == rest;
    assert i as int == u || i as int == u - 0x1_0000_0000;
  }

  lemma U32Then(n: uint32, rest: bytes)
    ensures DecU32(U32ToBytes(n) + rest) == Done(n, rest)
  {
    U32RoundTrip(n);
    assert (U32ToBytes(n) + rest)[..4] == U32ToBytes(n) && (U32ToBytes(n) + rest)[4..] == rest;
  }

  lemma StringRoundTrip(x: bytes, rest: bytes)
    requires Fits(x)
    ensures DecString(EncString(x) + rest) == Done(x, rest)
  {
    U32Then(|x|, x + rest);
    assert EncString(x) + rest == U32ToBytes(|x|) + (x + rest);
    assert (x + rest)[..|x|] == x && (x + rest)[|x|..] == rest;
  }

  lemma BoolRoundTrip(b: bool, rest: bytes)
    ensures DecBool(EncBool(b) + rest) == Done(b, rest)
  {
    assert (EncBool(b) + rest)[1..] == rest;
  }

  lemma PacketRoundTrip(p: DataPacket, rest: bytes)
    requires PacketFits(p)
    ensures DecPacket(EncPacket(p) + rest) == Done(p, rest)
  {
    var tail := EncString(p.data) + rest;
    assert EncPacket(p) + rest == EncInt32(p.entitlement) + (EncString(p.contentType) + tail);
    Int32RoundTrip(p.entitlement, EncString(p.contentType) + tail);
    StringRoundTrip(p.contentType, tail);
    StringRoundTrip(p.data, rest);
  }

  lemma {:induction false} PacketListRoundTrip(ps: seq<DataPacket>, rest: bytes)
    requires forall p :: p in ps ==> PacketFits(p)
    ensures DecPacketList(|ps|, EncPacketList(ps) + rest) == Done(ps, rest)
  {
    hide DecPacket, EncPacket;
    if ps == [] {
      assert [] + rest == rest;
    } else {
      var tail := EncPacketList(ps[1..]) + rest;
      assert EncPacketList(ps) + rest == EncPacket(ps[0]) + tail;
      PacketRoundTrip(ps[0], tail);
      PacketListRoundTrip(ps[1..], rest);
      assert ps == [ps[0]] + ps[1..];
    }
  }

  lemma PacketsRoundTrip(ps: seq<DataPacket>, rest: bytes)
    requires PacketsFit(ps)
    ensures DecPackets(EncPackets(ps) + rest) == Done(ps, rest)
  {
    assert EncPackets(ps) + rest == U32ToBytes(|ps|) + (EncPacketList(ps) + rest);
    U32Then(|ps|, EncPacketList(ps) + rest);
    PacketListRoundTrip(ps, rest);
  }

  /** One string field of a body, for any way the rest of the body continues. */
  lemma Field(x: bytes, tail: bytes, rest: bytes)
    requires Fits(x)
    ensures DecString((EncString(x) + tail) + rest) == Done(x, tail + rest)
  {
    assert (EncString(x) + tail) + rest == EncString(x) + (tail + rest);
    StringRoundTrip(x, tail + rest);
  }

  lemma BodyRoundTrip(m: Message, rest: bytes)
    requires Encodable(m)
    ensures DecBody(TypeByte(m), EncBody(m) + rest) == Done(m, rest)
  {
    hide DecString, EncString, DecPackets, EncPackets, DecBool, EncBool;
    match m
    case AuthenticationRequest(authMethod, credentials) =>
      Field(authMethod, EncString(credentials), rest);
      StringRoundTrip(credentials, rest);
    case AuthenticationResponse(isAuthenticated) =>
      BoolRoundTrip(isAuthenticated, rest);
    case MulticastData(topic, packets) =>
      Field(topic, EncPackets(packets), rest);
      PacketsRoundTrip(packets, rest);
    case UnicastData(clientId, topic, packets) =>
      Field(clientId, EncString(topic) + EncPackets(packets), rest);
      Field(topic, EncPackets(packets), rest);
      PacketsRoundTrip(packets, rest);
    case ForwardedSubscriptionRequest(user, host, clientId, topic, isAdd) =>
      Field(user, EncString(host) + (EncString(clientId) + (EncString(topic) + EncBool(isAdd))), rest);
      Field(host, EncString(clientId) + (EncString(topic) + EncBool(isAdd)), rest);
      Field(clientId, EncString(topic) + EncBool(isAdd), rest);
      Field(topic, EncBool(isAdd), rest);
      BoolRoundTrip(isAdd, rest);
    case NotificationRequest(topicPattern, isAdd) =>
      Field(topicPattern, EncBool(isAdd), rest);
      BoolRoundTrip(isAdd, rest);
    case SubscriptionRequest(topic, isAdd) =>
      Field(topic, EncBool(isAdd), rest);
      BoolRoundTrip(isAdd, rest);
    case ForwardedMulticastData(user, host, topic, packets) =>
      Field(user, EncString(host) + (EncString(topic) + EncPackets(packets)), rest);
      Field(host, EncString(topic) + EncPackets(packets), rest);
      Field(topic, EncPackets(packets), rest);
      PacketsRoundTrip(packets, rest);
    case ForwardedUnicastData(user, host, clientId, topic, packets) =>
      Field(user, EncString(host) + (EncString(clientId) + (EncString(topic) + EncPackets(packets))), rest);
      Field(host, EncString(clientId) + (EncString(topic) + EncPackets(packets)), rest);
      Field(clientId, EncString(topic) + EncPackets(packets), rest);
      Field(topic, EncPackets(packets), rest);
      PacketsRoundTrip(packets, rest);
  }

  /** Every encodable message is read back from in front of any further bytes. */
  lemma RoundTrip(m: Message, rest: bytes)
    requires Encodable(m)
    ensures Decode(Encode(m) + rest) == Done(m, rest)
  {
    assert (Encode(m) + rest)[1..] == EncBody(m) + rest;
    BodyRoundTrip(m, rest);
  }

  /** Encodings are injective and no encoding is a prefix of another. */
  lemma PrefixFree(m1: Message, m2: Message, rest1: bytes, rest2: bytes)
    requires Encodable(m1) && Encodable(m2) && Encode(m1) + rest1 == Encode(m2) + rest2
    ensures m1 == m2 && rest1 == rest2
  {
    RoundTrip(m1, rest1);
    RoundTrip(m2, rest2);
  }
}
