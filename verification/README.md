# SquawkBus: a verified model

SquawkBus is a publish/subscribe bus. Clients speak to one server over framed binary messages; the
server keeps three indices (who subscribes to which topic, who listens to which pattern, who publishes
which topic) and decides by entitlements who may see which data. This project models the byte channel
and the hub in Dafny and proves what they promise. `dafny verify dfyconfig.toml` checks all of it.

## The two halves

**The byte channel.** `FrameBuffer.dfy`, `FrameReader.dfy`, `FrameBufferIO.dfy` and
`SocketPollHandler.dfy` hold the classes of the source with their fields, each method proved against a
function on flat byte strings: a rope of fragments with a lazy offset is a byte string, the reader is a
deframer, the write queue is the bytes not yet sent. `Messages.dfy` is the codec of the nine message
types as pure functions, and `WireFormat.dfy` spells the format out byte by byte apart from it.
`Channel.dfy` puts them together as a state machine whose runs are all the schedules of sends, partial
writes and read events, where processing any message may throw; `Link.dfy` shows that the objects take
its steps. The main results are `Channels.RunKeepsInv`,
`Channels.EndToEnd` and `Channels.AllReceived`: no byte is lost exactly as long as no read event is
disturbed by an exception before its last bytes; until then what was received is a prefix of what was
sent, of exactly the length the deframing law says, and everything arrives exactly when no tail of the
chunks completes more frames than it has chunks.

**The hub.** `HubModel.dfy` describes the server as a state machine over values: an interactor is an
id, a live interactor is a key of `People`, so a dangling pointer is an id that is no key; what an
interactor is sent is appended to its queue. Iteration orders of the ordered containers, regular
expression matching and authentication are arbitrary functions in `Env`. `Managers.dfy`,
`PublisherManager.dfy`, `Service.dfy` and `Poller.dfy` hold the classes of the source; each method
leaves exactly the state the model's function gives, and every pointer it follows is live. The
whole-run results are in `ServerInvariants.dfy`, `References.dfy`, `Histories.dfy`,
`ListenerView.dfy`, `Sending.dfy`, `Data.dfy` and `Attribution.dfy`; `Witnesses.dfy` has the concrete
runs that end badly.

`Authorization.dfy` (the lazily filled cache), `Base64.dfy` and `BasicToken.dfy` stand beside these.

## Where the code differs from its evident intent

Three lines copy the inner map of an index with `auto` and update the copy:
`src/server/subscription_manager.cpp:108`, `src/server/notification_manager.cpp:56` and
`src/server/notification_manager.cpp:122`. The sibling at `src/server/subscription_manager.cpp:61` binds
with `auto&`, and the comments speak of updating in place. `Env.binding` chooses: `ByCopy` is the code as
written, `ByReference` the intent. Most results hold of both. The others are stated for `ByReference`
and come with the exact event that breaks them as written:

- An unsubscription makes no difference in place or on a copy exactly when there is nothing to remove
  or nothing would be left (`Indices.SubsRemoveByCopy`), and agreement of the two directions of an index
  is lost exactly by the requests that `ServerInvariants.Lost` describes
  (`ServerInvariants.StepKeepsAgreement`).
- As written, a subscriber that shares its topic can never unsubscribe from it
  (`Histories.CountStuckAsWritten`). If it then disconnects it stays listed, which is a dangling pointer
  (`References.LostUnsubscription`, with a concrete run in `Witnesses.DeadReferenceAsWritten`).
  Following subscribers stays safe exactly until such a departure (`References.StepKeepsSafe`). If a new
  interactor is then given the same address, it is a subscriber without having authenticated
  (`Witnesses.TrespasserAsWritten`); there is no other way to become one (`References.StepLists`,
  `References.HowTrespassing`).
- As written, whoever asks to listen under a pattern that somebody else has is sent a snapshot but is
  not recorded (`ListenerView.RecordedOnRequest`, `Witnesses.UnrecordedAsWritten`). Of the listeners
  that are recorded, the view is exact under both bindings (`ListenerView.ViewIsExact`).

Further findings, each with its exact condition:

- An exception while a message is processed (a second request to authenticate, say, or a pattern that
  does not compile) ends the loop of `src/server/distributor.cpp:59-60`, and `src/io/poller.hpp:175-179`
  keeps the connection open, so the later chunks of the same read event are destroyed. The order is kept
  exactly when no byte is dropped, which is exactly when nothing that throws is completed before the last
  bytes of its event (`Channels.FeedEventLaw`, `Channels.RunKeepsInv`); otherwise messages are missing
  from the middle (`Channels.LostMessage`).
- A rejected authentication is answered with `true` (`src/server/interactor.cpp:84-91`). Everything else
  the server says is so; this answer is so exactly when the credentials were accepted
  (`Attribution.AnswerExactness`, `Attribution.StepIsGenuine`, `Witnesses.RejectedIsToldTrue`). The
  handler has been closed just before, so the answer stays in its queue: a closed handler writes nothing
  (`SocketPollHandlers.TcpSocketPollHandler.Write`).
- A client whose first message is no request to authenticate has its handler closed, and then a null
  pointer is dereferenced (`src/server/interactor.cpp:76-82`). That happens exactly to such a message
  before the first accepted authentication (`Histories.NullDereference`,
  `Witnesses.FirstMessageSubscribes`).
- `FrameReader::write` releases at most one frame (`src/serialization/frame_reader.hpp:39-46`), so two
  frames in one chunk leave the second waiting until more bytes arrive
  (`FrameReaders.DeframingLaw`, `FrameReaders.NothingLags`, `FrameReaders.TwoFramesInOneChunk`).
- `FrameBuffer::size` adds up in a 32-bit int and is right exactly while fewer than 2^31 bytes are held
  (`FrameBuffers.FrameBuffer.Size`).
- `Hub::on_connected` has no caller, so as the server is wired a unicast reaches nobody
  (`References.UnicastNeedsConnected`). The event `Connected` models the call that is missing.
- A topic pattern that is no regular expression throws after its first insertion and leaves a pattern
  without an expression; the invariant of the server survives any event exactly when that does
  not happen (`Indices.NotifsAdd`, `ServerInvariants.StepKeepsInv`). The runs are those without such
  requests.
- Credentials survive the token exactly when the user name has no colon
  (`BasicToken.CredentialRoundTrip`).

## Model

| member | source | states |
|---|---|---|
| Base64.Encode | src/serialization/b64.hpp:11-29 | The two loops over a wrapping 32-bit accumulator write the groups of three bytes of section 4 of RFC 4648, zero-filled and padded at the end, for input of any length |
| Base64.Decode | src/serialization/b64.hpp:31-49 | The loop over the inverse table yields the bytes completed by the symbols up to the first character that is none |
| Base64.PushSymbols | src/serialization/b64.hpp:19-22 | The inner loop writes every complete six-bit field of the accumulator and leaves the shift for the next byte |
| Base64.Close | src/serialization/b64.hpp:24-27 | The zero-filled last symbol and the padding complete the last group of four |
| Base64.InverseTable | src/serialization/b64.hpp:35-36 | The table built by the loop is the inverse of the alphabet, with -1 everywhere else |
| Base64.AlphabetIsSymbol | src/serialization/b64.hpp:20 | The literal alphabet of 64 characters is the one of RFC 4648, and its inverse undoes it |
| Base64.ShiftInByte | src/serialization/b64.hpp:17 | Shifting a byte into the accumulator never leaves the 32-bit range once wrapped and keeps the last sixteen bits exact |
| Base64.ShiftInSextet | src/serialization/b64.hpp:41 | Shifting six bits into the accumulator keeps the last twelve bits exact whatever wraps away |
| Base64.PushedIsCompleted | src/serialization/b64.hpp:19-22 | Of an accumulator that has wrapped any number of times only the last two bytes decide which symbols are written |
| Base64.CompletedFromAccumulator | src/serialization/b64.hpp:44 | Of an accumulator that has wrapped any number of times only the last twelve bits decide which byte is written |
| Base64.RemainingIsEncoded | src/serialization/b64.hpp:16-27 | Writing byte by byte gives the same text as writing group by group, whatever byte came before |
| Base64.EncodedLength | src/serialization/b64.hpp:26-27 | The text has four symbols for every three bytes begun |
| Base64.RoundTrip | src/serialization/b64.hpp:11-49 | Decoding undoes encoding for byte strings of any length |
| Base64.SymbolCodes | src/serialization/b64.hpp:20 | The 64 symbols by their character codes: letters, digits, plus and slash, as in table 1 of RFC 4648 |
| Base64.EncodedGroup | src/serialization/b64.hpp:16-23 | Three bytes are one group of 24 bits, written as four symbols from the left |
| Base64.EncodedEnd | src/serialization/b64.hpp:24-27 | Two bytes left over are written as three symbols and one "=", one byte as two symbols and two "=" (code 61) |
| Base64.Padding | src/serialization/b64.hpp:26-27 | The character "=" fills up the last four and stands nowhere else |
| Base64.SymbolValues | src/serialization/b64.hpp:35-36 | Which characters are symbols, and of what value, by their codes |
| Base64.DecodingStops | src/serialization/b64.hpp:40 | Reading stops at the first character that is no symbol, whatever comes behind it |
| Base64.DecodedByGroups | src/serialization/b64.hpp:39-48 | Four symbols are the three bytes of their 24 bits; of a rest three are two bytes, two are one and one is none |
| BasicToken.CredentialRoundTrip | src/serialization/basic_token.hpp:9-26 | A user name and password come back from their token exactly when the user name has no colon; the password may have any (section 2 of RFC 7617) |
| BasicToken.TokenText | src/serialization/basic_token.hpp:9-26 | The text in a token is the name, a colon (code 58) and the password, and any token with such a text gives that pair |
| BasicToken.Credentials | src/serialization/basic_token.hpp:16-26 | Decoding succeeds exactly when there is a colon, and cuts at the first one without losing a byte |
| BasicToken.Find | src/serialization/basic_token.hpp:20 | The position found is that of the first occurrence; none is found exactly when there is none |
| Bytes.U32RoundTrip | src/serialization/network_bytes.hpp:8-16 | A 32-bit number survives network byte order |
| Bytes.BigEndian | src/serialization/network_bytes.hpp:8-11 | The first of the four bytes weighs 2^24, the last one 1 |
| Bytes.BigEndianRead | src/serialization/network_bytes.hpp:13-16 | Four bytes are read with the same weights |
| Bytes.U32BytesRoundTrip | src/serialization/network_bytes.hpp:8-16 | Four bytes survive being read as a number, so the number is determined by them |
| FrameBuffers.FrameBuffer.From | src/serialization/frame_buffer.hpp:24-29 | A buffer made from a byte string holds just that, unread |
| FrameBuffers.FrameBuffer.Size | src/serialization/frame_buffer.hpp:31-40 | The size is the number of bytes to be read exactly when fewer than 2^31 bytes are held, consumed ones included |
| FrameBuffers.FrameBuffer.Write | src/serialization/frame_buffer.hpp:42-45 | Appends to the flat byte string |
| FrameBuffers.FrameBuffer.Read | src/serialization/frame_buffer.hpp:47-71 | Returns the first bytes of the flat byte string and leaves the rest, for any fragmentation with empty fragments and an exhausted front; never touches an empty deque and terminates |
| FrameBuffers.FrameBuffer.Take | src/serialization/frame_buffer.hpp:61-67 | One pass of the read loop takes its bytes off the front of the flat byte string |
| FrameBuffers.FrameBuffer.ToVector | src/serialization/frame_buffer.hpp:73-84 | Unread, a buffer becomes four bytes that give its length, most significant first by their weights, followed by all its bytes |
| FrameBuffers.FrameBuffer.PopFront | src/serialization/frame_buffer.hpp:54-59 | An exhausted fragment at the front goes without changing the flat byte string |
| FrameReaders.FrameReader.Write | src/serialization/frame_reader.hpp:35-49 | Takes the step of the abstract reader: header when four bytes are there, one frame when it is complete; true when a frame is ready |
| FrameReaders.FrameReader.Read | src/serialization/frame_reader.hpp:53-59 | Hands out the oldest frame as a fresh buffer |
| FrameReaders.WriteLaw | src/serialization/frame_reader.hpp:35-49 | With or without a pending length, a write releases the first complete frame of the unreleased bytes if there is one, and nothing else |
| FrameReaders.ChunkLaw | src/serialization/frame_reader.hpp:35-49 | To a reader that has released n of the complete frames one more chunk brings the next complete frame, if there is one, and no other |
| FrameReaders.DeframingLaw | src/serialization/frame_reader.hpp:35-49 | For every stream and every chunking the frames released are the first ones in order, the rest is pending, and released = min(complete, released before + 1); of the reader while its buffer holds fewer than 2^31 bytes |
| FrameReaders.LagBound | src/serialization/frame_reader.hpp:35-49 | Since any earlier moment at most one frame was released for each chunk |
| FrameReaders.CaughtUp | src/serialization/frame_reader.hpp:35-49 | There was a moment with nothing waiting since which exactly one frame was released for each chunk |
| FrameReaders.NothingLags | src/serialization/frame_reader.hpp:35-49 | No complete frame waits exactly when no tail of the chunks completes more frames than it has chunks |
| FrameReaders.TwoFramesInOneChunk | src/serialization/frame_reader.hpp:42-46 | Two frames in one chunk: one is released, one stays behind |
| FrameReaders.FramesOfPrefix | src/serialization/frame_reader.hpp:39-46 | Whatever part of a stream of frames has arrived, its complete frames are the first ones sent, and all of them once all has arrived |
| FrameReaders.MoreBytes | src/serialization/frame_reader.hpp:37 | More bytes never change a frame that is complete |
| Messages.RoundTrip | src/messages/_message.hpp:31-48 | Each of the nine message types, with lengths below 2^32 and 32-bit entitlements, is read back from in front of any further bytes, which are left over |
| Messages.BodyRoundTrip | src/messages/_message_inline.hpp:22-56 | The body chosen by the type byte is read back by the reader chosen by the same type byte |
| Messages.PrefixFree | src/messages/_message.hpp:31-48 | Encodings are injective and none is a prefix of another |
| WireFormat.EncodeIsFormat | src/messages/_message_type.hpp:11-22 | The encoding of a message is the one string that the format allows: the number of its type from 1 to 9, then its fields in order, lengths and counts as four bytes by weight, a flag as 1 or 0, a negative entitlement counted down from 2^32 |
| WireFormat.DecodeIsFormat | src/messages/_message_inline.hpp:22-56 | Whatever is decoded, from any bytes at all, is what the format says they hold, only that every byte but 1 is false; a type is unknown exactly outside 1 to 9 |
| WireFormat.BodyWritten | src/messages/_forwarded_unicast_data.hpp:79-87 | Type number and fields of each of the nine encodings |
| WireFormat.PacketsWritten | src/messages/_data_packet.hpp:63-70 | A vector of packets is its count and for each packet entitlement, content type and data |
| Messages.PacketRoundTrip | src/messages/_data_packet.hpp:63-79 | A data packet is read back in front of any further bytes |
| Messages.PacketsRoundTrip | src/serialization/frame_buffer_io.hpp:119-141 | A vector of packets, preceded by its length, is read back in front of any further bytes |
| Messages.StringRoundTrip | src/serialization/frame_buffer_io.hpp:99-115 | A string, preceded by its length, is read back in front of any further bytes |
| Messages.Int32RoundTrip | src/serialization/frame_buffer_io.hpp:84-95 | A signed number survives the detour over an unsigned one |
| FrameBufferIO.WriteChar | src/serialization/frame_buffer_io.hpp:17-21 | Appends the byte |
| FrameBufferIO.WriteBool | src/serialization/frame_buffer_io.hpp:32-36 | Appends 1 or 0 |
| FrameBufferIO.WriteU32 | src/serialization/frame_buffer_io.hpp:48-54 | Appends four bytes, most significant first |
| FrameBufferIO.WriteSize | src/serialization/frame_buffer_io.hpp:65-72 | Appends a length as a 32-bit number and throws exactly when it does not fit |
| FrameBufferIO.WriteInt32 | src/serialization/frame_buffer_io.hpp:84-87 | Appends the two's complement of a signed number |
| FrameBufferIO.WriteString | src/serialization/frame_buffer_io.hpp:99-105 | Appends length and bytes; throws exactly when the length does not fit |
| FrameBufferIO.WriteChars | src/serialization/frame_buffer_io.hpp:119-126 | The vector loop over bytes appends the same as a string of them |
| FrameBufferIO.WritePackets | src/serialization/frame_buffer_io.hpp:119-126 | The vector loop appends the number of packets and then each of them; throws exactly when something does not fit |
| FrameBufferIO.ReadChar | src/serialization/frame_buffer_io.hpp:23-28 | Consumes exactly the encoding of the byte it returns |
| FrameBufferIO.ReadBool | src/serialization/frame_buffer_io.hpp:38-44 | Consumes one byte, true exactly when it is 1 |
| FrameBufferIO.ReadU32 | src/serialization/frame_buffer_io.hpp:56-61 | Consumes four bytes, most significant first |
| FrameBufferIO.ReadInt32 | src/serialization/frame_buffer_io.hpp:89-95 | Consumes four bytes as a two's complement number |
| FrameBufferIO.ReadString | src/serialization/frame_buffer_io.hpp:107-115 | Consumes a length and that many bytes |
| FrameBufferIO.ReadChars | src/serialization/frame_buffer_io.hpp:128-141 | The vector loop over bytes consumes the same as reading a string |
| FrameBufferIO.ReadPackets | src/serialization/frame_buffer_io.hpp:128-141 | The vector loop consumes exactly the packets it returns |
| FrameBufferIO.WritePacket | src/messages/_data_packet.hpp:63-70 | Appends entitlement, content type and data, in that order |
| FrameBufferIO.ReadPacket | src/messages/_data_packet.hpp:72-79 | Consumes entitlement, content type and data, in that order |
| FrameBufferIO.WriteAuthenticationRequest | src/messages/_authentication_request.hpp:65-70 | Appends method and credentials |
| FrameBufferIO.WriteMulticastData | src/messages/_multicast_data.hpp:65-70 | Appends topic and packets |
| FrameBufferIO.WriteTopicRequest | src/messages/_subscription_request.hpp:63-68 | Appends topic and flag; the body of a notification request is the same |
| FrameBufferIO.WriteUnicastData | src/messages/_unicast_data.hpp:70-76 | Appends client id, topic and packets |
| FrameBufferIO.WriteForwardedSubscriptionRequest | src/messages/_forwarded_subscription_request.hpp:77-85 | Appends user, host, client id, topic and flag |
| FrameBufferIO.WriteForwardedMulticastData | src/messages/_forwarded_multicast_data.hpp:75-82 | Appends user, host, topic and packets |
| FrameBufferIO.WriteForwardedUnicastData | src/messages/_forwarded_unicast_data.hpp:79-87 | Appends user, host, client id, topic and packets |
| FrameBufferIO.WriteBody | src/messages/_message.hpp:35 | The virtual call appends the body of the message's own type; throws exactly when the message is not encodable |
| FrameBufferIO.ReadBody | src/messages/_message_inline.hpp:22-56 | Consumes the body of the given type; throws exactly when the type is not 1 to 9 |
| FrameBufferIO.Serialize | src/messages/_message.hpp:31-37 | A fresh buffer holding type byte and body as the wire format has them |
| FrameBufferIO.ToWire | src/server/interactor.cpp:47-52 | The bytes given to the poller are the length, most significant byte first, and the message as the wire format has it |
| FrameBufferIO.Deserialize | src/messages/_message.hpp:41-48 | Consumes exactly one message from the buffer, as the wire format has it, and returns it; throws exactly when the first byte is not 1 to 9 |
| SocketPollHandlers.Stream.Write | src/io/tcp_stream.hpp:232-272 | The stream as an oracle: takes one to all of the bytes offered, blocks, ends or faults, and a fault closes it |
| SocketPollHandlers.Stream.Read | src/io/tcp_stream.hpp:179-230 | The stream as an oracle: gives one to as many of the arrived bytes as asked for, blocks, ends or faults |
| SocketPollHandlers.TcpSocketPollHandler.Enqueue | src/io/tcp_socket_poll_handler.hpp:190-193 | The whole buffer joins what is unsent |
| SocketPollHandlers.TcpSocketPollHandler.WriteFront | src/io/tcp_socket_poll_handler.hpp:122-152 | One pass offers at most the buffer size and no more than the front entry, and advances the queue by what was taken |
| SocketPollHandlers.TcpSocketPollHandler.Drain | src/io/tcp_socket_poll_handler.hpp:119-153 | The loop ends with an empty queue, a closed socket or a stream that refused, and terminates for every oracle |
| SocketPollHandlers.TcpSocketPollHandler.FlushPending | src/io/tcp_socket_poll_handler.hpp:155-159 | An empty write for pending TLS output sends nothing of the queue |
| SocketPollHandlers.TcpSocketPollHandler.Write | src/io/tcp_socket_poll_handler.hpp:114-168 | Bytes accepted followed by what is unsent are what was unsent before, offsets stay within their buffers, a fault closes the socket before it is passed on, and a closed socket writes nothing |
| SocketPollHandlers.TcpSocketPollHandler.Read | src/io/tcp_socket_poll_handler.hpp:77-112 | Chunks queued followed by what is still to be read are, in order, what had arrived; every chunk is non-empty and within the buffer size |
| SocketPollHandlers.TcpSocketPollHandler.Dequeue | src/io/tcp_socket_poll_handler.hpp:180-188 | The oldest chunk, or nothing exactly when there is none |
| SocketPollHandlers.TcpSocketPollHandler.DequeueAll | src/io/poller.hpp:160-166 | The poller's loop collects every chunk in order and empties the queue |
| SocketPollHandlers.AdvanceUnsent | src/io/tcp_socket_poll_handler.hpp:138-150 | Advancing the queue by n bytes takes the first n off what is unsent and keeps offsets within non-empty buffers |
| SocketPollHandlers.AdvanceTwice | src/io/tcp_socket_poll_handler.hpp:138-150 | Partial writes add up: advancing by n and then by k is advancing by n + k |
| SocketPollHandlers.UnsentSnoc | src/io/tcp_socket_poll_handler.hpp:190-193 | Enqueueing is concatenation |
| Channels.Receiver.ProcessFront | src/server/interactor.cpp:60-62 | Takes the oldest frame, deserializes it and processes the message; an unknown type throws, and processing may |
| Channels.Receiver.ProcessAll | src/server/interactor.cpp:58-63 | Processes the frames in order up to one that throws, which is gone while those behind it stay |
| Channels.CollectStops | src/server/interactor.cpp:58-63 | Of frames that decode, the messages up to and including the first that throws are processed, and the frames behind it are left |
| Channels.Receiver.Receive | src/server/interactor.cpp:54-64 | One chunk: write it to the reader, then process every frame that is ready, up to one that throws |
| Channels.SendKeepsInv | src/server/interactor.cpp:47-52 | Sending a message appends its frame to the stream of bytes |
| Channels.TransmitKeepsInv | src/io/tcp_socket_poll_handler.hpp:114-168 | However much the stream accepts, accepted plus unsent bytes are the stream of all frames |
| Channels.NextMessage | src/server/interactor.cpp:60-61 | The frame that a chunk completes decodes to the next message that was sent |
| Channels.FeedKeepsInv | src/server/interactor.cpp:54-64 | A chunk keeps everything in order, hands only whole messages of known type to the deserializer, and throws exactly when the message it completes does |
| Channels.FeedEventLaw | src/server/distributor.cpp:59-60 | A read event keeps the order exactly when it drops no byte, and it drops none exactly when no message that throws is completed by a chunk with more bytes of the event behind it |
| Channels.DroppedStays | src/io/poller.hpp:152-180 | What has been dropped stays dropped |
| Channels.RunKeepsInv | src/server/interactor.cpp:47-64 | Over every schedule, whatever throws: no byte is lost, added or reordered between queue, wire and reader exactly as long as no read event is disturbed |
| Channels.SingleChunksAreQuiet | src/io/poller.hpp:156-171 | Read events of one chunk are never disturbed |
| Channels.EndToEnd | src/server/interactor.cpp:47-64 | For every schedule of sends, partial or refused writes and undisturbed read events, what was received is a prefix of what was sent, as long as the deframing law says; of the reader while its buffer holds fewer than 2^31 bytes |
| Channels.AllReceived | src/serialization/frame_reader.hpp:35-49 | Once all bytes have been read without disturbance, all messages have been received exactly when no tail of the chunks completes more frames than it has chunks |
| Channels.LostMessage | src/server/distributor.cpp:59-60 | A disturbed run for any three messages of which the first throws: the second is destroyed with its chunk and the third arrives in its place |
| Links.Link.Send | src/server/interactor.cpp:47-52 | Serialize, frame and enqueue is the step Send of the channel |
| Links.Link.Write | src/io/poller.hpp:182-195 | One write event is the step Transmit for the number of bytes the stream took |
| Links.Link.Carry | src/io/tcp_stream.hpp:179-230 | The network delivers the next bytes of the wire in order |
| Links.Link.FeedChunk | src/server/distributor.cpp:60 | Passing one chunk to the interactor feeds it to the channel and tells whether it threw |
| Links.Link.FeedAll | src/server/distributor.cpp:51-61 | The loop over the chunks of a read event ends at the first exception, and the chunks behind it are destroyed |
| Links.Link.HandleRead | src/io/poller.hpp:152-180 | One read event reads what there is, feeds it on and swallows an exception: the step Read of the channel, after which the link is in order exactly when the event was undisturbed |
| Authorization.FirstMatchIsFirst | src/server/authorization_repository.cpp:51-62 | The loop finds the entitlements of the first specification whose user, topic and role apply, and none when none does |
| Authorization.LookupLaw | src/server/authorization_repository.cpp:51-62 | In terms of the fields: the entitlements of the first specification whose user and topic patterns match and whose roles include every role asked for; none if there is none |
| Authorization.RolesAsked | src/server/role.hpp:13-22 | Publishers and subscribers are looked up under one role each |
| Authorization.Stored | src/server/authorization_cache.cpp:43-50 | Storing changes the one entry and no other |
| Authorization.AuthorizationCache.Contains | src/server/authorization_cache.cpp:18-33 | True exactly when all three levels of the map have the key |
| Authorization.AuthorizationCache.Get | src/server/authorization_cache.cpp:35-41 | Returns the entry; a miss returns the empty set and leaves it behind as an entry |
| Authorization.AuthorizationCache.Set | src/server/authorization_cache.cpp:43-50 | Sets the one entry |
| Authorization.AuthorizationRepository.Entitlements | src/server/authorization_repository.cpp:44-66 | The lookup, with its loop and its cache, takes the step of the abstract repository |
| Authorization.AuthorizationManager.Load | src/server/authorization_repository.cpp:98-124 | A reload takes the specifications from the file if one is named, else from the command line, else the literal default, with an empty cache; an unreadable file changes nothing |
| Authorization.InForceIsLastReload | src/server/authorization_manager.cpp:24-29 | The specifications in force are those of the last reload that succeeded |
| Authorization.ConsultIsSound | src/server/authorization_repository.cpp:44-66 | With a sound cache a lookup answers like the first match and leaves the cache sound |
| Authorization.RunIsSound | src/server/authorization_repository.cpp:98-124 | After any lookups and reloads the cache is sound for the specifications in force |
| Authorization.CacheTransparency | src/server/authorization_repository.cpp:44-66 | After any lookups, repeated misses and reloads the next lookup answers as if there were no cache |
| Indices.SubsAdd | src/server/subscription_manager.cpp:38-89 | Subscribing keeps counts positive, nothing empty, each subscriber's topics listed, and agreement |
| Indices.SubsAddAt | src/server/subscription_manager.cpp:58-75 | Subscribing adds one to the one count and changes no other |
| Indices.SubsRemove | src/server/subscription_manager.cpp:91-147 | Unsubscribing keeps the index sound under both bindings, and agreement exactly when the removal is not lost on a copy |
| Indices.SubsRemoveAt | src/server/subscription_manager.cpp:115-131 | In place, unsubscribing takes one from the one count, not below zero, and changes no other; by copy it only removes a subscriber that is alone with its last subscription |
| Indices.SubsRemoveByCopy | src/server/subscription_manager.cpp:108 | Copy or reference makes no difference exactly when there is nothing to remove or nothing would be left |
| Indices.SubsDrop | src/server/subscription_manager.cpp:149-184 | A departure keeps the index sound and in agreement and forgets the subscriber |
| Indices.SubsDropAt | src/server/subscription_manager.cpp:161-183 | A departure removes the subscriber from just its own topics and leaves every other count |
| Indices.NotifsAdd | src/server/notification_manager.cpp:38-81 | Listening keeps the index sound exactly when the pattern compiles or is known, and then agreement exactly when the listener is recorded |
| Indices.NotifsAddAt | src/server/notification_manager.cpp:54-68 | In place, listening adds one to the one count and changes no other |
| Indices.NotifsRemove | src/server/notification_manager.cpp:108-160 | Ceasing to listen keeps the index sound and in agreement, and by copy does what it does in place |
| Indices.NotifsRemoveAt | src/server/notification_manager.cpp:129-144 | Ceasing to listen takes one from the one count, not below zero, and changes no other |
| Indices.NotifsDrop | src/server/notification_manager.cpp:162-193 | A departure keeps patterns, expressions and listeners in agreement and forgets the listener |
| Indices.PubsAdd | src/server/publisher_manager.cpp:250-271 | Recording a publisher keeps the two directions inverse and nothing empty |
| Indices.PubsAddAt | src/server/publisher_manager.cpp:250-271 | Recording adds the one publisher to the one topic |
| Indices.PubsDrop | src/server/publisher_manager.cpp:199-243 | A departure keeps the two directions inverse and nothing empty and forgets the publisher |
| Indices.PubsDropAt | src/server/publisher_manager.cpp:207-222 | A topic is stale, and disappears, exactly when the departing client was its sole publisher |
| ServerInvariants.MessageKeepsInv | src/server/hub.cpp:55-103 | A request keeps the invariant of the server, as written and as intended, exactly when it does not leave a pattern without an expression |
| ServerInvariants.CloseKeepsInv | src/server/hub.cpp:44-53 | So does every departure, which cleans up subscriptions, listeners, publishers and clients in this order |
| ServerInvariants.CloseEffect | src/server/hub.cpp:44-53 | A departure removes one interactor, one descriptor and one client and drops it from the three indices |
| ServerInvariants.StepKeepsInv | src/server/distributor.cpp:32-61 | So does every event (accepted, received, connected, closed, reloaded), also a first message of any type |
| ServerInvariants.RunKeepsInv | src/server/distributor.cpp:32-61 | After every run with patterns that compile counts are positive, nothing is empty, patterns and expressions have the same keys, publishers are exact inverses, and whoever has topics, patterns or publications or is a client of the hub is live and authenticated, under both bindings |
| ServerInvariants.StepKeepsAgreement | src/server/hub.cpp:55-103 | The two directions of the indices go on agreeing exactly through the events that are not lost on a copy |
| ServerInvariants.RunKeepsAgreement | src/server/hub.cpp:44-103 | In place they agree after every run |
| References.MentionedIsKnown | src/server/hub.cpp:44-53 | As written already, whoever is mentioned in the hub's seven maps is live and authenticated, except a subscriber listed under a topic that is not among its own |
| References.NoDeadReferences | src/server/distributor.cpp:32-49 | In place, whoever is mentioned in any of the seven maps after any run is live and authenticated |
| References.MentionedAfterClose | src/server/hub.cpp:44-53 | After a departure the interactor is still mentioned exactly when it was listed under a topic that was not among its own |
| References.GoneAfterClose | src/server/distributor.cpp:39-49 | In place, a departure leaves no mention of the interactor |
| References.LostUnsubscription | src/server/subscription_manager.cpp:108-131 | As written, an unsubscription from a shared topic and a departure leave the subscriber listed although it is gone |
| Witnesses.DeadReferenceAsWritten | src/server/subscription_manager.cpp:108-131 | A concrete run from the start that ends so, for any credentials that are accepted: two subscribers, one unsubscribes and leaves |
| Witnesses.TrespasserAsWritten | src/server/subscription_manager.cpp:108-131 | The same run and one more connection at the freed address: a subscriber that has not authenticated |
| Witnesses.UnrecordedAsWritten | src/server/notification_manager.cpp:56-67 | A concrete run: of two clients that listen under one pattern the second is no listener, as written |
| Witnesses.FirstMessageSubscribes | src/server/interactor.cpp:76-82 | A concrete run: a client that has just connected subscribes, and a null pointer is dereferenced |
| Witnesses.RejectedIsToldTrue | src/server/interactor.cpp:83-91 | A concrete run: rejected credentials put the answer true into the queue of a client that stays unauthenticated |
| References.StepKeepsSafe | src/server/subscription_manager.cpp:149-184 | Every listed subscriber stays live and authenticated exactly until such a departure |
| References.AuthenticatedOnly | src/server/interactor.cpp:66-92 | An interactor whose user is not set is in none of the seven maps, except that as written it may be listed as a subscriber; in place it is not |
| References.StepLists | src/server/subscription_manager.cpp:149-184 | Exactly how subscribers come to dangle and unauthenticated interactors come to be listed: by a departure that leaves them listed, and by the next use of that address |
| References.HowTrespassing | src/server/subscription_manager.cpp:108-131 | After any run, whoever is listed without having authenticated was given the address of an interactor that left earlier and stayed listed |
| References.UserIsFinal | src/server/interactor.cpp:74-92 | While the interactor lives its user is set by nothing but its own accepted authentication and never unset or changed after that, and host and id are fixed |
| References.UnauthenticatedDisconnect | src/server/hub.cpp:44-53 | A client that never authenticated leaves without touching an index or telling anybody |
| References.UnicastNeedsConnected | src/server/hub.cpp:37-42 | Without a call of on_connected no unicast changes anything, after any run |
| Histories.RequestCounts | src/server/subscription_manager.cpp:58-75 | In place, a request changes the one count it is about as the history says, and no other |
| Histories.CloseCounts | src/server/subscription_manager.cpp:149-184 | A departure sets the counts of the departing client to zero and no other |
| Histories.CountsAreHistory | src/server/subscription_manager.cpp:58-131 | In place, for every interleaving with other clients, every stored count is the fold of that client's own requests since it connected, up by one, down by one but not below zero |
| Histories.CountStuckAsWritten | src/server/subscription_manager.cpp:115-131 | As written, an unsubscription counts exactly when there was nothing to count or the subscriber was alone with its last subscription |
| Histories.LoggedInLaw | src/server/interactor.cpp:66-92 | After every run the user of a connection is set exactly when one of its own requests to authenticate was accepted since it connected |
| Histories.RegisteredLaw | src/server/distributor.cpp:32-49 | After every run an interactor has the descriptor, host and uuid it was opened with and the user of its first accepted authentication, by the events alone, and is there exactly from then until it is closed |
| Histories.ThrownExactly | src/server/hub.cpp:94-99 | Exactly which messages throw, by type |
| Histories.RulesAreLastReload | src/server/hub.cpp:25-35 | After every run the rules in force are those of the last reload |
| Histories.ClientsAreAnnounced | src/server/hub.cpp:37-53 | After every run the clients a unicast can be sent to are exactly those the hub was told about and that are still there |
| Histories.NullDereference | src/server/interactor.cpp:76-82 | After every run, processing a message dereferences the null pointer exactly when it is no request to authenticate and none was accepted yet; no index and no queue changes |
| Histories.ThrownChangesNothing | src/server/hub.cpp:94-99 | A message that throws changes nothing, except exactly a pattern that is left without an expression |
| ListenerView.SubscriptionTells | src/server/subscription_manager.cpp:38-147 | After a subscription request a recorded listener has been told how the topic stands, or nothing changed |
| ListenerView.NoticeExactness | src/server/subscription_manager.cpp:38-147 | A listener gets one notice, naming the subscriber by user, host and id, exactly when one of its patterns matches and the subscriber is new to the topic or the topic loses its last subscriber; else none |
| ListenerView.SnapshotEntries | src/server/notification_manager.cpp:90-104 | A snapshot has an entry for every subscriber of every matching topic, and no other |
| ListenerView.SnapshotExactness | src/server/notification_manager.cpp:83-104 | A request to listen adds to the queue of the listener one message for each subscriber of each matching topic, naming it by user, host and id, none twice and no other; no other queue changes |
| ListenerView.DepartureExactness | src/server/subscription_manager.cpp:161-181 | What a departure sends to anybody who stays, in order and none twice: one notice for each topic left without subscribers that the receiver listens to, then one empty message for each topic that nobody else publishes and that the receiver subscribes to |
| ListenerView.SnapshotSays | src/server/notification_manager.cpp:83-104 | A snapshot says subscribed of every topic that matches and has subscribers, and says nothing of any other |
| ListenerView.ListenTells | src/server/notification_manager.cpp:83-104 | A further snapshot says only what is so |
| ListenerView.CloseTells | src/server/subscription_manager.cpp:161-181 | A departure tells a remaining listener of every topic it deserts, before the last messages of publishers |
| ListenerView.EventTells | src/server/notification_manager.cpp:195-255 | Whatever happens, what a recorded listener is sent says how things stand or nothing changed |
| ListenerView.RecordedWithSnapshot | src/server/notification_manager.cpp:38-104 | Whoever becomes a listener is sent an exact snapshot in the same step |
| ListenerView.ViewIsExact | src/server/notification_manager.cpp:83-104 | After every run, under both bindings: folding all messages sent to a listener since it was recorded, the last one about a topic winning, gives exactly the topics of its pattern that have subscribers |
| ListenerView.RecordedOnRequest | src/server/notification_manager.cpp:54-68 | A request to listen is recorded, except, as written, exactly when the pattern has another listener |
| Data.PositionsLaw | src/server/publisher_manager.cpp:29-40 | The positions kept are all entitled ones, in order and each once |
| Data.EntitledLaw | src/server/publisher_manager.cpp:29-40 | The filter keeps the packets at just these positions |
| Data.MulticastExactness | src/server/publisher_manager.cpp:122-197 | The publisher is recorded, and every current subscriber gets one message with the packets both sides are entitled to, or none; sent exactly when there are common entitlements or the publisher has none, and a common packet or none was asked for; nobody else gets anything |
| Data.UnicastExactness | src/server/publisher_manager.cpp:53-120 | The client meant gets one such message or none, and only then the sender becomes a publisher of the topic; nobody else gets anything, and for an unknown client nothing changes |
| Data.SentIf | src/server/publisher_manager.cpp:143-181 | The two early exits of the loop together send exactly under that condition |
| Data.Confidentiality | src/server/publisher_manager.cpp:122-197 | In every reachable state, whatever happens next, queues only grow, and none receives a packet outside the entitlements of its owner or of the publisher it names |
| Data.PublisherLeaves | src/server/publisher_manager.cpp:199-243 | After the notices about its subscriptions, a departing publisher causes one empty message for each topic that the receiver still subscribes to and that nobody else publishes, and none for any other |
| Data.SendGoneTo | src/server/publisher_manager.cpp:220-240 | The loop over stale topics sends each receiver its messages in the order of the topics |
| Data.StaleTopics | src/server/publisher_manager.cpp:207-216 | The topics announced are, each once, those whose sole publisher departs |
| Sending.StepSends | src/server/hub.cpp:44-103 | Every queue that stays grows by the messages that belong to the event and by nothing else |
| Attribution.NoticeIsGenuine | src/server/notification_manager.cpp:206-211 | A notice names the subscriber it is about, by user, host and id |
| Attribution.SnapshotIsGenuine | src/server/notification_manager.cpp:90-104 | Every entry of a snapshot names a current subscriber of the topic, while every subscriber is live |
| Attribution.DepartureIsGenuine | src/server/hub.cpp:44-53 | A departure announces only topics the client had and that nobody subscribes to any more, and only topics it alone published |
| Attribution.AnswerExactness | src/server/interactor.cpp:83-91 | The answer to an authentication is one message, always true, which is so of its receiver exactly when the credentials were accepted |
| Attribution.StepIsGenuine | src/server/hub.cpp:44-103 | While no dangling subscriber is listed, queues only grow, and every message sent names a live authenticated interactor and states what the step makes or finds true, exactly unless the event is a rejected authentication; message types a client sends are never sent to one |
| Attribution.EveryMessageIsGenuine | src/server/hub.cpp:44-103 | In place that is every step of every run |
| Switchboards.Switchboard.Send | src/server/interactor.cpp:47-52 | The message joins the queue of the handler if there still is one, else goes nowhere |
| Switchboards.Switchboard.SendToAll | src/server/notification_manager.cpp:213-223 | The loop sends to each interactor of the set once |
| Managers.NotificationManager.FindListeners | src/server/notification_manager.cpp:226-255 | The loop over compiled patterns finds every listener of a matching pattern |
| Managers.NotificationManager.Notify | src/server/notification_manager.cpp:195-224 | Every listener whose pattern matches is told once |
| Managers.NotificationManager.Record | src/server/notification_manager.cpp:45-81 | Both directions and the expression are recorded as the model says; throws exactly when a new pattern does not compile |
| Managers.NotificationManager.SendSnapshot | src/server/notification_manager.cpp:91-104 | The two loops send one message for each subscriber of each topic, in order |
| Managers.NotificationManager.AddListener | src/server/notification_manager.cpp:38-106 | Recorded, then sent the snapshot |
| Managers.NotificationManager.RemoveListener | src/server/notification_manager.cpp:108-160 | Count, listener, pattern and expression are removed as the model says, by copy or in place |
| Managers.NotificationManager.OnListen | src/server/notification_manager.cpp:21-36 | Dispatch on the flag |
| Managers.NotificationManager.OnInteractorClosed | src/server/notification_manager.cpp:162-193 | The loop over the listener's patterns erases it from each and drops the patterns left empty |
| Managers.MatchingIsSnapshot | src/server/subscription_manager.cpp:202-220 | The pairs found, flattened into messages, are the snapshot |
| Managers.SubscriptionManager.AddSubscription | src/server/subscription_manager.cpp:38-89 | Counted and recorded; listeners are told exactly when the subscriber is new to the topic |
| Managers.SubscriptionManager.RemoveSubscription | src/server/subscription_manager.cpp:91-147 | Counted down or removed, by copy or in place; listeners are told exactly when the topic loses its last subscriber |
| Managers.SubscriptionManager.DropFromTopic | src/server/subscription_manager.cpp:163-180 | One pass of the departure loop |
| Managers.SubscriptionManager.RemoveInteractor | src/server/subscription_manager.cpp:149-184 | The loop erases the subscriber from its topics and tells the listeners of those left empty, in order |
| Managers.SubscriptionManager.FindSubscribers | src/server/subscription_manager.cpp:186-200 | The loop collects the subscribers of the topic |
| Managers.SubscriptionManager.FindMatchingSubscriptions | src/server/subscription_manager.cpp:202-220 | The loops collect every matching topic with its subscribers, in order |
| Managers.SubscriptionManager.OnSubscription | src/server/subscription_manager.cpp:20-29 | Dispatch on the flag |
| PublisherManagers.PublisherManager.AddPublisher | src/server/publisher_manager.cpp:250-271 | Recorded in both directions |
| PublisherManagers.PublisherManager.GetAuthorizedData | src/server/publisher_manager.cpp:29-40 | The loop is the in-order filter |
| PublisherManagers.PublisherManager.Authorize | src/server/publisher_manager.cpp:145-181 | Lookups through the cache, intersection, filter and the two early exits agree with the first-match rules |
| PublisherManagers.PublisherManager.OnSendUnicast | src/server/publisher_manager.cpp:53-120 | Publisher recorded and message sent exactly when the client is known and cleared |
| PublisherManagers.PublisherManager.OnSendMulticast | src/server/publisher_manager.cpp:122-197 | Publisher recorded first; the loop over subscribers sends each what is cleared; recording again at the end changes nothing |
| PublisherManagers.AddedAgain | src/server/publisher_manager.cpp:195-196 | Recording a publisher twice is recording it once |
| PublisherManagers.PublisherManager.EraseEverywhere | src/server/publisher_manager.cpp:207-216 | The first loop erases the publisher from every topic and remembers those left empty |
| PublisherManagers.PublisherManager.AnnounceGone | src/server/publisher_manager.cpp:226-239 | Every subscriber of the topic gets the empty message |
| PublisherManagers.PublisherManager.OnInteractorClosed | src/server/publisher_manager.cpp:199-243 | Both loops together drop the publisher and send the last messages in the order of the topics |
| PublisherManagers.PublisherManager.ReloadAuthorizations | src/server/publisher_manager.cpp:245-248 | New rules and an empty cache, or no change when the file cannot be read |
| Service.HubService.OnMessage | src/server/hub.cpp:55-103 | Dispatch: exactly the step of the model, with every pointer followed live, and an exception exactly when the model has one |
| Service.HubService.OnDisconnected | src/server/hub.cpp:44-53 | The ordered cleanup is the departure of the model |
| Service.HubService.OnConnected | src/server/hub.cpp:37-42 | Inserts the client and keeps what is there |
| Service.HubService.ListenersReached | src/server/notification_manager.cpp:213-222 | Every listener found is live, under both bindings |
| Service.Distributor.OnOpen | src/server/distributor.cpp:32-37 | A new descriptor and an interactor with the descriptor, host and uuid given, no user and an empty queue: the step of the model, invariant kept |
| Service.Distributor.OnRead | src/server/interactor.cpp:66-72 | One message of any type, authentication first: the step and the outcome of the model, and the invariant exactly unless a pattern is left without an expression |
| Service.Distributor.Authenticate | src/server/interactor.cpp:74-92 | Sets the user on success only; answers success and failure alike; another type of message dereferences the null pointer and changes nothing |
| Service.Distributor.OnClose | src/server/distributor.cpp:39-49 | The step of the model; the invariant with live subscribers survives exactly when no dangling subscriber is left |
| Service.Distributor.OnInterrupt | src/server/distributor.cpp:24-30 | A reload of the rules: the step of the model, or no change when the passwords or the rules cannot be read |
| Pollers.Poller.AddHandler | src/io/poller.hpp:63-70 | Handlers and interactors stay in lockstep when a descriptor is accepted |
| Pollers.Poller.Close | src/io/poller.hpp:80-86 | Closing only marks the handler; the server does not change |
| Pollers.Poller.FindClosedHandlerFds | src/io/poller.hpp:227-238 | The loop lists exactly the closed handlers, in order |
| Pollers.Poller.RemoveClosedHandlers | src/io/poller.hpp:221-249 | The sweep takes the server through one departure after the other and leaves exactly the open handlers and their interactors; the server is sound afterwards exactly when no departure leaves a dangling subscriber |
| Pollers.Poller.Sweep | src/io/poller.hpp:242-248 | The handler is erased before the distributor is told; a listener has no interactor to close; the server is sound afterwards exactly when nothing dangles |
| Pollers.AgreementMeansNoneDangles | src/io/poller.hpp:240-249 | In place, no departure of a sweep leaves a dangling subscriber |

## Left out

- Sockets, `poll`, TLS, timers, signals and logging: a stream is an oracle that takes or gives some bytes, blocks, ends or faults; a reload is an ordinary event.
- `Poller::event_loop` (`src/io/poller.hpp:88-125`): an endless loop; its parts are modelled, in any order of events.
- Regular expressions, uuids, YAML and password files: `Env.matches`, `Env.isPattern` and `Env.authenticate` are arbitrary functions; new uuids and interactor addresses are assumed to differ from the live ones.
- Accepted descriptors that are still keys of the distributor's map: `HubModel.Enabled` assumes an accepted descriptor is new.
- A failed authentication closes the connection (`src/server/interactor.cpp:87`), and so does a first message of another type (`src/server/interactor.cpp:79`): the departure is an event of its own.
- Dereferencing a dangling subscriber or the null pointer of a failed cast: undefined in the source. The model goes on with an empty user, host and id, or with no change. The classes require that no dangling subscriber is followed, and `References.StepKeepsSafe` says exactly when none is.
- Runs with requests to listen under a new pattern that does not compile: `HubModel.Enabled` excludes them, since they leave a pattern without an expression. The request itself is an event of `HubModel.Step`, and `ServerInvariants.StepKeepsInv` says that nothing else spoils the invariant.
- What is deserialized once a read event has dropped bytes: frames may then end inside a message, which the source reads past its end. `Channels.RunKeepsInv` says exactly when that cannot happen.
- A frame of unknown type: what the source throws is no `std::exception`, so the handler of `src/io/poller.hpp:175` does not catch it and the program ends. Here it ends the read event; `Channels.FeedKeepsInv` shows that there is no such frame while the order is kept.
- A reload of the password file may change who is accepted: `Env.authenticate` is one function for a whole run.
- Pollers.Poller.AddHandler: requires that no handler has the descriptor. The source overwrites a handler that is closed and not yet swept.
- Pollers.Poller.RemoveClosedHandlers: requires that a departure that leaves a dangling subscriber is the last of its sweep, since the next one may follow the dangling pointer.
- The queue of an interactor holds messages in `HubModel.dfy` and bytes in `Channel.dfy`: `FrameBufferIO.ToWire` is the step between them; the two state machines are not joined into one.
- FrameBuffers.FrameBuffer.ToVector: requires that nothing was read from the buffer, as its only caller does, since the source ignores the offset and would copy past the end; and fewer than 2^31 bytes, since it consults the size.
- FrameBufferIO.ToWire: requires an encoding of fewer than 2^31 bytes, for the same reason.
- FrameReaders.FrameReader.Write: requires fewer than 2^31 bytes in the buffer, since the size it consults is wrong from there on (`FrameBuffers.FrameBuffer.Size`).
- Channels.EndToEnd: the state machine has no bound on the bytes a reader holds; `Links.Link.HandleRead`, which takes its read steps, requires fewer than 2^31. The same goes for `FrameReaders.DeframingLaw`.
- FrameBuffers.FrameBuffer.Read: requires that the bytes are there; reading past the end is undefined in the source.
- FrameBufferIO.Deserialize: requires a frame that does not end inside its message, for the same reason; `Channels.FeedKeepsInv` shows that frames of a channel in order do not.
- `std::set` operators of `src/serialization/frame_buffer_io.hpp:145-166`: no message uses them; they would add what the vector operators already show.
- Subscription and notification counts are unbounded integers: overflow of the source's counts is not modelled.
- Interaction of `TcpSocketPollHandler` with `is_open` beyond the stream's flag, `want_read` and `want_write`: readiness is any order of events.
- Strings are byte strings; characters outside ASCII have no special meaning.
- The interactive client, command-line options, `str()` methods and stream printers: presentation.
