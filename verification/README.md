# Verification of cheaproute

Dafny proofs about the JSON reader and writer, the JSON packet codec and the netlink monitor of
cheaproute. `dafny verify dfyconfig.toml` checks everything.

## What is modelled

* **Streams** (`streams.dfy`). The buffered streams are classes over a fixed array with two
  positions; a source may read as short as it likes, a sink only appends.
* **JSON** (`json_*.dfy`, `event_view.dfy`). `JsonReader` and `JsonWriter` are classes with the fields
  of the source. Their methods are proved against functions of those fields and the bytes still to
  come. The writer keeps a ghost log of its calls, and the stream holds exactly the text of the log.
  Reader and writer are proved inverse to each other for every run of calls and every layout.
* **Packet codec** (`packet_*.dfy`, `wire.dfy`, `tcp_options.dfy`, `hex_codec.dfy`, `ip_text.dfy`). The
  deserializer's methods append to a byte vector and patch it in place, and are proved against a
  decoder of token queues (`packet_format.dfy`). The serializer's methods are proved to make the
  writer calls listed in `packet_calls.dfy`. On top stand the round trip, the checksum and the
  balance theorems; `packet_written.dfy` carries the conditions over to packets written down in JSON,
  and `packet_trip.dfy` puts reader, writer, streams and codec together.
* **Netlink monitor** (`netlink_*.dfy`). The monitor is a class whose table holds interface objects
  that are updated in place; broadcasts and sent queries go to ghost logs. The kernel is an
  arbitrary source of messages. The theorems range over all runs.

Headers follow RFC 791 section 3.1, RFC 793 section 3.1, RFC 768 and RFC 792, the checksum RFC 1071
section 1. Words are big-endian numbers, so the byte order macros disappear.

## Where the code does less than one would expect

The obvious claims that fail are replaced by exact conditions:

* A packet that DeserializePacket produced survives the trip through JSON exactly if it is *faithful*
  (`PacketRoundTrips.Faithful`): the data offset is at least 5, an acknowledgement number comes with
  the ACK flag, and the options in front of the data offset are those the walk recognises, with EOL at
  the very end only. The 4-bit data offset keeps the length of the options modulo 64, so the options
  behind it pass for payload. Window scales are written with length 4 and recognised with length 3, so
  no window scale in front of the data offset survives (`WrittenPackets.WindowScaleIsLost`).
* For recorded packets (`PacketRoundTrips.Restorable`) shape and computed fields are asked as well.
* The checksum is folded once; it verifies exactly when this leaves no carry, which
  `WrittenPackets.SingleFoldIsNotEnough` shows to happen with an ordinary packet.
* The total length field keeps the low byte of the length.
* The option walk never ends on an option that claims length zero. This is the one condition
  SerializePacket needs (`PacketCalls.Walkable`), and packets from DeserializePacket always meet it.
* Enumeration values are looked up without a look at the token, so a stale text may stand for them.
  Success nevertheless implies that exactly one balanced object was consumed.
* json_packet.h says that the reader ends on the packet's EndObject; this is proved. It stands on it
  only when DeserializePacket succeeds.
* The reader's failures are not sticky: statements about runs end at the first failing call.
* A number is read back exactly if a character follows that ends it, or nothing. At the top level
  nothing writes one, so documents are each read from their own text exactly if no number is followed
  by another document (`JsonDocuments.DocumentsExactly`).
* At most one query is outstanding exactly if every answer carries the number of the query sent last or
  of the one before it (`NetlinkQueries.AtMostOneExactly`).

## Model

| member | source | states |
|---|---|---|
| `Streams.BufferedInputStream.FillBuffer` | src/base/stream.cc:56-62 | Refilling loses and reorders nothing; it yields nothing exactly when the source is exhausted, however short the source reads. |
| `Streams.BufferedInputStream.ReadByte` | src/base/stream.h:28-34 | Takes exactly the first byte of what is left; -1 means nothing is left. |
| `Streams.BufferedInputStream.Peek` | src/base/stream.h:36-42 | Shows the first byte of what is left and consumes nothing. |
| `Streams.BufferedInputStream.Read` | src/base/stream.cc:23-54 | A block read takes a prefix of what is left, touches nothing behind it in the destination, and makes progress unless the stream is exhausted. |
| `Streams.BufferedOutputStream.WriteByte` | src/base/stream.h:59-64 | Sink contents followed by buffered bytes grow by exactly this byte; there is room again afterwards. |
| `Streams.BufferedOutputStream.Write` | src/base/stream.cc:85-102 | The same for a block of any length against a buffer of any size. |
| `Streams.BufferedOutputStream.Flush` | src/base/stream.cc:104-110 | Everything written so far is in the sink and the buffer is empty. |
| `HexCodec.FormatHex` | src/base/common.cc:133-158 | The loop writes the dump text: two digits a byte, a blank between bytes, two at column 8, a line break at column 16. |
| `HexCodec.ParseHex` | src/base/common.cc:160-176 | The loop computes the verdict and the appended bytes of the parse function, which stops at the first NUL, unpaired digit or bad character. |
| `HexCodec.HexRoundTripThen` | src/base/common.cc:133-176 | A dump begun at any column, followed by any text, parses to exactly its bytes and then that text. |
| `HexCodec.HexChunksRoundTrip` | src/net/json_packet.cc:258-275 | Dumps of consecutive chunks joined without separators parse to exactly the concatenated chunks. |
| `JsonReaders.JsonReader.SkipWhitespace` | src/base/json_reader.cc:309-318 | Consumes blanks and the first other byte, or fails on an exhausted stream. |
| `JsonReaders.JsonReader.ReadKeyword` | src/base/json_reader.cc:109-125 | Matches the keyword character by character; terminates with the remaining bytes as measure. |
| `JsonReaders.JsonReader.ScanNumberText` | src/base/json_reader.cc:127-223 | The number loop, with its odd acceptance of unknown characters, ends on every input and leaves the text the specification says. |
| `JsonReaders.JsonReader.ReadNumber` | src/base/json_reader.cc:127-223 | Integers within 64 bits are accepted with their exact value, clamped values are refused, texts with a dot or exponent become floats. |
| `JsonReaders.JsonReader.ReadUnicodeEscapeCharacter` | src/base/json_reader.cc:225-241 | Four hex digits or failure at the first other byte. |
| `JsonReaders.JsonReader.ReadString` | src/base/json_reader.cc:243-307 | Unescapes up to the closing quote, single or double; leaves the partial text on failure. |
| `JsonReaders.JsonReader.ReadValue` | src/base/json_reader.cc:56-107 | Dispatch on the first character, with the mode pushed for containers and token fields set as the source sets them. |
| `JsonReaders.JsonReader.PopMode` | src/base/json_reader.cc:320-328 | Fails on an empty mode stack only. |
| `JsonReaders.JsonReader.Next` | src/base/json_reader.cc:330-388 | Outcome and all fields depend on the old fields and the bytes still to come alone, for any buffering; for a client the call takes the head of the token queue. |
| `EventViews.NextTakesHead` | src/base/json_reader.cc:330-388 | A call succeeds exactly when the token queue is not empty, and moves the current token, its text, its number and the nesting depth by exactly its head; text and number of earlier tokens stay where a token carries none. |
| `JsonNesting.NextNests` | src/base/json_reader.cc:320-388 | Each successful call is one legal step of a nesting automaton defined without the reader, and the mode stack mirrors that automaton. |
| `JsonNesting.EveryStateIsSafe` | src/base/json_reader.cc:320-388 | In every state any number of successful calls can reach, the mode stack is empty exactly in document mode and PopMode cannot fail inside a container. |
| `JsonNesting.TokensFormNestedPrefix` | src/base/json_reader.cc:330-388 | On every input the tokens before the first failure can be completed to a well-nested token stream. |
| `JsonNesting.ClosingCompletes` | src/base/json_reader.cc:330-388 | Every proper nesting can be closed; partner of the prefix theorem. |
| `JsonWriters.JsonWriter.BeginNewLineIfNecessary` | src/base/json_writer.cc:161-168 | Writes a line break and the indentation exactly when indenting outside any pack. |
| `JsonWriters.JsonWriter.BeginValue` | src/base/json_writer.cc:141-159 | Writes the comma and line break due before a value and moves the mode. |
| `JsonWriters.JsonWriter.WriteRawString` | src/base/json_writer.cc:49-72 | Writes the quoted, escaped C string. |
| `JsonWriters.JsonWriter.WritePropertyName` | src/base/json_writer.cc:28-42 | The call is logged, and the stream holds exactly the text of the log; the writer stays well-formed. |
| `JsonWriters.JsonWriter.WriteString` | src/base/json_writer.cc:44-47 | As above; the text stays well-formed JSON unless a value is out of place here. |
| `JsonWriters.JsonWriter.WriteInteger` | src/base/json_writer.cc:88-93 | As above, for 64-bit integers. |
| `JsonWriters.JsonWriter.BeginArray` | src/base/json_writer.cc:110-115 | As above; the mode to return to is pushed and the indentation grows by two. |
| `JsonWriters.JsonWriter.EndArray` | src/base/json_writer.cc:117-123 | As above; a permitted call always finds a mode to return to. |
| `JsonWriters.JsonWriter.BeginObject` | src/base/json_writer.cc:125-130 | As for arrays. |
| `JsonWriters.JsonWriter.EndObject` | src/base/json_writer.cc:132-139 | As for arrays. |
| `JsonWriters.JsonWriter.Flush` | src/base/json_writer.cc:19-21 | The sink holds exactly the text of all calls made, behind what it held before. |
| `JsonWriterSpec.RunKeepsInvariant` | src/base/json_writer.cc:110-139 | In every run whose assertions hold, indentation is twice the stack depth and the stack is empty exactly in document mode, so closing calls never pop an empty stack. |
| `JsonLexemes.StringRoundTrip` | src/base/json_reader.cc:243-307 | Escaping and unescaping any byte string is the identity up to its first NUL, whatever text follows. |
| `JsonLexemes.NumberRoundTrip` | src/base/json_reader.cc:127-223 | Every 64-bit integer printed is read back with the same value and text, and exactly the rest left, if and only if what follows ends a number; otherwise the call fails or swallows part of what follows. |
| `JsonLexemes.KeywordRoundTrip` | src/base/json_reader.cc:109-125 | Every keyword written is matched. |
| `JsonRoundTrip.Step` | src/base/json_reader.cc:330-388 | One writer call that is not a layout hint is undone by exactly one call of Next, in any pair of matching states. |
| `JsonRoundTrip.ReadBack` | src/base/json_writer.cc:28-159 | By induction over runs from any pair of matching states, with any text behind. |
| `JsonRoundTrip.WriterReaderRoundTrip` | src/base/json_writer.cc:28-159 | For every sensible run of calls and either layout flag, reading the text yields exactly the tokens of the calls, and then Next fails. |
| `JsonRoundTrip.LayoutIsIrrelevant` | src/base/json_writer.cc:28-42 | Runs with the same calls but different indentation flags and BeginPack/EndPack placed anywhere, matched or not, are read back as the same tokens. |
| `JsonTrees.TreeIsSensible` | src/base/json_writer.cc:110-159 | The calls that write any tree are never out of place and end where one value ends. |
| `JsonTrees.DocumentsRoundTrip` | src/base/json_writer.cc:28-159 | For every list of trees of objects, arrays, NUL-free strings, 64-bit integers, booleans and null, written back to back in any layout, the reader returns exactly their tokens and then fails. |
| `JsonDocuments.DocumentsExactly` | src/base/json_reader.cc:127-223 | Trees written back to back, in any layout, are each read from exactly their own text if and only if no number is followed by another tree. |
| `JsonDocuments.AdjacentNumbersMerge` | src/base/json_writer.cc:88-93 | Even the tokens may change: 1 followed by 2 has the text of 12. |
| `JsonTrips.ReadTokens` | src/base/json_reader.cc:330-388 | Calling Next until it first fails gives the token sequence of the bytes, for any buffer size and any short reads of the source. |
| `JsonTrips.DocumentTrip` | src/base/json_writer.cc:28-159 | The classes themselves: trees written through JsonWriter and a buffered stream and read through another and JsonReader give exactly their tokens, in either layout and with buffers of any sizes. |
| `JsonTrees.TreeEventsNest` | src/base/json_reader.cc:330-388 | The tokens of a tree are one complete value of the nesting automaton wherever a value may stand. |
| `Wire.Add` | src/net/json_packet.cc:1113-1127 | The loop accumulates the sum of big-endian words, odd tail padded with zero, modulo 2^32. |
| `Wire.ComputeIpChecksum` | src/net/json_packet.cc:1129-1141 | Pseudo header and data summed, folded once, complemented. |
| `Wire.WordSumConcat` | src/net/json_packet.cc:1113-1127 | Two parts can be summed separately when the first has even length. |
| `Wire.ChecksumVerifies` | src/net/json_packet.cc:1129-1141 | For up to 65535 bytes, the words with the check stored sum to 0 modulo 65535 exactly when the single fold leaves no carry, and to 1 otherwise. |
| `PacketChecksums.PacketVerifies` | src/net/json_packet.cc:1235-1276 | For every packet deserialized, IP header and ICMP, UDP or TCP part (with pseudo header) verify at a receiver exactly when the fold of their sum has no carry. |
| `WrittenPackets.BareSegmentExactly` | src/net/json_packet.cc:1129-1141 | For every TCP segment written down in JSON without options and data, the IP header of the packet verifies at a receiver exactly if the words of the header, length set, fold without a carry. |
| `WrittenPackets.SingleFoldIsNotEnough` | src/net/json_packet.cc:1134-1134 | The carry happens: the tokens of a plain SYN from 192.168.0.1 to 192.168.0.2 with identification 63869 are deserialized to a packet whose IP header does not verify. |
| `PacketChecksums.TotalLengthExactly` | src/net/json_packet.cc:1239-1239 | The total length field is right exactly for packets shorter than 256 bytes. |
| `PacketTables.LookupInverts` | src/net/json_packet.cc:119-130 | A number found by name is written as that name: table and lookup map are inverse. |
| `IpText.Ip4RoundTrip` | src/net/ip_address.cc:25-38 | Every address printed as dotted quad is parsed back. |
| `TcpOptions.WalkEndsExactly` | src/net/json_packet.cc:403-461 | The option loop leaves after at most as many rounds as bytes are left exactly when no option it meets claims length zero; otherwise it never leaves. |
| `TcpOptions.WalkOfEncoded` | src/net/json_packet.cc:877-945 | For every list of options, walking the bytes written for it ends and yields the list up to its first EOL, without window scales. |
| `TcpOptions.CleanExactly` | src/net/json_packet.cc:403-461 | Walking an area and writing the result back restores the area exactly if it consists of the recognised options with EOL at the very end only. |
| `TcpOptions.WalkEndsOnPrefix` | src/net/json_packet.cc:403-461 | The walk ends on every prefix of written options, which is what a wrapped data offset leaves. |
| `PacketDeserializer.ExpectNextEnumValue` | src/net/json_packet.cc:652-668 | Looks up whatever text the reader holds; the token type is not checked. |
| `PacketDeserializer.ExpectNextProperty` | src/net/json_packet.cc:748-777 | Name and range-checked integer. |
| `PacketDeserializer.DeserializeFlags` | src/net/json_packet.cc:792-816 | The loop joins the flags of an array of known names. |
| `PacketDeserializer.DeserializeIp4Header` | src/net/json_packet.cc:818-875 | Succeeds exactly as specified and appends exactly the 20 header bytes. |
| `PacketDeserializer.DeserializeTcpHeaderOptions` | src/net/json_packet.cc:877-945 | The loop appends exactly the encodings of the options taken. |
| `PacketDeserializer.DeserializeTcpHeader` | src/net/json_packet.cc:947-1012 | Appends header and options and patches the data offset in place, keeping four bits of it. |
| `PacketDeserializer.DeserializeUdpHeader` | src/net/json_packet.cc:1014-1031 | Appends the UDP header with length and checksum unset. |
| `PacketDeserializer.DeserializeIcmpHeader` | src/net/json_packet.cc:1033-1111 | Appends the ICMP header, its fields by type. |
| `PacketDeserializer.DeserializeData` | src/net/json_packet.cc:1184-1233 | Joins the strings of the array and appends them as text or hex. |
| `PacketDeserializer.DeserializePacket` | src/net/json_packet.cc:1151-1279 | From any reader state: succeeds exactly when the token queue decodes, appends exactly that packet with length and checksums set, and leaves the reader exactly where decoding ended. |
| `PacketSerializer.WriteIpHeader` | src/net/json_packet.cc:305-339 | Makes exactly the calls for the IP header, all of them legal, and returns to the enclosing object. |
| `PacketSerializer.WriteTcpOptionList` | src/net/json_packet.cc:403-463 | The option loop ends and makes exactly the calls of the walk. |
| `PacketSerializer.WriteTcpHeader` | src/net/json_packet.cc:357-467 | The same for the TCP header, flags, options and the unmatched BeginPack included. |
| `PacketSerializer.WriteIcmpHeader` | src/net/json_packet.cc:479-515 | The same for ICMP, its fields by type. |
| `PacketSerializer.SerializeBytes` | src/net/json_packet.cc:224-283 | Chooses text or hex and makes exactly the calls for its lines. |
| `PacketSerializer.SerializePacket` | src/net/json_packet.cc:518-568 | For every byte array whose option walk ends: all reads are in range, no writer assertion fails, exactly the specified calls are made, mode and mode stack end consistently, and the text stays well-formed JSON. |
| `PacketReadBack.PayloadRoundTrip` | src/net/json_packet.cc:224-283 | For every payload the lines of whichever form is chosen contain no NUL and join and decode to exactly the payload. |
| `PacketReadBack.ReadPacket` | src/net/json_packet.cc:518-568 | Decoding the tokens SerializePacket writes for a packet of decodable shape, with any tokens behind, either gives exactly the stated bytes and leaves exactly what is behind, or fails exactly when the option bytes come out unaligned. |
| `PacketShape.DecodedShape` | src/net/json_packet.cc:1151-1233 | Every packet decoded has version 4, no IP options, a named protocol, a complete transport header, an option area the walk gets through and zero length and checksum fields. |
| `PacketShape.BlankFinish` | src/net/json_packet.cc:1235-1276 | Setting length and checksums touches those fields only: zeroing them again restores the bytes. |
| `PacketRoundTrips.TcpExactly` | src/net/json_packet.cc:947-1012 | A TCP segment is restored, checksum aside, exactly if its data offset covers the fixed header, its acknowledgement number is zero or announced by ACK, and the options in front of the data offset are clean. |
| `PacketRoundTrips.ReReadExactly` | src/net/json_packet.cc:518-568 | A packet of decodable shape is restored, length and checksums aside, exactly if it is faithful. |
| `PacketRoundTrips.PacketRoundTrip` | src/net/json_packet.cc:1151-1279 | For every packet DeserializePacket produces, the tokens SerializePacket writes for it make DeserializePacket produce the same bytes, length and checksums included, exactly if the packet is faithful. |
| `PacketRoundTrips.RecordedPacketRoundTrip` | src/net/json_packet.cc:518-568 | For every byte string whose option walk ends, recorded packets included, the tokens SerializePacket writes make DeserializePacket produce the same bytes if and only if it has a shape DeserializePacket can produce, is faithful, and its length and checksum fields are those DeserializePacket computes. |
| `PacketRoundTrips.PayloadStart` | src/net/json_packet.cc:995-1009 | With up to 40 bytes of options, a multiple of 4, four times the data offset is where the payload starts and the option area is exactly the options. |
| `PacketRoundTrips.FaithfulHeader` | src/net/json_packet.cc:947-1012 | On the JSON side, for any number n of option bytes: the header survives exactly if n modulo 64 is at most 40, the first n modulo 64 option bytes are clean, and an acknowledgement number comes with ACK. Up to 40 bytes, clean means that no option is a window scale or stands behind EOL. |
| `WrittenPackets.WrittenPacketExactly` | src/net/json_packet.cc:877-1012 | Every TCP packet written down in JSON, with any header fields, options and data: it is refused exactly if its options do not fill whole words, and otherwise what it is deserialized to comes back from a round trip exactly under the condition on flags, acknowledgement number and options. |
| `WrittenPackets.WindowScaleIsLost` | src/net/json_packet.cc:907-917 | A SYN with a windowScale is deserialized, but the packet does not come back. |
| `WrittenPackets.AckNumberIsLost` | src/net/json_packet.cc:964-969 | Nor does one with an ackNumber and no ACK flag. |
| `PacketBalance.EnumStep` | src/net/json_packet.cc:638-668 | A property whose own name is no enumeration value must have a scalar value, because under a bracket the reader still holds the property name. |
| `PacketBalance.OptionsStep` | src/net/json_packet.cc:877-945 | Brackets may pass for option names, so that the reader is deeper or shallower in arrays than the code believes, but it never leaves the TCP object. |
| `PacketBalance.DecodeIsBalanced` | src/net/json_packet.h:12-17 | Whenever DeserializePacket succeeds behind an opening brace it has consumed exactly the tokens up to the brace closing that object, never leaving the object before. |
| `PacketBalance.ReaderEndsOnMatchingObject` | src/net/json_packet.cc:1151-1233 | So the reader stands on an EndObject token with its mode stack one shorter than at entry. |
| `PacketTrips.ReadPacketText` | src/net/json_packet.cc:1151-1279 | Deserializing from text through reader and buffered stream gives the packet the text determines, for any buffer size and any short reads, and ends outside all containers. |
| `PacketTrips.WritePacketText` | src/net/json_packet.cc:518-568 | Serializing through writer, buffered stream and flush gives exactly the packet text, which is well-formed, for any buffer size. |
| `PacketTrips.ThroughJson` | src/net/json_packet.cc:518-568 | Any recorded packet whose option walk ends, to text in either layout and back through the classes, with any buffer sizes: the bytes read equal the bytes written exactly under the condition for recorded packets. |
| `PacketTrips.ThereAndBack` | src/net/json_packet.cc:518-568 | From any JSON text to a packet, to text in either layout, and back, with any buffer sizes: the second packet equals the first, byte for byte, exactly if it is faithful. |
| `NetlinkMonitors.NetlinkMonitor.GetOrCreateInterface` | src/net/netlink_monitor.cc:74-86 | Finds the entry or adds a fresh one; nothing else changes. |
| `NetlinkMonitors.NetlinkMonitor.HandleLink` | src/net/netlink_monitor.cc:113-144 | Name, link state and notices change exactly as specified; a deleted link is treated like a new one. |
| `NetlinkMonitors.NetlinkMonitor.HandleIp4Address` | src/net/netlink_monitor.cc:153-175 | The address set, keyed by address, and the notices change exactly as specified. |
| `NetlinkMonitors.NetlinkMonitor.HandleIp6Address` | src/net/netlink_monitor.cc:176-197 | The same for IPv6. |
| `NetlinkMonitors.NetlinkMonitor.HandleMessage` | src/net/netlink_monitor.cc:105-206 | One message changes exactly one interface object, the answer counter and the log as specified. |
| `NetlinkMonitors.NetlinkMonitor.HandleRead` | src/net/netlink_monitor.cc:96-217 | Message loop and sending loop together compute the specified state for any datagrams. |
| `NetlinkMonitors.NetlinkMonitor.SendMessage` | src/net/netlink_monitor.cc:252-258 | Sends now or queues, by the answer counter. |
| `NetlinkMonitors.NetlinkMonitor.Init` | src/net/netlink_monitor.cc:33-51 | Begins the link query and both address queries, in this order. |
| `NetlinkMirror.MirrorAgreement` | src/net/netlink_monitor.cc:111-201 | For every run and after every single message, a listener that replays only the deltas from each InterfaceCreated snapshot holds exactly the public part of the table; every snapshot equals its mirror; no notice is out of order. |
| `NetlinkMirror.CreatedFirstAndOnce` | src/net/netlink_monitor.cc:119-126 | At most one InterfaceCreated per index, and nothing about it before. |
| `NetlinkMirror.NothingBeforeCreation` | src/net/netlink_monitor.cc:119-126 | Every other notice comes after the InterfaceCreated of its index. |
| `NetlinkMirror.LinkAlternates` | src/net/netlink_monitor.cc:128-141 | LinkUp and LinkDown of an interface strictly alternate. |
| `NetlinkMirror.Ip4Alternates` | src/net/netlink_monitor.cc:153-175 | Added and Removed of an IPv4 address of an interface strictly alternate. |
| `NetlinkMirror.Ip6Alternates` | src/net/netlink_monitor.cc:176-197 | The same for IPv6. |
| `NetlinkQueries.StopAndWait` | src/net/netlink_monitor.cc:210-215 | If the kernel answers only the outstanding query, k answers to n queries leave exactly the first min(n, k + 1) sent, in order, and the others queued in order. |
| `NetlinkQueries.AtMostOneExactly` | src/net/netlink_monitor.cc:210-215 | For every run: at most one query is outstanding in every state, within the message loop and the sending loop too, if and only if every answer carries the number of the query sent last or of the one before it. |
| `NetlinkQueries.NearStopAndWait` | src/net/netlink_monitor.cc:252-258 | In these runs queries go out in order up to the one behind the last number answered, and the others are queued in order. |
| `NetlinkQueries.AtMostOneOutstanding` | src/net/netlink_monitor.cc:252-258 | In particular, if the kernel answers only the outstanding query, the number sent is, within datagrams too, never more than one ahead of the number answered, nor behind it. |
| `NetlinkQueries.ForgedAnswerSendsAll` | src/net/netlink_monitor.cc:210-215 | A run outside the condition: one answer numbered 39 sends all three queries. |
| `NetlinkSessions.Session` | src/net/netlink_monitor.cc:26-51 | The class itself, from construction over any reads: its table is mirrored by its log, and of the three queries of Init it has sent one more than were answered. |

## Left out

- JsonReaders.JsonReader.ReadNumber: a float is accepted as its text, without strtod's range check.
- JsonReaders.JsonReader.Next: error codes and line information are not modelled.
- PacketDeserializer.DeserializePacket: proved for a vector that is empty at the start, as all callers pass it (the source takes whatever stands at the front of the vector for the IP header); error messages are left out.
- HexCodec.ParseHex: a byte above 127 indexes the table with a negative number in the source; here it is an invalid digit.
- IpText.Ip4RoundTrip: inet_ntop and inet_pton are modelled as dotted-quad printer and parser.
- Wire.Add: the sum wraps at 2^32 as in the source; the theorems about it are for up to 65535 bytes, where it does not.
- NetlinkQueries.AtMostOneExactly: the monitor's own sequence number is unbounded here; the int of the source overflows after 2^31 queries. The numbers in answers are read as 32-bit integers.
- NetlinkMirror.MirrorAgreement: for a listener registered before the first message.
- Buffer sizes are positive, and InputStream delegates report no errors.
- MemoryInputStream, MemoryOutputStream, FileInputStream and FileOutputStream: an abstract source and sink stand for them.
- The selective acknowledgement option is refused as in the source; IP options and the ECE, CWR and NS flags are dropped as in the source.
- PacketSerializer.WriteUdpHeader: src/net/json_packet.cc:476 returns the size of a pointer; it is 8, the size of the header, on 64-bit builds only, which the model assumes.
- The assertion `size_limit >= sizeof(tcp_header)` measures a pointer; callers pass at least 20.
- Netlink attribute parsing, sockets, the TUN device, the event loop, Broadcaster re-entrancy and the main programs.
