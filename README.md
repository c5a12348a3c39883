# playit agent core, modelled in Dafny

The playit agent joins a game server or other local service (the *origin*) to the playit
tunnel network. It keeps an authenticated control session with a tunnel server. Over that
session it claims port ranges and learns about new clients. TCP and UDP traffic arriving for a
claimed port is relayed to the origin.

This project models the deterministic logic under the agent's socket drivers and proves its
properties. There is one module per source file, plus three shared modules:

- `Wrappers` holds `Option` and `Result`.
- `Ints` holds the fixed-width unsigned integers, their big-endian bytes and Rust's
  release-build wrap-around `+` and `-`.
- `Net` holds IP and socket addresses, their derived ordering, loopback tests and text form.

The modules fall into seven groups.

- **Wire codec** (`Encoding`, `ProtoLib`, `Rpc`, `ControlMessages`, `ControlFeed`):
  - the big-endian `MessageEncoding` primitives;
  - the control requests, responses and feed messages built on them.

  Each writer takes the bytes that follow and puts its message in front of them. Each reader
  returns the value and the remaining bytes, or the `std::io::ErrorKind` it fails with. The
  round trips, the tag tables, the upgrade of legacy messages on decode and the version bit of
  `AgentRegister` are all proved.
- **UDP flow footers** (`UdpProto`, `ControlUdpProto`, `CommonUdp`, `MessagesUdp`, on top of
  the shared `Footer`):
  - the four generations of the trailer that carries a flow's addresses at the end of a
    datagram;
  - byte-exact layouts, `from_tail(prefix ++ write_to(f)) == f`, `flip` as an involution, and
    the flow ordering.
- **PROXY protocol** (`ProxyProtocol`): the version 1 text header (section 2.1 of the PROXY
  protocol specification) and the version 2 binary header (section 2.2).
- **Containers**, modelled as classes whose methods change fields in place:
  - `IdSlabs.IdSlab`, the generation-counted slot allocator;
  - `KeyToIds.KeyToId`, `InstanceCounts.InstanceCount` and `NonOverlappings.NonOverlapping`;
  - the UDP packet pool `PacketPool.Packets`;
  - the bounded buffers `LogCaptures.LogCapture` and `Events.PlayitEvents`.
- **Control-session bookkeeping**:
  - `AgentStates`: the `KeepFreshTimes` timers, and the `PortClaimState` reconciliation of
    target claims against acknowledged ones;
  - `UdpChannels`: resend and re-authentication timing of the UDP channel, and its trusted
    source addresses;
  - `EstablishedControls`: session expiry and the normalisation of ping and clock offset from
    a pong;
  - `Auth`: the time windows of request signatures, with HMAC-SHA256 as a function parameter.
- **Configuration and addresses**:
  - `AgentConfigs` and `MessagesConfig`: the configurations' builders, merges and
    local-address lookups;
  - `CommonLib`: claim protocols and message conversions;
  - `OriginLookups`: origin resolution;
  - `IpResources` and `MatchIps`: tunnel regions;
  - `ApiTypes`: port types and ranges;
  - `LanAddresses`: loopback source-address masking;
  - `Shuffles`: the 32-bit mixing hash.
- **UDP relaying and ping results**:
  - `UdpClientRegistry`: the slab-plus-map client registry;
  - `UdpRelayClients`: the socket-sharing relay and its idle clearing;
  - `PingMonitors`: the packed request ids and the merging of ping results.

All times are parameters (ms or s as in the source); nothing reads a clock. Where the source
does arithmetic on fixed-width integers with `+`, `-` or `<<`, the model wraps or truncates
explicitly. Two `usize` counters are the exception: they are unbounded `nat`s, as listed
under "Left out".

## Model

| member | source | states |
|---|---|---|
| Encoding.GetBE | packages/agent_proto/src/encoding.rs:65-67 | a big-endian read of `width` bytes fails with UnexpectedEof exactly on a short input, and otherwise yields a number below 256^width and consumes exactly `width` bytes |
| Encoding.GetU64 | packages/agent_proto/src/encoding.rs:59-72 | a u64 is the big-endian value of the first 8 bytes, and fewer than 8 is UnexpectedEof |
| Encoding.GetU32 | packages/agent_proto/src/encoding.rs:74-87 | a u32 is the big-endian value of the first 4 bytes, and fewer than 4 is UnexpectedEof |
| Encoding.GetU16 | packages/agent_proto/src/encoding.rs:89-102 | a u16 is the big-endian value of the first 2 bytes, and fewer than 2 is UnexpectedEof |
| Encoding.GetU8 | packages/agent_proto/src/encoding.rs:104-117 | a u8 is the first byte, and an empty input is UnexpectedEof |
| Encoding.GetBECanonical | packages/agent_proto/src/encoding.rs:65-67 | what a big-endian read consumed, written back in front of the rest, is the input |
| Encoding.PutBE | packages/agent_proto/src/encoding.rs:60-63 | a big-endian write of `width` bytes adds exactly `width` bytes and is read back to the same number and rest |
| Encoding.PutU8 | packages/agent_proto/src/encoding.rs:104-112 | a u8 is one byte, the value itself, and reads back |
| Encoding.PutU16 | packages/agent_proto/src/encoding.rs:89-97 | a u16 is two big-endian bytes and reads back |
| Encoding.PutU32 | packages/agent_proto/src/encoding.rs:74-82 | a u32 is four big-endian bytes and reads back |
| Encoding.PutU64 | packages/agent_proto/src/encoding.rs:59-67 | a u64 is eight big-endian bytes and reads back |
| Encoding.PutOption | packages/agent_proto/src/encoding.rs:120-131 | an option is tag byte 1 then the payload, or tag byte 0 alone |
| Encoding.GetOption | packages/agent_proto/src/encoding.rs:133-139 | on reading an option: no byte is UnexpectedEof, tag 0 is None, tag 1 reads the payload and passes on its error, and any other tag is an Other error |
| Encoding.OptionRoundTrip | packages/agent_proto/src/encoding.rs:119-139 | an option reads back whenever its payload does |
| Encoding.GetIpv4 | packages/agent_proto/src/encoding.rs:248-254 | an IPv4 read fails with UnexpectedEof exactly when fewer than 4 bytes remain, and otherwise takes the first four octets |
| Encoding.GetIpv6 | packages/agent_proto/src/encoding.rs:269-275 | an IPv6 read fails with UnexpectedEof exactly when fewer than 16 bytes remain, and otherwise takes the first sixteen octets |
| Encoding.PutIpv4 | packages/agent_proto/src/encoding.rs:241-246 | an IPv4 address is its 4 octets and reads back |
| Encoding.PutIpv6 | packages/agent_proto/src/encoding.rs:262-267 | an IPv6 address is its 16 octets and reads back |
| Encoding.PutIpAddr | packages/agent_proto/src/encoding.rs:178-189 | an IpAddr is tag 4 and 4 octets, or tag 6 and 16 octets, of the returned length, and reads back |
| Encoding.GetIpAddr | packages/agent_proto/src/encoding.rs:191-201 | reading an IpAddr from empty input is UnexpectedEof, and a tag other than 4 or 6 is an Other error |
| Encoding.SocketAddrMaxSize | packages/agent_proto/src/encoding.rs:205-222 | a socket address takes at most 19 bytes |
| Encoding.PutSocketAddr | packages/agent_proto/src/encoding.rs:205-222 | a socket address is 7 bytes (tag 4, ip, big-endian port) or 19 bytes (tag 6, ip, port), and reads back with the v6 flow label and scope id cleared |
| Encoding.GetSocketAddr | packages/agent_proto/src/encoding.rs:224-237 | reading a socket address from empty input is UnexpectedEof, a tag other than 4 or 6 is an Other error, and a decoded v6 address has flow label 0 and scope id 0 |
| Encoding.SocketAddrRoundTrip | packages/agent_proto/src/encoding.rs:204-237 | a socket address round-trips if and only if it is v4, or v6 with flow label 0 and scope id 0 |
| Encoding.PutSocketAddrV4 | packages/agent_proto/src/encoding.rs:283-292 | a SocketAddrV4 is the 4 octets then the big-endian port (6 bytes), and reads back |
| Encoding.GetSocketAddrV4 | packages/agent_proto/src/encoding.rs:290-292 | reading a SocketAddrV4 from fewer than 6 bytes is UnexpectedEof |
| Encoding.PutBytes | packages/agent_proto/src/encoding.rs:300-306 | a byte vector is its length as a big-endian u64 then the bytes (length + 8 bytes), and reads back |
| Encoding.GetBytes | packages/agent_proto/src/encoding.rs:308-315 | reading a byte vector from fewer than 8 bytes, or with fewer bytes left than the length announces, is UnexpectedEof (where the source allocates the announced length first, see Left out) |
| Encoding.BytesDecodeCanonical | packages/agent_proto/src/encoding.rs:308-315 | encoding what a byte-vector read returned gives back its input: the read consumed exactly the encoding |
| Encoding.PutArray | packages/agent_proto/src/encoding.rs:319-325 | a byte array is written element by element, exactly its bytes, and reads back with its length |
| Encoding.GetArray | packages/agent_proto/src/encoding.rs:327-336 | reading an n-byte array fails with UnexpectedEof exactly when fewer than n bytes remain, and otherwise takes the first n bytes |
| Encoding.GetPair | packages/agent_proto/src/encoding.rs:352-354 | reading a pair passes on the first component's error |
| Encoding.PairRoundTrip | packages/agent_proto/src/encoding.rs:344-355 | a pair reads back whenever both components do |
| Encoding.GetBorrowed | packages/agent_proto/src/encoding.rs:366-368 | reading into a reference always fails with InvalidInput |
| Encoding.GetRawSlice | packages/agent_proto/src/encoding.rs:399-401 | reading a raw slice always fails with Unsupported |
| Encoding.PutRawSlice | packages/agent_proto/src/encoding.rs:392-397 | a raw slice is written as exactly its bytes, with no length prefix |
| ProtoLib.PutAgentSessionId | packages/agent_proto/src/lib.rs:39-48 | a session id is session, account and agent id as three big-endian u64s, 24 bytes, and reads back |
| ProtoLib.GetAgentSessionId | packages/agent_proto/src/lib.rs:50-56 | reading a session id fails with UnexpectedEof exactly when fewer than 24 bytes remain, and consumes 24 bytes otherwise |
| ProtoLib.PutPortProto | packages/agent_proto/src/lib.rs:88-96 | Tcp, Udp and Both are written as the single bytes 1, 2 and 3, and read back |
| ProtoLib.GetPortProto | packages/agent_proto/src/lib.rs:98-105 | reading a port proto succeeds exactly on bytes 1 to 3, with the matching variant; any other byte is an Other error, and empty input is UnexpectedEof |
| ProtoLib.PutPortRange | packages/agent_proto/src/lib.rs:66-73 | a port range is its ip, the big-endian start and end ports, then the proto byte, in that order, of length 4 + ip length + 1, and reads back |
| ProtoLib.GetPortRange | packages/agent_proto/src/lib.rs:75-82 | reading a port range passes on the ip's error |
| ProtoLib.PortRangeMaxSize | packages/agent_proto/src/lib.rs:59-64 | a port range encodes in at most 22 bytes: the largest ip, four port bytes and the proto byte |
| Rpc.PutRpc | packages/agent_proto/src/rpc.rs:12-17 | an rpc message is the big-endian request id followed by the content; an error of the content's write is passed on |
| Rpc.GetRpc | packages/agent_proto/src/rpc.rs:19-24 | reading an rpc message from fewer than 8 bytes is UnexpectedEof; the content's error is passed on unchanged; a success carries what the content decoded to |
| Rpc.RpcWriteLen | packages/agent_proto/src/rpc.rs:12-17 | the written length is 8 plus the content's length |
| Rpc.RpcRoundTrip | packages/agent_proto/src/rpc.rs:11-24 | a message decodes to its request id and what its content decodes to, so it round-trips whenever the content does |
| ControlMessages.RequestIdNum | packages/agent_proto/src/control_messages.rs:26-35 | every request id has a number strictly between 0 and END |
| ControlMessages.FromNum | packages/agent_proto/src/control_messages.rs:37-44 | from_num gives None exactly for 0 and for numbers from END on; any id it gives has that number |
| ControlMessages.FromNumInverse | packages/agent_proto/src/control_messages.rs:37-44 | every request id is recovered from its own number |
| ControlMessages.PutRequestId | packages/agent_proto/src/control_messages.rs:49-51 | a request id is its number as a big-endian u32, 4 bytes, and reads back |
| ControlMessages.GetRequestId | packages/agent_proto/src/control_messages.rs:53-57 | fewer than 4 bytes is UnexpectedEof, a u32 that is not an id is InvalidData, and an id read back is the one whose number was on the wire |
| ControlMessages.PutPing | packages/agent_proto/src/control_messages.rs:152-161 | a ping is its time, optional current ping and optional session, 10 to 38 bytes, and reads back |
| ControlMessages.GetPing | packages/agent_proto/src/control_messages.rs:163-169 | reading a ping from fewer than 10 bytes fails |
| ControlMessages.WithVersionBit | packages/agent_proto/src/control_messages.rs:206-206 | setting bit 63 on a version without it gives a word with the bit whose version is the original |
| ControlMessages.WithoutVersionBit | packages/agent_proto/src/control_messages.rs:248-256 | clearing bit 63 leaves a word without it |
| ControlMessages.PutAddrPair | packages/agent_proto/src/control_messages.rs:241-242 | the client and tunnel addresses are written one after the other and read back as the wire addresses |
| ControlMessages.PutRegisterMiddle | packages/agent_proto/src/control_messages.rs:238-242 | agent id, agent version and timestamp (24 bytes) then the two addresses are written in order and read back |
| ControlMessages.PutRegisterHead | packages/agent_proto/src/control_messages.rs:220-236 | the head fails with InvalidInput exactly when the registration is not writable (bit 63 set on the account id for versions 0 and 1, on the version above 1); otherwise it is 8 bytes for version <= 1 and 16 bytes above, and reads back as that version (1 for the short form) and account |
| ControlMessages.GetRegisterHead | packages/agent_proto/src/control_messages.rs:248-262 | a first word without bit 63 is the account id and the version is 1; with bit 63 the word without that bit is the version and the account id follows; fewer than 8 bytes is UnexpectedEof |
| ControlMessages.PutAgentRegister | packages/agent_proto/src/control_messages.rs:220-246 | writing a registration fails with InvalidInput exactly when it is not writable; otherwise its length is the head, 24 bytes, both addresses and the 32 signature bytes, and it reads back as the registration as it decodes |
| ControlMessages.GetAgentRegister | packages/agent_proto/src/control_messages.rs:248-275 | a head error is passed on; a decoded registration has the version and account id of its head |
| ControlMessages.AgentRegisterRoundTrip | packages/agent_proto/src/control_messages.rs:220-275 | a writable registration reads back unchanged exactly when its version is at least 1 and both its addresses survive the wire |
| ControlMessages.WritePlain | packages/agent_proto/src/control_messages.rs:196-203 | the plain bytes followed by the signature are the whole encoding, for a registration `write_to` accepts (unwritable ones panic in the source, see Left out) |
| ControlMessages.WritePlainIgnoresSignature | packages/agent_proto/src/control_messages.rs:196-203 | the plain bytes do not depend on the signature |
| ControlMessages.UpdateSignature | packages/agent_proto/src/control_messages.rs:186-194 | update_signature changes only the signature, and afterwards verify_signature holds, for a writable registration (see Left out) |
| ControlMessages.VerifySignature | packages/agent_proto/src/control_messages.rs:191-194 | a registration verifies exactly when signing it again would leave it unchanged, for a writable registration (see Left out) |
| ControlMessages.UpdateSignatureIdempotent | packages/agent_proto/src/control_messages.rs:584-605 | signing an already signed registration a second time changes nothing |
| ControlMessages.Upgrade | packages/agent_proto/src/control_messages.rs:322-335 | upgrade sets version 1 and keeps every other field |
| ControlMessages.Downgrade | packages/agent_proto/src/control_messages.rs:277-285 | the legacy layout keeps every field of a registration but the version |
| ControlMessages.PutAgentRegisterV1 | packages/agent_proto/src/control_messages.rs:288-301 | a legacy registration reads back through the legacy reader as its wire form |
| ControlMessages.GetAgentRegisterV1 | packages/agent_proto/src/control_messages.rs:303-320 | reading a legacy registration from fewer than 8 bytes is UnexpectedEof |
| ControlMessages.AgentRegisterV1SameEncoding | packages/agent_proto/src/control_messages.rs:855-902 | a registration of version 0 or 1 is written byte for byte like the legacy layout |
| ControlMessages.PutAgentCheckPortMapping | packages/agent_proto/src/control_messages.rs:127-142 | a port-mapping check is a session id (24 bytes) then a port range, and reads back |
| ControlMessages.GetAgentCheckPortMapping | packages/agent_proto/src/control_messages.rs:137-142 | reading a port-mapping check from fewer than 24 bytes is UnexpectedEof |
| ControlMessages.PutRequestBody | packages/agent_proto/src/control_messages.rs:70-96 | a request body fails with InvalidInput exactly when a registration in it is not writable |
| ControlMessages.RequestBodyRoundTrip | packages/agent_proto/src/control_messages.rs:68-117 | every writable request body read back under the id it is written with is the request as it decodes |
| ControlMessages.RegisterBodyDecodes | packages/agent_proto/src/control_messages.rs:76-83 | a registration goes out under id 2 for versions 0 and 1 and comes back through the legacy reader and upgrade, and under id 7 otherwise, read by the current reader |
| ControlMessages.PutControlRequest | packages/agent_proto/src/control_messages.rs:68-99 | writing a request fails with InvalidInput exactly when it is not writable; otherwise it starts with the id it is sent under and reads back as the request as it decodes |
| ControlMessages.GetRequestBody | packages/agent_proto/src/control_messages.rs:104-117 | id 1 is a bare u64 ping with no current ping and no session; id 2 gives a registration of version 1 |
| ControlMessages.GetControlRequest | packages/agent_proto/src/control_messages.rs:101-117 | an id error is passed on; otherwise the body the id selects is read |
| ControlMessages.ControlRequestRoundTrip | packages/agent_proto/src/control_messages.rs:638-654 | a writable request reads back unchanged exactly when a registration in it has version at least 1 and addresses that survive the wire |
| ControlMessages.LegacyRegisterDecode | packages/agent_proto/src/control_messages.rs:608-635 | a frame of id 2 and a legacy registration decodes to the upgraded registration |
| ControlMessages.LegacyPingDecode | packages/agent_proto/src/control_messages.rs:905-921 | a frame of id 1 and a bare u64 decodes to a ping with no current ping and no session |
| ControlMessages.ControlRequestMaxSize | packages/agent_proto/src/control_messages.rs:60-66 | every writable request fits in MAX_SIZE: the id and the largest body |
| ControlMessages.PutPongTail | packages/agent_proto/src/control_messages.rs:524-528 | a pong's two addresses and optional expiry are written in order and read back as their wire forms |
| ControlMessages.PutPong | packages/agent_proto/src/control_messages.rs:519-529 | a pong reads back as its wire form |
| ControlMessages.GetPong | packages/agent_proto/src/control_messages.rs:531-541 | reading a pong from fewer than 8 bytes is UnexpectedEof |
| ControlMessages.PutAgentRegistered | packages/agent_proto/src/control_messages.rs:556-561 | a registration answer is a session id and an expiry, 32 bytes, and reads back |
| ControlMessages.GetAgentRegistered | packages/agent_proto/src/control_messages.rs:563-568 | reading a registration answer fails exactly when fewer than 32 bytes remain |
| ControlMessages.PutAgentPortMappingFound | packages/agent_proto/src/control_messages.rs:439-450 | ToAgent is tag 1 then a session id, 28 bytes, and reads back |
| ControlMessages.GetAgentPortMappingFound | packages/agent_proto/src/control_messages.rs:452-457 | any tag other than 1 is an Other error |
| ControlMessages.PutAgentPortMapping | packages/agent_proto/src/control_messages.rs:414-419 | a port mapping is its range and an optional found value, and reads back |
| ControlMessages.GetAgentPortMapping | packages/agent_proto/src/control_messages.rs:421-426 | an error reading the range is passed on |
| ControlMessages.PutUdpChannelDetails | packages/agent_proto/src/control_messages.rs:485-490 | udp channel details are the tunnel address then the token as a length-prefixed list, and read back with the wire address |
| ControlMessages.GetUdpChannelDetails | packages/agent_proto/src/control_messages.rs:492-497 | an error reading the tunnel address is passed on |
| ControlMessages.ResponseTag | packages/agent_proto/src/control_messages.rs:350-385 | each response variant has a tag from 1 to 8 |
| ControlMessages.PutResponseBody | packages/agent_proto/src/control_messages.rs:350-385 | every response body read back under its tag is the response as it decodes |
| ControlMessages.PutControlResponse | packages/agent_proto/src/control_messages.rs:350-385 | a response starts with its tag as a u32 and reads back as the response as it decodes |
| ControlMessages.GetControlResponse | packages/agent_proto/src/control_messages.rs:387-399 | fewer than 4 bytes is UnexpectedEof and a tag outside 1 to 8 is an Other error |
| ControlMessages.GetResponseBody | packages/agent_proto/src/control_messages.rs:387-398 | a decoded body has the variant of its tag; the tags without fields (2 to 5) consume nothing |
| ControlMessages.ControlResponseRoundTrip | packages/agent_proto/src/control_messages.rs:656-671 | a response reads back unchanged exactly when its socket addresses survive the wire |
| ControlFeed.PutClaimInstructions | packages/agent_proto/src/control_feed.rs:87-93 | claim instructions are the address then the token as a length-prefixed list, and read back with the wire address |
| ControlFeed.GetClaimInstructions | packages/agent_proto/src/control_feed.rs:95-100 | an error reading the address or the token is passed on |
| ControlFeed.PutNewClientTail | packages/agent_proto/src/control_feed.rs:70-71 | the tunnel server id and data center id take 12 bytes and read back |
| ControlFeed.GetNewClientTail | packages/agent_proto/src/control_feed.rs:80-81 | reading the two ids fails exactly when fewer than 12 bytes remain, with UnexpectedEof |
| ControlFeed.PutNewClient | packages/agent_proto/src/control_feed.rs:65-74 | a new client is its connect and peer addresses, claim instructions, tunnel server id and data center id in that order, and reads back with its addresses in wire form |
| ControlFeed.GetNewClient | packages/agent_proto/src/control_feed.rs:76-84 | an error reading the two addresses is passed on |
| ControlFeed.WriteResponse | packages/agent_proto/src/control_feed.rs:44-47 | writing a response payload never fails and reads back as the response as it decodes |
| ControlFeed.PutControlFeed | packages/agent_proto/src/control_feed.rs:39-54 | a feed message is its tag as a big-endian u32 (1 for a response, 2 for a new client), then the payload, 4 bytes longer than the payload |
| ControlFeed.GetControlFeed | packages/agent_proto/src/control_feed.rs:56-62 | fewer than 4 bytes is UnexpectedEof, a tag other than 1 or 2 is an Other error, and a decoded message carries the tag that was read |
| ControlFeed.ControlFeedRoundTrip | packages/agent_proto/src/control_feed.rs:38-63 | every feed message reads back as itself up to the socket address fields the wire cannot carry |
| ControlFeed.ResponseFeedRoundTrip | packages/agent_proto/src/control_feed.rs:44-47 | a response frame reads back as the rpc message with its response as it decodes |
| ControlFeed.NewClientFeedRoundTrip | packages/agent_proto/src/control_feed.rs:48-51 | a new-client frame reads back as the new client as it decodes |
| UdpProto.ClientServerId | packages/agent_proto/src/udp_proto.rs:53-55 | the client-server id is present exactly when the flow has an extension, and is the extension's |
| UdpProto.Flip | packages/agent_proto/src/udp_proto.rs:64-75 | flipping swaps source and destination and keeps the family, fragment and extension |
| UdpProto.FlipInvolution | packages/agent_proto/src/udp_proto.rs:64-75 | flipping twice gives the flow back, and a flipped flow has the same footer length |
| UdpProto.FooterLen | packages/agent_proto/src/udp_proto.rs:282-290 | the footer is 20 bytes for v4 without an extension, 40 with one and no fragment, 43 with both, 48 for v6 without and 62 with an extension |
| UdpProto.MaxList | packages/agent_proto/src/udp_proto.rs:292-313 | the largest of a non-empty list of lengths bounds every element and is one of them |
| UdpProto.FooterLenBounds | packages/agent_proto/src/udp_proto.rs:292-313 | every v4 footer fits in MAX_IP4_LEN, every v6 footer in MAX_IP6_LEN and every footer in MX_LEN |
| UdpProto.PutExt | packages/agent_proto/src/udp_proto.rs:107-109 | the extension is client-server id, tunnel id and port offset, 18 bytes |
| UdpProto.ExtRoundTrip | packages/agent_proto/src/udp_proto.rs:192-194 | an extension reads back as its three numbers |
| UdpProto.GetExt | packages/agent_proto/src/udp_proto.rs:192-194 | reading an extension succeeds exactly when 18 bytes remain, and consumes those |
| UdpProto.PutFrag | packages/agent_proto/src/udp_proto.rs:117-119 | the fragment information is the has-more byte and the offset, 3 bytes |
| UdpProto.FragRoundTrip | packages/agent_proto/src/udp_proto.rs:196-206 | the fragment information reads back as its has-more flag and offset |
| UdpProto.GetFrag | packages/agent_proto/src/udp_proto.rs:196-198 | reading fragment information succeeds exactly when 3 bytes remain, and any nonzero has-more byte means more fragments |
| UdpProto.FooterId | packages/agent_proto/src/udp_proto.rs:122-146 | the id a footer ends with is a known one, a v4 id exactly for v4 flows and a v2 id exactly for flows with an extension |
| UdpProto.PutBody | packages/agent_proto/src/udp_proto.rs:103-145 | a footer without its id is footer_len minus 8 bytes |
| UdpProto.PutV4Trailer | packages/agent_proto/src/udp_proto.rs:111-121 | after a v4 extension come 2 bytes (packet id 0) without a fragment, or 5 with one |
| UdpProto.V4V2Head | packages/agent_proto/src/udp_proto.rs:103-119 | what precedes the packet id of a v4 v2 footer is footer_len minus 10 bytes |
| UdpProto.PutBodyPacketId | packages/agent_proto/src/udp_proto.rs:111-121 | a v4 v2 footer body ends in the packet id |
| UdpProto.FooterBytes | packages/agent_proto/src/udp_proto.rs:97-150 | a footer is exactly footer_len bytes |
| UdpProto.FooterEndsInId | packages/agent_proto/src/udp_proto.rs:122-146 | the last 8 bytes of a footer are its id |
| UdpProto.WriteTo | packages/agent_proto/src/udp_proto.rs:97-150 | write_to succeeds exactly when the slice holds footer_len bytes; then those bytes are the footer and the rest of the buffer is unchanged, and on failure nothing changes |
| UdpProto.ToExtension | packages/agent_proto/src/udp_proto.rs:192-193 | an extension is read exactly when the client-server id and the tunnel id are both nonzero |
| UdpProto.ReadFrag | packages/agent_proto/src/udp_proto.rs:196-206 | fragment information is read exactly when the packet id is nonzero |
| UdpProto.FromTail | packages/agent_proto/src/udp_proto.rs:153-280 | fewer than 8 bytes is Err(None), and an unknown last word is Err(Some(that id)) |
| UdpProto.FromTailRoundTrip | packages/agent_proto/src/udp_proto.rs:321-359 | whatever precedes it, a written footer reads back as the flow as its layout carries it |
| UdpProto.FromTailRoundTripIff | packages/agent_proto/src/udp_proto.rs:97-280 | a footer reads back as the very flow exactly when the flow is not v4 with fragment information but no extension |
| UdpProto.FromTailOfFooter | packages/agent_proto/src/udp_proto.rs:153-280 | a datagram that ends in a footer reads back as that footer's flow |
| UdpProto.WriteThenReadBack | packages/agent_proto/src/udp_proto.rs:321-359 | writing a flow into a buffer at some offset and reading the footer from the end of what was written gives the flow back |
| ControlUdpProto.Compare | packages/agent_core/src/agent_control/udp_proto.rs:31-64 | every v4 flow orders before every v6 flow, and within a family the source endpoint decides first, then the destination ip, and the destination port last |
| ControlUdpProto.Key | packages/agent_core/src/agent_control/udp_proto.rs:31-64 | the compared fields are a family tag, the source ip and port and the destination ip and port, with ips of 4 or 16 bytes by family |
| ControlUdpProto.KeyInjective | packages/agent_core/src/agent_control/udp_proto.rs:13-23 | two flows have the same key exactly when they are equal |
| ControlUdpProto.CompareIsCompareKeys | packages/agent_core/src/agent_control/udp_proto.rs:31-64 | within a family the comparison is the lexicographic comparison of the keys |
| ControlUdpProto.CompareTotalOrder | packages/agent_core/src/agent_control/udp_proto.rs:25-29 | the order is total: Equal exactly on equal flows, reversing the arguments reverses it, and it is transitive |
| ControlUdpProto.SamePrefixContiguous | packages/agent_core/src/agent_control/udp_proto.rs:31 | a flow between two flows with the same source and destination ip has that source and ip, and a destination port between theirs, so the flows aimed at one port range are contiguous |
| ControlUdpProto.Flip | packages/agent_core/src/agent_control/udp_proto.rs:68-76 | flipping swaps source and destination and keeps the family |
| ControlUdpProto.FlipInvolution | packages/agent_core/src/agent_control/udp_proto.rs:68-76 | flipping twice gives the flow back |
| ControlUdpProto.WithSrcPort | packages/agent_core/src/agent_control/udp_proto.rs:98-109 | with_src_port replaces the source port and leaves the source ip, destination and family alone |
| ControlUdpProto.WithSrcPortInverse | packages/agent_core/src/agent_control/udp_proto.rs:98-109 | setting the old source port back undoes it, and setting the current port changes nothing |
| ControlUdpProto.Len | packages/agent_core/src/agent_control/udp_proto.rs:190-195 | a footer is 20 bytes for v4 and 48 for v6 |
| ControlUdpProto.FooterBytes | packages/agent_core/src/agent_control/udp_proto.rs:111-140 | the written footer is len bytes |
| ControlUdpProto.FooterEndsInId | packages/agent_core/src/agent_control/udp_proto.rs:122-135 | the last 8 bytes of a written footer are its id, the old v4 id for v4 |
| ControlUdpProto.WriteTo | packages/agent_core/src/agent_control/udp_proto.rs:111-140 | write_to succeeds exactly when len bytes are left; then those bytes are the footer and nothing else changes, and on failure nothing changes |
| ControlUdpProto.FromTail | packages/agent_core/src/agent_control/udp_proto.rs:142-188 | fewer than 8 bytes is Err(None), and an unknown last word is Err(Some(that id)) |
| ControlUdpProto.FromTailV4 | packages/agent_core/src/agent_control/udp_proto.rs:151-167 | a datagram ending in v4 addresses and either v4 id reads as that v4 flow |
| ControlUdpProto.FromTailV6 | packages/agent_core/src/agent_control/udp_proto.rs:168-185 | a datagram ending in a v6 footer reads as that v6 flow |
| ControlUdpProto.FromTailRoundTrip | packages/agent_core/src/agent_control/udp_proto.rs:111-188 | whatever precedes it, a written footer reads back as its flow |
| ControlUdpProto.WriteThenReadBack | packages/agent_core/src/agent_control/udp_proto.rs:210-234 | a footer written into a buffer reads back from the buffer, as in the serialisation tests |
| ControlUdpProto.ParseTestDatagram | packages/agent_core/src/agent_control/udp_proto.rs:236-241 | the parse test's datagram reads as 147.185.221.192:1234 to 192.168.17.179:44451 |
| CommonUdp.Flip | packages/agent_common/src/udp.rs:27-32 | flipping swaps source and destination and keeps the family and the v6 flow label |
| CommonUdp.FlipInvolution | packages/agent_common/src/udp.rs:27-32 | flipping twice gives the footer back |
| CommonUdp.Len | packages/agent_common/src/udp.rs:122-127 | a footer is 20 bytes for v4 and 48 for v6 |
| CommonUdp.FooterBytes | packages/agent_common/src/udp.rs:48-72 | the written footer is len bytes |
| CommonUdp.FooterEndsInId | packages/agent_common/src/udp.rs:59-67 | the last 8 bytes of a written footer are its id, the old v4 id for v4 |
| CommonUdp.WriteTo | packages/agent_common/src/udp.rs:48-72 | write_to succeeds exactly when len bytes are left; then those bytes are the footer and nothing else changes, and on failure nothing changes |
| CommonUdp.FromTail | packages/agent_common/src/udp.rs:74-120 | fewer than 8 bytes or an unknown id gives None |
| CommonUdp.FromTailSomeIff | packages/agent_common/src/udp.rs:74-120 | a footer is read exactly when the id is a v4 id and 20 bytes are present or the v6 id and 48 bytes are present, and it is v4 exactly for a v4 id |
| CommonUdp.FromTailV4 | packages/agent_common/src/udp.rs:82-98 | a datagram ending in v4 addresses and either v4 id reads as that v4 footer |
| CommonUdp.FromTailV6 | packages/agent_common/src/udp.rs:99-117 | a v6 footer reads back with its flow label |
| CommonUdp.FromTailRoundTrip | packages/agent_common/src/udp.rs:48-120 | whatever precedes it, a written footer reads back as itself, the flow label included |
| CommonUdp.WriteThenReadBack | packages/agent_common/src/udp.rs:142-167 | a footer written into the last len bytes of a buffer reads back from the buffer |
| CommonUdp.ParseTestDatagram | packages/agent_common/src/udp.rs:169-174 | the parse test's datagram yields 147.185.221.192:1234 to 192.168.17.179:44451 |
| MessagesUdp.Flip | packages/messages/src/udp.rs:14-19 | flipping swaps source and destination |
| MessagesUdp.FlipInvolution | packages/messages/src/udp.rs:14-19 | flipping twice gives the footer back |
| MessagesUdp.FooterBytes | packages/messages/src/udp.rs:26-30 | source ip, destination ip, source port, destination port and id fill exactly 20 bytes |
| MessagesUdp.WriteTo | packages/messages/src/udp.rs:21-33 | write_to succeeds exactly when 20 bytes are left; then they are the footer and nothing else changes, and on failure nothing changes |
| MessagesUdp.FromTail | packages/messages/src/udp.rs:35-57 | a footer is read exactly when 20 bytes are present and the last 8 are the id |
| MessagesUdp.FromTailOf | packages/messages/src/udp.rs:35-57 | a datagram ending in a written footer reads as that footer |
| MessagesUdp.FromTailRoundTrip | packages/messages/src/udp.rs:21-57 | whatever precedes it, a written footer reads back as itself |
| MessagesUdp.WriteThenReadBack | packages/messages/src/udp.rs:68-79 | a footer written into the last 20 bytes of a buffer reads back from the buffer |
| MessagesUdp.ParseTestDatagram | packages/messages/src/udp.rs:81-86 | the parse test's datagram yields 147.185.221.192:1234 to 192.168.17.179:44451 |
| Footer.PutV4Addrs | packages/agent_common/src/udp.rs:55-58 | the v4 addresses are source ip, destination ip, source port, destination port, 12 bytes |
| Footer.GetV4Addrs | packages/agent_common/src/udp.rs:89-92 | reading v4 addresses succeeds exactly when 12 bytes remain and consumes them |
| Footer.V4AddrsRoundTrip | packages/agent_common/src/udp.rs:55-58 | written v4 addresses read back |
| Footer.PutV6Addrs | packages/agent_common/src/udp.rs:62-65 | the v6 addresses are source ip, destination ip, source port, destination port, 36 bytes |
| Footer.GetV6Addrs | packages/agent_common/src/udp.rs:106-109 | reading v6 addresses succeeds exactly when 36 bytes remain and consumes them |
| Footer.V6AddrsRoundTrip | packages/agent_common/src/udp.rs:62-65 | written v6 addresses read back |
| Footer.WriteAt | packages/agent_common/src/udp.rs:55-67 | the successive big-endian writes copy the bytes in at the cursor and change nothing else |
| ProxyProtocol.V1Fields | packages/agent_core/src/network/proxy_protocol.rs:21-30 | the v1 line has six fields: PROXY, TCP4 or TCP6, two addresses of at most 40 characters and two ports of at most 5 digits |
| ProxyProtocol.V1Text | packages/agent_core/src/network/proxy_protocol.rs:21-30 | the v1 line is at most 107 characters, the bound section 2.1 of the PROXY protocol specification sets |
| ProxyProtocol.V1TextAscii | packages/agent_core/src/network/proxy_protocol.rs:21-30 | the v1 line is plain ASCII |
| ProxyProtocol.AsciiBytes | packages/agent_core/src/network/proxy_protocol.rs:39-41 | as_bytes of ASCII text is one byte per character with the same code |
| ProxyProtocol.WriteV1 | packages/agent_core/src/network/proxy_protocol.rs:39-41 | write_v1 writes as many bytes as the line has characters, at most 107 |
| ProxyProtocol.V1TextFields | packages/agent_core/src/network/proxy_protocol.rs:21-30 | the line is the fields joined by single spaces and ended by CR LF; a receiver splitting on spaces gets the fields back, and the port fields read as the ports written |
| ProxyProtocol.V2AddrLen | packages/agent_core/src/network/proxy_protocol.rs:47-60 | the address block is 12 bytes for TCP4 and 36 for TCP6 |
| ProxyProtocol.V2Addresses | packages/agent_core/src/network/proxy_protocol.rs:49-60 | the address block is client ip, proxy ip, client port, proxy port |
| ProxyProtocol.WriteV2 | packages/agent_core/src/network/proxy_protocol.rs:33-62 | write_v2 writes the 12-byte signature, the version byte 0x21, the family byte 0x11 or 0x21, a length and the addresses, 16 bytes more than the address block |
| ProxyProtocol.ReadV2 | packages/agent_core/src/network/proxy_protocol.rs:33-36 | a v2 header is read only from data that starts with the signature and version byte |
| ProxyProtocol.V2RoundTrip | packages/agent_core/src/network/proxy_protocol.rs:43-62 | the length field of a written v2 header counts exactly the bytes after it, and a receiver reads back the header written |
| IdSlabs.SetEmpty | packages/agent_core/src/utils/id_slab.rs:22-23 | or-ing in EMPTY_BIT marks an id empty and keeps its lower 63 bits |
| IdSlabs.ClearEmpty | packages/agent_core/src/utils/id_slab.rs:113 | and-ing with EMPTY_BIT_NEG marks an id live and keeps its lower 63 bits |
| IdSlabs.ReusedIdStep | packages/agent_core/src/utils/id_slab.rs:88 | each removal moves a slot's id on by USE_NUM modulo the 63 id bits, keeps the slot and never repeats the id |
| IdSlabs.IdAfter | packages/agent_core/src/utils/id_slab.rs:88 | the id a slot hands out after k reuses is a live id |
| IdSlabs.IdAfterDistinct | packages/agent_core/src/utils/id_slab.rs:24-25 | the first 2^31 ids a slot hands out are pairwise distinct, so a stale id does not reach a later occupant until the counter wraps |
| IdSlabs.IdAfterValue | packages/agent_core/src/utils/id_slab.rs:88 | after k reuses the id is the first one plus k times USE_NUM, modulo 2^63 |
| IdSlabs.PopHeld | packages/agent_core/src/utils/id_slab.rs:120-129 | popping the top free slot holds it for a vacant entry, and its id is not live |
| IdSlabs.OccupyHeld | packages/agent_core/src/utils/id_slab.rs:154-166 | occupying a held slot makes its id live with the value and changes no other live id |
| IdSlabs.ReleaseHeld | packages/agent_core/src/utils/id_slab.rs:169-173 | dropping a held slot puts it back on the free stack |
| IdSlabs.RemoveLive | packages/agent_core/src/utils/id_slab.rs:80-94 | emptying a live slot with its counter moved on puts it on the free stack and ends exactly its id |
| IdSlabs.CountLive | packages/agent_core/src/utils/id_slab.rs:50-52 | the number of occupied entries is capacity minus free slots, and is the number of live ids |
| IdSlabs.IdSlab.WithCapacity | packages/agent_core/src/utils/id_slab.rs:28-44 | with_capacity gives capacity empty slots with counter 0 and the free stack capacity-1 down to 0, so the first insert takes slot 0 |
| IdSlabs.IdSlab.Len | packages/agent_core/src/utils/id_slab.rs:50-52 | len is the number of occupied entries and of live ids |
| IdSlabs.IdSlab.Slot | packages/agent_core/src/utils/id_slab.rs:96-102 | slot is None exactly when the low 32 bits point past the last entry |
| IdSlabs.IdSlab.GetLive | packages/agent_core/src/utils/id_slab.rs:58-67 | get returns the value of a live id; it finds something exactly when the slot's current id is live, and then the value stored under that current id, so a stale id with the same slot reaches the slot's new occupant |
| IdSlabs.IdSlab.Get | packages/agent_core/src/utils/id_slab.rs:58-67 | a value is found only in the id's slot, when that slot is occupied; an id whose slot is past the end finds nothing |
| IdSlabs.IdSlab.Insert | packages/agent_core/src/utils/id_slab.rs:104-118 | insert returns Err(value) with nothing changed when no slot is free; otherwise it pops the top free slot, clears its empty bit, and the new id is live with the value and was not live before |
| IdSlabs.IdSlab.VacantEntry | packages/agent_core/src/utils/id_slab.rs:120-129 | vacant_entry is None with nothing changed when no slot is free; otherwise it pops and holds the top slot and knows the id an insert will get, which is not live |
| IdSlabs.IdSlab.VacantInsert | packages/agent_core/src/utils/id_slab.rs:154-166 | inserting through a vacant entry makes its id live with the value |
| IdSlabs.IdSlab.VacantDrop | packages/agent_core/src/utils/id_slab.rs:169-173 | dropping an unused vacant entry pushes its slot back and changes no entry |
| IdSlabs.IdSlab.Remove | packages/agent_core/src/utils/id_slab.rs:80-94 | remove returns what get returns; on success the id stops being live, the slot goes on the free stack with its counter moved on and len drops by one; otherwise nothing changes |
| IdSlabs.IdSlab.Iter | packages/agent_core/src/utils/id_slab.rs:131-137 | iter yields the occupied values in slot order, len of them |
| KeyToIds.IdsAdd | packages/agent_core/src/utils/key_to_id.rs:29-33 | adding a key under a fresh id keeps the lookup injective and adds exactly that id |
| KeyToIds.IdsRemove | packages/agent_core/src/utils/key_to_id.rs:39 | removing a key keeps the lookup injective and removes exactly its id |
| KeyToIds.KeyToId.constructor | packages/agent_core/src/utils/key_to_id.rs:13-20 | default is an empty lookup over an empty slab of 1024 * 1024 entries |
| KeyToIds.KeyToId.GetOrAdd | packages/agent_core/src/utils/key_to_id.rs:23-36 | a known key returns its id and changes nothing; a new key returns None with nothing changed exactly when the slab is full, and otherwise gets a fresh id that is recorded and made live with the value |
| KeyToIds.KeyToId.Remove | packages/agent_core/src/utils/key_to_id.rs:38-42 | an absent key returns None and changes nothing; a present key returns its id and value, and both its mapping and its slab entry are gone |
| InstanceCounts.InstanceCount.constructor | packages/agent_core/src/utils/instance_count.rs:7-13 | default has no instance of any key |
| InstanceCounts.InstanceCount.HasInstance | packages/agent_core/src/utils/instance_count.rs:16-18 | has_instance holds exactly when the key's count is positive |
| InstanceCounts.InstanceCount.IsEmpty | packages/agent_core/src/utils/instance_count.rs:20-22 | is_empty holds exactly when no key has an instance |
| InstanceCounts.InstanceCount.Inc | packages/agent_core/src/utils/instance_count.rs:24-33 | inc adds one to the key's count and returns the new count, 1 for a new key; no other count changes |
| InstanceCounts.InstanceCount.Dec | packages/agent_core/src/utils/instance_count.rs:35-47 | dec returns None with nothing changed exactly when the key has no instance; otherwise it returns the count less one, drops the key at zero, and changes no other count |
| NonOverlappings.Position | packages/agent_core/src/utils/non_overlapping.rs:31 | position is the first index whose element is the same as the item, and None exactly when there is none |
| NonOverlappings.SwapRemove | packages/agent_core/src/utils/non_overlapping.rs:35 | swap_remove drops one element, puts the last one in its place and keeps the others |
| NonOverlappings.SwapRemoveMultiset | packages/agent_core/src/utils/non_overlapping.rs:35 | swap_remove takes away exactly the element at the position |
| NonOverlappings.NonOverlapping.constructor | packages/agent_core/src/utils/non_overlapping.rs:6-8 | new is empty |
| NonOverlappings.NonOverlapping.With | packages/agent_core/src/utils/non_overlapping.rs:10-14 | with holds the single element |
| NonOverlappings.NonOverlapping.Add | packages/agent_core/src/utils/non_overlapping.rs:16-28 | add fails with the element, changing nothing, exactly when it overlaps a stored one; otherwise it is appended, and with a symmetric check the elements stay pairwise non-overlapping |
| NonOverlappings.NonOverlapping.Remove | packages/agent_core/src/utils/non_overlapping.rs:30-37 | remove is false with nothing changed when nothing is the same as the item; otherwise the first same element is swap-removed, and the elements stay non-overlapping |
| NonOverlappings.NonOverlapping.Contains | packages/agent_core/src/utils/non_overlapping.rs:39-44 | contains holds exactly when some element is the same as the item |
| IdSlabs.IterEntries | packages/agent_core/src/utils/id_slab.rs:185-198 | the iterator loop yields exactly the values of the occupied slots in slot order, stopping early once `len` values are out |
| PacketPool.PowerAtLeast | packages/agent_core/src/network/udp/packets.rs:31 | the doubling search ends at a power of two not below n, and not twice too large |
| PacketPool.NextPowerOfTwo | packages/agent_core/src/network/udp/packets.rs:31 | next_power_of_two is the smallest power of two not below n, 1 for 0 |
| PacketPool.Packet.constructor | packages/agent_core/src/network/udp/packets.rs:59 | a packet starts at the full length of 2048 bytes |
| PacketPool.Packet.SetLen | packages/agent_core/src/network/udp/packets.rs:102-109 | set_len fails with InvalidInput, changing nothing, exactly for more than 2048 bytes, and sets the length otherwise |
| PacketPool.Packets.constructor | packages/agent_core/src/network/udp/packets.rs:30-51 | new rounds the count up to a power of two and queues every packet as free, in buffer order |
| PacketPool.Packets.Allocate | packages/agent_core/src/network/udp/packets.rs:57-60 | allocate is None with nothing changed exactly when no packet is free; otherwise it hands out the packet at the head of the queue, at full length, which was not out before |
| PacketPool.Packets.Drop | packages/agent_core/src/network/udp/packets.rs:63-67 | dropping a handed-out packet queues it again as free |
| LogCaptures.AsStr | packages/agent_cli/src/ui/log_capture.rs:29-37 | each level is named by 4 or 5 characters |
| LogCaptures.AsStrInjective | packages/agent_cli/src/ui/log_capture.rs:29-37 | no two levels share a name |
| LogCaptures.LastN | packages/agent_cli/src/ui/log_capture.rs:67-73 | the last n items, or all of them when there are fewer |
| LogCaptures.LogCapture.constructor | packages/agent_cli/src/ui/log_capture.rs:59-64 | new is an empty buffer of the given capacity |
| LogCaptures.LogCapture.Push | packages/agent_cli/src/ui/log_capture.rs:67-73 | push drops the oldest entry when the buffer is at capacity and adds the new one at the back, so the buffer never exceeds its bound |
| LogCaptures.LogCapture.GetEntries | packages/agent_cli/src/ui/log_capture.rs:76-79 | the entries are the last pushes that fit, oldest first, ending with the latest push |
| LogCaptures.LogCapture.Len | packages/agent_cli/src/ui/log_capture.rs:82-84 | len is at most the capacity, or 1 for a zero capacity |
| LogCaptures.LogCapture.IsEmpty | packages/agent_cli/src/ui/log_capture.rs:87-89 | is_empty holds exactly when nothing was pushed since the last clear |
| LogCaptures.LogCapture.Clear | packages/agent_cli/src/ui/log_capture.rs:93-95 | clear empties the buffer |
| Events.PlayitEvents.constructor | packages/agent/src/events.rs:22-29 | new has no events and the first id is 1 |
| Events.PlayitEvents.AddEvent | packages/agent/src/events.rs:31-45 | add_event gives the event the next id and appends it; once more than 100 are kept the oldest 50 are drained |
| Events.PlayitEvents.IdsAscending | packages/agent/src/events.rs:47-50 | the ids strictly increase along the list, so with_events sees events in the order they were added |
| AgentStates.KeepFreshTimes.constructor | packages/agent_core/src/agent_state.rs:41-45 | default has no send and no acknowledgement recorded |
| AgentStates.KeepFreshTimes.Sent | packages/agent_core/src/agent_state.rs:56-58 | sent records the send time and leaves the ack alone |
| AgentStates.KeepFreshTimes.SetAck | packages/agent_core/src/agent_state.rs:60-66 | set_ack records the ack time and leaves the send alone; has_ack then holds exactly for a nonzero time |
| AgentStates.KeepFreshTimes.RemoveAck | packages/agent_core/src/agent_state.rs:89-91 | remove_ack clears the ack, so has_ack is false |
| AgentStates.KeepFreshTimes.IsFresh | packages/agent_core/src/agent_state.rs:68-70 | is_fresh holds exactly when the ack lies within max_ack_delay of the send, on either side |
| AgentStates.KeepFreshTimes.TrySend | packages/agent_core/src/agent_state.rs:72-87 | try_send succeeds exactly when both the resend time and the refresh time (wrapping u64 sums) have passed, and then records the send; otherwise it returns the positive wait until the first of them that has not passed and changes nothing |
| AgentStates.Lease | packages/agent_core/src/agent_state.rs:113-122 | lease carries the claim's ip, ports and proto |
| AgentStates.BinarySearchById | packages/agent_core/src/agent_state.rs:239-240 | binary_search_by on request ids returns an index holding the id, or a position no further than the end |
| AgentStates.BinarySearchSorted | packages/agent_core/src/agent_state.rs:270-272 | on a list sorted by id, a search that fails means the id is absent, and its position has every smaller id before it and every larger one after |
| AgentStates.SortByIdProperties | packages/agent_core/src/agent_state.rs:266 | the final sort_by gives the same entries by strictly increasing id |
| AgentStates.SortByIdSorted | packages/agent_core/src/agent_state.rs:266 | sorting a list already in id order leaves it unchanged |
| AgentStates.CoreSortTarget | packages/agent_core/src/agent_state.rs:266 | the sort keeps every invariant linking current and target, the keys, and which claims have a live target |
| AgentStates.FlagToEnd | packages/agent_core/src/agent_state.rs:298-310 | the twin is taken out, flagged under the fresh id, and pushed to the end |
| AgentStates.CoreDropTwinned | packages/agent_core/src/agent_state.rs:239-247 | corrected (see Findings): dropping an acknowledged target flags its twin in current, which is live, so the assert! on it holds, and the invariants are kept |
| AgentStates.FindKey | packages/agent_core/src/agent_state.rs:152-165 | the scan of current stops at the first entry for the mapping, or finds none |
| AgentStates.FindId | packages/agent_core/src/agent_state.rs:275-277 | the scan of target stops at the first entry with the acknowledged request id, or finds none |
| AgentStates.IsMapped | packages/agent_core/src/agent_state.rs:207-216 | the scan of config.mappings finds the entry's claim exactly when it is configured |
| AgentStates.ScanCurrent | packages/agent_core/src/agent_state.rs:152-165 | after the scan of current for a mapping, a removal in progress for it is dropped and none is left |
| AgentStates.MatchMapping | packages/agent_core/src/agent_state.rs:148-199 | one mapping of the first loop: afterwards the mapping has a live target, every live target is kept, other claims' targets are untouched, and a mapping that already had a live target changes nothing |
| AgentStates.MatchAll | packages/agent_core/src/agent_state.rs:148-199 | the first loop leaves a live target for every configured mapping and keeps every other target; when they all had one nothing changes |
| AgentStates.DropTwinLive | packages/agent_core/src/agent_state.rs:243-244 | the current twin of an acknowledged target is live, so the assert! holds |
| AgentStates.RetainMapped | packages/agent_core/src/agent_state.rs:201-264 | corrected (see Findings): the compaction keeps only configured or departing claims, keeps every live configured target, keeps a never-acknowledged departing claim flagged for removal and drops an acknowledged one; when everything is configured nothing changes; after a swap only `write` advances (agent_state.rs:259-261), and the swapped-in dropped entry is checked again without effect |
| AgentStates.SettledCurrentAgrees | packages/agent_core/src/agent_state.rs:147-267 | corrected (see Findings): after set_target an entry of current is being removed exactly when its claim is not configured |
| AgentStates.PortClaimState.constructor | packages/agent_core/src/agent_state.rs:94-98 | default has empty current and target lists |
| AgentStates.PortClaimState.MinAck | packages/agent_core/src/agent_state.rs:129-143 | min_ack is 0 exactly when current is empty or holds an unacknowledged entry, and otherwise the oldest acknowledgement time |
| AgentStates.PortClaimState.SetTarget | packages/agent_core/src/agent_state.rs:147-267 | corrected (see Findings): set_target keeps the invariants, leaves every configured claim with a live target, keeps unacknowledged removed claims flagged for removal, drops acknowledged removed ones, and changes nothing when the target already matches the config |
| AgentStates.PortClaimState.AckRequest | packages/agent_core/src/agent_state.rs:269-313 | corrected (see Findings): ack_request keeps the invariants and has the effect AckEffect lists: a removal target is dropped, a live target is stamped and put into current, a confirmed removal leaves current, and an unknown id changes nothing |
| AgentStates.PortClaimState.BuildRequests | packages/agent_core/src/agent_state.rs:315-359 | build_requests returns the requests of current then of target, in list order |
| AgentStates.CurrentRequest | packages/agent_core/src/agent_state.rs:318-335 | an entry of current asks for its removal when flagged, or a refresh once its ack is more than 15 seconds old (wrapping u64 sum), with its id and lease |
| AgentStates.TargetRequest | packages/agent_core/src/agent_state.rs:338-355 | a target asks for its removal when flagged, or its addition while unacknowledged, with its id and lease |
| AgentStates.CurrentRequestsMembers | packages/agent_core/src/agent_state.rs:318-336 | a request is in the current part exactly when some current entry calls for it |
| AgentStates.TargetRequestsMembers | packages/agent_core/src/agent_state.rs:338-356 | a request is in the target part exactly when some target calls for it |
| AgentStates.RequestsCover | packages/agent_core/src/agent_state.rs:315-359 | every claim waiting for its first ack is requested, every withdrawal in progress on either list is sent, and every request comes from an entry with its id and lease |
| AgentStates.AckRemovingTarget | packages/agent_core/src/agent_state.rs:280-283 | an ack of a removal target drops it |
| AgentStates.AckLiveRefresh | packages/agent_core/src/agent_state.rs:285-288 | an ack of a live target already in current stamps both copies |
| AgentStates.AckLiveInsert | packages/agent_core/src/agent_state.rs:289-291 | an ack of a live target not in current inserts it where the search said |
| AgentStates.AckConfirmedRemoval | packages/agent_core/src/agent_state.rs:298-312 | an ack of a removal in current takes it out |
| AgentStates.AckUnknown | packages/agent_core/src/agent_state.rs:269-313 | an ack of an unknown id changes nothing |
| AgentStates.FlagInPlace | packages/agent_core/src/agent_state.rs:242-247 | set_target flags the twin where it stands, under a new larger id |
| AgentStates.FlagInPlaceUnsorts | packages/agent_core/src/agent_state.rs:242-247 | unless the twin is last, flagging it in place breaks the id order binary_search_by needs |
| AgentStates.FlagInPlaceMissesTwin | packages/agent_core/src/agent_state.rs:239-247 | as written: removing three acknowledged claims with flags in place leaves the third twin unfound, still live and asking for refreshes, until the removal of the first is acknowledged and taken out, after which the search finds it |
| AgentStates.FlagToEndFindsEveryTwin | packages/agent_core/src/agent_state.rs:298-310 | moving each flagged twin to the end, as ack_request does, finds and flags all three |
| AgentStates.CurrentFlagToEnd | packages/agent_core/src/agent_state.rs:239-247 | corrected: flagging a twin by moving it to the end under the fresh id keeps `current` sorted by id, below the counter and with one removing entry per key, and replaces the twin's id by the fresh one |
| UdpChannels.ToIoKind | packages/agent_core/src/agent_control/udp_channel.rs:223-235 | each channel error converts to its own io error kind, in both directions |
| UdpChannels.ResendDueMeans | packages/agent_core/src/agent_control/udp_channel.rs:61-74 | away from the top of the u32 range, a resend is due exactly when the last confirm is more than 10 s old and the last send more than 5 s old |
| UdpChannels.NoResendWithinFive | packages/agent_core/src/agent_control/udp_channel.rs:66-70 | once a resend stamps the send time, no other resend is due for the next 5 seconds |
| UdpChannels.InvalidatedSession | packages/agent_core/src/agent_control/udp_channel.rs:56-59 | an invalidated session needs no authentication and resends after 10 s |
| UdpChannels.ConfirmClearsAuth | packages/agent_core/src/agent_control/udp_channel.rs:76-82 | a confirm no older than the last send clears the need to authenticate |
| UdpChannels.SilenceRequiresAuth | packages/agent_core/src/agent_control/udp_channel.rs:76-82 | a send more than 8 s after the last confirm asks for authentication |
| UdpChannels.PushFront | packages/agent_core/src/agent_control/udp_channel.rs:108-111 | the new address is first, followed by the old history cut so that at most 8 remain |
| UdpChannels.PushFrontBounded | packages/agent_core/src/agent_control/udp_channel.rs:108-111 | the address history never grows past 8 |
| UdpChannels.RememberTarget | packages/agent_core/src/agent_control/udp_channel.rs:100-112 | a target that is neither the current tunnel address nor remembered is pushed to the front; otherwise the history is unchanged |
| UdpChannels.SendTokenTrustsTarget | packages/agent_core/src/agent_control/udp_channel.rs:98-112 | after sending the token to an address, replies from that address are accepted |
| UdpChannels.Parse | packages/agent_core/src/agent_control/udp_channel.rs:149-204 | untrusted sources are refused without a state change; a flow footer gives the payload length and the flow; any other footer than the establish id is InvalidFooter; the current token confirms; another establish packet updates the session to the sender and only then changes the state; the history stays at most 8 long |
| UdpChannels.ReceivesFlowDatagram | packages/agent_core/src/agent_control/udp_channel.rs:163-167 | payload plus flow footer from a trusted source is delivered as the payload's length and that flow, with no state change |
| UdpChannels.UpdatedThenConfirmed | packages/agent_core/src/agent_control/udp_channel.rs:176-200 | after a session update, the same token sent again confirms the session and only refreshes the confirm time |
| UdpChannels.UpdateRemembersOldAddress | packages/agent_core/src/agent_control/udp_channel.rs:189-198 | when the session moves to a new address, the old address goes to the front of the history and both stay trusted |
| UdpChannels.UdpChannel.constructor | packages/agent_core/src/agent_control/udp_channel.rs:39-50 | a new channel has no session, an empty history and both times zero |
| UdpChannels.UdpChannel.InvalidateSession | packages/agent_core/src/agent_control/udp_channel.rs:56-59 | both timestamps reset to zero and nothing else changes |
| UdpChannels.UdpChannel.CheckResend | packages/agent_core/src/agent_control/udp_channel.rs:61-74 | returns whether a resend is due and stamps the send time exactly then |
| UdpChannels.UdpChannel.SendToken | packages/agent_core/src/agent_control/udp_channel.rs:97-121 | the history remembers the target even when the send fails; the send time is stamped only when the socket delivered the token |
| UdpChannels.UdpChannel.ResendToken | packages/agent_core/src/agent_control/udp_channel.rs:84-95 | without a session returns Ok(false) and changes nothing; otherwise sends the token to the current session and returns Ok(true) on delivery |
| UdpChannels.UdpChannel.SendHostPacket | packages/agent_core/src/agent_control/udp_channel.rs:123-147 | without a session NotConnected; with too little room for the footer InvalidInput; otherwise the datagram is the first data_len bytes plus the flow footer, addressed to the tunnel |
| UdpChannels.UdpChannel.ParsePacket | packages/agent_core/src/agent_control/udp_channel.rs:149-204 | the result and the new channel state are those Parse gives |
| UdpChannels.UdpChannel.RequiresAuth | packages/agent_core/src/agent_control/udp_channel.rs:76-82 | away from the top of the u32 range, authentication is required exactly when the last send came more than 8 s after the last confirm |
| EstablishedControls.Rtt | packages/agent_core/src/agent_control/established_control.rs:103-104 | a pong stamped later than now gives a zero round trip; otherwise the round trip is now minus the request time when that fits in 32 bits |
| EstablishedControls.AsI64 | packages/agent_core/src/agent_control/established_control.rs:108 | the cast keeps the bits: the result lies in the i64 range and is congruent to the input modulo 2^64 |
| EstablishedControls.WrapI64 | packages/agent_core/src/agent_control/established_control.rs:108 | the subtraction's result is wrapped into the i64 range and left alone when it already lies there |
| EstablishedControls.ClockOffset | packages/agent_core/src/agent_control/established_control.rs:106-108 | the clock offset always lies in the i64 range |
| EstablishedControls.ClockOffsetPlain | packages/agent_core/src/agent_control/established_control.rs:106-108 | with both clocks below 2^63 and the server clock past half the round trip, the offset is the request time minus the server's time less half the round trip |
| EstablishedControls.LocalExpiryMeans | packages/agent_core/src/agent_control/established_control.rs:116-119 | without overflow, the local expiry is the request time plus the session's remaining time less the round trip, never earlier than the request time |
| EstablishedControls.LocalExpiryShortSession | packages/agent_core/src/agent_control/established_control.rs:116-119 | a session that expires within one round trip expires at the request time |
| EstablishedControls.SessionRequestRoundTrip | packages/agent_core/src/agent_control/established_control.rs:22-41 | the keep-alive, udp-setup and ping requests encode, and each decodes back to the message sent |
| EstablishedControls.EstablishedControl.constructor | packages/agent_core/src/agent_control/connected_control.rs:36-48 | the pong at authentication is the latest pong; no ping, zero offset, not forced; expired only when the pong carries no session expiry |
| EstablishedControls.EstablishedControl.KeepAliveMessage | packages/agent_core/src/agent_control/established_control.rs:22-27 | an AgentKeepAlive request with the given request id |
| EstablishedControls.EstablishedControl.SetupUdpChannelMessage | packages/agent_core/src/agent_control/established_control.rs:29-34 | a SetupUdpChannel request with the given request id |
| EstablishedControls.EstablishedControl.PingMessage | packages/agent_core/src/agent_control/established_control.rs:36-41 | a Ping request with the given request id |
| EstablishedControls.EstablishedControl.IsExpired | packages/agent_core/src/agent_control/established_control.rs:47-67 | forced expiry wins, then a missing session expiry, then a changed client or tunnel address; no reason exactly when none of these holds |
| EstablishedControls.EstablishedControl.SetExpired | packages/agent_core/src/agent_control/established_control.rs:60-62 | the connection reports Forced and nothing else changes |
| EstablishedControls.EstablishedControl.Authenticate | packages/agent_core/src/agent_control/established_control.rs:74-87 | the connection's latest pong becomes the pong the handshake last read, whether or not it succeeds; on success the new registration is kept, that pong becomes the pong at authentication and force-expiry clears, so the session is live unless the pong lacks a session expiry; on failure the registration, the pong at authentication and the forced expiry are unchanged |
| EstablishedControls.EstablishedControl.RecvFeedMsg | packages/agent_core/src/agent_control/established_control.rs:93-126 | the feed is returned unchanged; a registration replaces the registration; a pong sets the ping, the clock offset and, when it carries one, the expiry on the local clock; anything else changes nothing |
| Auth.SignedBytes | packages/agent_common/src/auth.rs:87-89 | the signed bytes are the data followed by the big-endian account id and request timestamp, 16 bytes more |
| Auth.SessionTokenBytes | packages/agent_common/src/auth.rs:124-127 | a session token signs exactly 24 bytes |
| Auth.Validated | packages/agent_common/src/auth.rs:45-151 | a request outside its time window (1 minute for system, 5 minutes for session signatures) fails as expired; system success means the MAC of the signed bytes matches and gives system level; session success needs a session id, a session timestamp within a minute, a valid session token and a valid signature under the derived secret, and gives session level |
| Auth.ExpiryBeforeMac | packages/agent_common/src/auth.rs:57-63 | an expired request or session timestamp fails as expired whatever the key, the data and the MAC |
| Auth.SessionNeedsSessionId | packages/agent_common/src/auth.rs:107-110 | a session signature on a request without a session id fails with MissingSessionId |
| Auth.SystemSignatureValidates | packages/agent_common/src/auth.rs:176-194 | a signature made by generate_signature validates as system level within a minute of its timestamp |
| Auth.SessionSignatureValidates | packages/agent_common/src/auth.rs:153-173 | a signature made from create_signature and generate_session_secret validates as session level within the time windows |
| Auth.CreateSignature | packages/agent_common/src/auth.rs:153-167 | the session token is the HMAC of the account id, the session id and the session timestamp, each as 8 big-endian bytes, in that order |
| Auth.Buffer.constructor | packages/agent_common/src/auth.rs:49 | the buffer holds the given bytes |
| Auth.Buffer.WriteU64 | packages/agent_common/src/auth.rs:88 | the buffer grows by the value's eight big-endian bytes |
| Auth.Buffer.Truncate | packages/agent_common/src/auth.rs:91 | the buffer is cut to the given length, or left as it is when not longer |
| Auth.MacOverSigned | packages/agent_common/src/auth.rs:87-91 | the MAC covers the data plus account id and timestamp, and the buffer ends as it started |
| Auth.SystemValidate | packages/agent_common/src/auth.rs:81-96 | the outcome of the system check on the original bytes, with the buffer unchanged |
| Auth.SessionValidate | packages/agent_common/src/auth.rs:100-151 | the outcome of the session check on the original bytes, with the buffer unchanged |
| Auth.Validate | packages/agent_common/src/auth.rs:45-77 | the outcome Validated gives on the original bytes, with the buffer unchanged |
| Auth.GenerateSignature | packages/agent_common/src/auth.rs:176-194 | the MAC of the same bytes validation checks, with the buffer unchanged |
| AgentConfigs.ValidSecretKey | packages/agent_common/src/agent_config.rs:133-145 | the key is accepted exactly when it has even length and every character is an ASCII hex digit |
| AgentConfigs.ApiRefreshRate | packages/agent_common/src/agent_config.rs:181-186 | no refresh when refreshing is turned off or a zero rate is given without a flag; otherwise the given rate raised to at least 5000, or 5000 when none is given |
| AgentConfigs.Build | packages/agent_common/src/agent_config.rs:154-197 | the result is the built configuration: the given values, else the defaults, with the `*_set` flags and the gathered ping targets |
| AgentConfigs.GatherPingTargets | packages/agent_common/src/agent_config.rs:155-167 | the two loops gather the socket-address ping targets as text followed by the address strings |
| AgentConfigs.DefaultConfig | packages/agent_common/src/agent_config.rs:70-74 | an empty builder builds to last update 0, the default API url and control address, a 5000 ms ping interval and refresh rate, no ping targets and no set flags |
| AgentConfigs.BuildRecordsPresence | packages/agent_common/src/agent_config.rs:168-179 | the set flags record exactly whether the builder gave the API url and control address, and the values given are kept |
| AgentConfigs.SinglePortDefault | packages/agent_common/src/agent_config.rs:224-248 | a mapping without a to port covers the single port from, and its local port defaults to from |
| AgentConfigs.MappingRoundTrip | packages/agent_common/src/agent_config.rs:90-105 | a mapping whose preview address is its tunnel address builds back from its builder unchanged |
| AgentConfigs.MappingAsBuilder | packages/agent_common/src/agent_config.rs:90-103 | values equal to their defaults become unset and the preview addresses are dropped, so the builder builds back the mapping with its tunnel address as preview |
| AgentConfigs.BuildMapping | packages/agent_common/src/agent_config.rs:224-248 | the name, protocol, tunnel ip, first port and bind ip are kept; a given last port is kept; the local ip defaults to 127.0.0.1 and the local port to the first tunnel port; the preview is the custom address, else with no generated one the tunnel address |
| AgentConfigs.AsBuilder | packages/agent_common/src/agent_config.rs:54-87 | every value of the configuration is given to the builder, which builds back the same API url, control address, secret, ping targets and mapping count, and a refresh rate raised to the 5 s floor |
| AgentConfigs.ConfigRoundTrip | packages/agent_common/src/agent_config.rs:54-67 | a configuration with both flags set, a refresh rate of at least 5000 and default preview addresses builds back from its builder unchanged |
| AgentConfigs.AsBuilderSetsFlags | packages/agent_common/src/agent_config.rs:54-67 | a configuration passed through its builder always comes back with both set flags on |
| AgentConfigs.GetUpdated | packages/agent_common/src/agent_config.rs:36-52 | no update exactly when the update, after inheriting the unset url and control address, equals the running configuration; otherwise that inherited update |
| AgentConfigs.Inherit | packages/agent_common/src/agent_config.rs:36-52 | the update keeps every field but the API url and control address, which it takes from the running configuration, flag and all, when it did not set them; an update that set both is kept whole |
| AgentConfigs.ToUpdated | packages/agent_common/src/agent_config.rs:29-34 | to_updated ends with the inherited update whether or not get_updated reports a change |
| AgentConfigs.ToUpdatedInherits | packages/agent_common/src/agent_config.rs:29-34 | to_updated always ends with the inherited update, and updating with the running configuration reports no change |
| AgentConfigs.InheritFields | packages/agent_common/src/agent_config.rs:36-45 | every field but the url and control address comes from the update; those two come from the update exactly when it set them |
| AgentConfigs.ToUpdatedIdempotent | packages/agent_common/src/agent_config.rs:29-52 | applying the same update twice is applying it once |
| AgentConfigs.GetMatchIp | packages/agent_common/src/agent_config.rs:292-316 | a v4 address becomes ::x for its last octet; a v6 address in 2602:fbaf with a third segment below 0x1000 loses its first three segments; any other v6 address is kept |
| AgentConfigs.SegmentsArePlayitPrefix | packages/agent_common/src/agent_config.rs:302 | the segment test on 2602, fbaf and the high nibble of the third segment is exactly the byte-level prefix test |
| AgentConfigs.ServesProtoMeans | packages/agent_common/src/agent_config.rs:261-265 | a mapping serves tcp exactly when its claim has tcp, and udp exactly when it has udp |
| AgentConfigs.FirstMatchIndex | packages/agent_common/src/agent_config.rs:252-289 | no answer exactly when no mapping matches; otherwise the answer comes from the lowest matching index |
| AgentConfigs.FindLocalAddr | packages/agent_common/src/agent_config.rs:252-289 | the loop returns the first mapping that serves the protocol, covers the port and has the same match ip, as FirstMatch states |
| AgentConfigs.TestTunnelMatchIps | packages/agent_common/src/agent_config.rs:325-345 | the test's two tunnel addresses have the match ips ::c0 and ::2 |
| AgentConfigs.FindLocalTestExact | packages/agent_common/src/agent_config.rs:348-361 | a tcp connection to the v6 tunnel address finds nothing, a udp one finds 127.0.0.133:9912 |
| AgentConfigs.FindLocalTestSamePrefix | packages/agent_common/src/agent_config.rs:363-366 | 2602:fbaf::c0 reaches the first mapping |
| AgentConfigs.FindLocalTestOtherPrefix | packages/agent_common/src/agent_config.rs:368-371 | 2603:fbaf:1c0::c0 matches no mapping |
| AgentConfigs.FindLocalTestSecondMapping | packages/agent_common/src/agent_config.rs:373-381 | 2602:fbaf::2 and 199.33.123.2 both reach the second mapping |
| MessagesConfig.GetApiUrl | packages/messages/src/agent_config.rs:40-45 | the configured API url, or the default one when none is set |
| MessagesConfig.IsCompatible | packages/messages/src/agent_config.rs:102-112 | a Minecraft Java tunnel needs a port with tcp, a Bedrock one a port with udp, every other game accepts any port type |
| MessagesConfig.BothIsAlwaysCompatible | packages/messages/src/agent_config.rs:102-112 | a port claimed for both protocols suits every tunnel type, and every tunnel type accepts tcp or udp |
| MessagesConfig.FirstMatchIndex | packages/messages/src/agent_config.rs:115-150 | no answer exactly when no mapping matches; otherwise the answer comes from the lowest matching index |
| MessagesConfig.SinglePortMapping | packages/messages/src/agent_config.rs:131-141 | a mapping without a to port matches only its from port and forwards it to the local port, or to from when none is set |
| MessagesConfig.FindLocalAddr | packages/messages/src/agent_config.rs:115-150 | the loop returns the first mapping for the protocol, with the same tunnel ip and a port in range, as FirstMatch states |
| CommonLib.HasTcp | packages/agent_common/src/lib.rs:232-238 | true for every protocol but Udp |
| CommonLib.HasUdp | packages/agent_common/src/lib.rs:240-246 | true for every protocol but Tcp |
| CommonLib.ClaimProtoCoverage | packages/agent_common/src/lib.rs:231-247 | every claim protocol carries tcp or udp, and only Both carries both |
| CommonLib.ClaimLeaseFromV4 | packages/agent_common/src/lib.rs:209-218 | the lease keeps the v4 address as an ip and every other field |
| CommonLib.Upgrade | packages/agent_common/src/lib.rs:121-128 | a v4 claim becomes the version-neutral claim with the same fields; every other request is kept; no result is a v4 claim |
| CommonLib.UpgradeIdempotent | packages/agent_common/src/lib.rs:121-128 | upgrading twice is upgrading once |
| CommonLib.UpgradeInjective | packages/agent_common/src/lib.rs:121-128 | two v4 claims that upgrade alike are the same claim |
| CommonLib.IntoInstruction | packages/agent_common/src/lib.rs:96-103 | the instruction holds the address of either family and the token |
| CommonLib.IntoInstructionInjective | packages/agent_common/src/lib.rs:96-103 | the instruction determines the versioned value it came from |
| CommonLib.NewClientFromV4 | packages/agent_common/src/lib.rs:61-70 | both addresses are wrapped as v4 and the other fields kept |
| CommonLib.NewClientFromV6 | packages/agent_common/src/lib.rs:72-81 | both addresses are wrapped as v6 and the other fields kept |
| CommonLib.NewClientConversionsInjective | packages/agent_common/src/lib.rs:61-81 | each conversion loses nothing, and a v4 client never converts to the same value as a v6 one |
| CommonLib.DetailsFromV4 | packages/agent_common/src/lib.rs:166-173 | the tunnel address is wrapped as v4 and the token kept |
| CommonLib.DetailsFromV6 | packages/agent_common/src/lib.rs:175-182 | the tunnel address is wrapped as v6 and the token kept |
| CommonLib.DetailsConversionsInjective | packages/agent_common/src/lib.rs:166-182 | each conversion loses nothing, and v4 and v6 details never convert alike |
| CommonLib.AbsDiff | packages/agent_common/src/lib.rs:307-313 | the larger argument minus the smaller, so it never underflows |
| CommonLib.AbsDiffProperties | packages/agent_common/src/lib.rs:307-313 | the difference is symmetric, zero exactly on equal arguments, and the distance between the two on the integer line |
| OriginLookups.FindField | packages/agent_core/src/network/origin_lookup.rs:115-119 | nothing exactly when no attribute has the name; otherwise the value of the first attribute that has it |
| OriginLookups.ParseProxyProtocol | packages/agent_core/src/network/origin_lookup.rs:120-123 | proxy-protocol-v1 and proxy-protocol-v2 are the names of the two versions, and no other text names them |
| OriginLookups.ParseU16 | packages/agent_core/src/network/origin_lookup.rs:139 | a parsed port comes from non-empty text; without a leading plus it is all decimal digits and their value |
| OriginLookups.ParseU16Decimal | packages/agent_core/src/network/origin_lookup.rs:139 | every port printed in decimal parses back to itself |
| OriginLookups.ParseU16Rejects | packages/agent_core/src/network/origin_lookup.rs:139 | empty text, a lone plus, a negative number and 65536 do not parse; +80 parses as 80 |
| OriginLookups.FromAgentTunnel | packages/agent_core/src/network/origin_lookup.rs:109-177 | a tunnel converts unless it is not https and has no parsable local_port; the resource keeps the tunnel id, port count and protocol; https ports default to 80 and 443; the local ip defaults to 127.0.0.1; the proxy protocol comes from the first proxy_protocol attribute |
| OriginLookups.ResolveLocal | packages/agent_core/src/network/origin_lookup.rs:179-206 | an https target answers offset 0 with the http port and 1 with the https port, nothing else; a port target with count 0 always answers its port; otherwise offsets below the count answer the port moved by the offset |
| OriginLookups.ResolveLocalInjective | packages/agent_core/src/network/origin_lookup.rs:194-204 | within a port range that does not pass 65535, distinct offsets reach distinct local addresses |
| OriginLookups.Insert | packages/agent_core/src/network/origin_lookup.rs:31-68 | a tcp resource is stored under its tcp key, a udp one under its udp key, a both one under both; other keys keep their entries |
| OriginLookups.TableLookup | packages/agent_core/src/network/origin_lookup.rs:27-69 | a key is present exactly when some resource is stored under it, and it holds the last such resource |
| OriginLookups.Table | packages/agent_core/src/network/origin_lookup.rs:27-69 | every entry is one of the resources, stored under a key of its own tunnel and protocol |
| OriginLookups.TableBoth | packages/agent_core/src/network/origin_lookup.rs:51-66 | a both resource answers lookups for tcp and for udp on its tunnel |
| OriginLookups.OriginLookup.constructor | packages/agent_core/src/network/origin_lookup.rs:11-14 | a new lookup is empty |
| OriginLookups.OriginLookup.Update | packages/agent_core/src/network/origin_lookup.rs:27-69 | the table is cleared and then holds every resource under its keys, later ones winning |
| OriginLookups.OriginLookup.UpdateFromRunData | packages/agent_core/src/network/origin_lookup.rs:17-25 | the table holds the tunnels that convert, in their order |
| OriginLookups.Converted | packages/agent_core/src/network/origin_lookup.rs:17-25 | the resources that convert, never more than the tunnels |
| OriginLookups.OriginLookup.Lookup | packages/agent_core/src/network/origin_lookup.rs:71-77 | an answer exactly when the key is present, and then the stored resource |
| IpResources.RegionNumber | packages/api_client/src/ip_resource.rs:28-38 | every region's discriminant is at most 6 |
| IpResources.RegionFromNumber | packages/api_client/src/ip_resource.rs:72-81 | numbers up to 6 name a region, with that discriminant; larger ones name none |
| IpResources.RegionNumberRoundTrip | packages/api_client/src/ip_resource.rs:28-81 | a region's number names that region again |
| IpResources.FromIp4 | packages/api_client/src/ip_resource.rs:48-64 | the ip number is the last octet; 0.0.0.0/24 is anycast, 147.185.221.0/24 global, 23.133.216.0/24 and 198.22.204.0/24 South America, and 209.25.140-143.0/24 North America, Europe, Asia and India, each an if-and-only-if; every other /24 has no region |
| IpResources.FromIp4Regional | packages/api_client/src/ip_resource.rs:53-56 | the four /24s of 209.25.140.0/22 are regions 2 to 5 by their third octet |
| IpResources.FromIp6 | packages/api_client/src/ip_resource.rs:66-84 | the ip number is bytes 8 to 16 big-endian, and a region is found exactly when bytes 6 and 7 hold at most 6 |
| IpResources.TunnelAddress | packages/api_client/src/ip_resource.rs:86-95 | the address is the 2602:fbaf::/32 prefix with zero bytes 4 and 5, then the region number and the ip number, big-endian |
| IpResources.TunnelAddressRoundTrip | packages/api_client/src/ip_resource.rs:66-95 | from_ip6 reads back the region and ip number tunnel_address wrote |
| IpResources.IpResourceFromIp | packages/api_client/src/ip_resource.rs:11-21 | the ip number is kept; the region is kept only when it is recognised and the ip number lies in 64..128, otherwise anycast |
| IpResources.FromIp | packages/api_client/src/ip_resource.rs:41-46 | a v4 address is read by from_ip4; a v6 address gives the ip number from its last 8 bytes and a region exactly when the region number in bytes 6-8 is at most 6 |
| IpResources.ToTunnelIp | packages/api_client/src/ip_resource.rs:23-25 | the tunnel address starts with the playit prefix and reads back the resource's region and ip number |
| IpResources.ResourceRoundTrip | packages/api_client/src/ip_resource.rs:11-25 | a resource survives the trip through its tunnel ip exactly when it is anycast or has a regional ip number, and the ip number always survives |
| MatchIps.New | packages/agent_cli/src/match_ip.rs:9-32 | the region id is bytes 6 and 7 and the ip number bytes 8 to 16, both big-endian |
| MatchIps.NewAgreesWithRegions | packages/agent_cli/src/match_ip.rs:9-32 | new reads the same ip number as the API client's v6 decoding, and a region id up to 6 is the region that decoding finds |
| MatchIps.NewOfTunnelAddress | packages/agent_cli/src/match_ip.rs:9-32 | new recovers the region number and ip number a tunnel address was built from |
| MatchIps.RegionNumberV4 | packages/agent_cli/src/match_ip.rs:34-53 | 147.185.221.0/24 is 1, 209.25.140.0/22 is 1 to 4 by its third octet, 23.133.216.0/24 is 5, and exactly the other addresses are 0 |
| MatchIps.Matches | packages/agent_cli/src/match_ip.rs:55-76 | as written: a v4 address needs the ip number as its last octet and, for a non-zero region id, the same v4 region; a v6 address needs only the same ip number |
| MatchIps.MatchesRegion | packages/agent_cli/src/match_ip.rs:55-76 | corrected: it never accepts an address the as-written test rejects, and on v4 it is the as-written test |
| MatchIps.MatchesIgnoresV6Region | packages/agent_cli/src/match_ip.rs:73 | as written, a North America tunnel ip matches the Europe address with the same ip number |
| MatchIps.MatchesRegionMeans | packages/agent_cli/src/match_ip.rs:66-74 | corrected: a v6 address matches exactly when the ip numbers agree and the region id is 0 or the same; v4 is unchanged; the corrected test never accepts more |
| MatchIps.MatchesRegionTunnels | packages/agent_cli/src/match_ip.rs:66-74 | corrected: a tunnel ip matches its own address and, unless it is anycast, never the address of another region |
| ApiTypes.Matches | packages/api_client/src/lib.rs:21-26 | Both accepts every port type, the others only themselves |
| ApiTypes.MatchesOrder | packages/api_client/src/lib.rs:21-26 | matches is reflexive and antisymmetric, and only Both accepts a port of type Both |
| ApiTypes.Contains | packages/api_client/src/lib.rs:30-32 | a port is in the range exactly when from <= port < to |
| ApiTypes.ContainsEmpty | packages/api_client/src/lib.rs:30-32 | a range with from not below to holds nothing; otherwise it holds from and not to |
| Shuffles.Shuffle | packages/agent_common/src/utils.rs:4-9 | two rounds of xor-shift by 16 and wrapping multiply by 0x45d9f3, then a last xor-shift, on 32 bits; zero mixes to zero |
| Shuffles.ZeroHashesToZero | packages/agent_common/src/utils.rs:4-22 | shuffle(0) is 0, and shuffle_slice of the empty slice is 0 |
| Shuffles.ShortSliceIsByteMix | packages/agent_common/src/utils.rs:14-19 | a slice of at most four bytes never enters the word loop and is mixed byte by byte |
| Shuffles.SliceMixLoops | packages/agent_common/src/utils.rs:11-22 | the word loop and the byte loop together compute SliceMix: words while more than four bytes remain, then the rest byte by byte |
| Shuffles.ShuffleSlice | packages/agent_common/src/utils.rs:11-22 | shuffle_slice's value, with shuffle as the mixing function |
| Shuffles.SliceMixSplit | packages/agent_common/src/utils.rs:14-16 | whole words in front of a non-empty rest are mixed a word at a time whatever follows |
| Shuffles.ByteMixCons | packages/agent_common/src/utils.rs:17-19 | the byte loop xors the first byte's mix with the rest's |
| Shuffles.ShortSliceBytewise | packages/agent_common/src/utils.rs:14 | a slice of exactly four bytes is mixed byte by byte, not as one word |
| LanAddresses.AsLocalMasked | packages/agent_core/src/network/lan_address.rs:65-71 | the result lies in 127.0.0.0/8 and its low 24 bits are never all zero |
| LanAddresses.LoopbackOctets | packages/agent_core/src/network/lan_address.rs:70 | such a number is an address with first octet 127 and not 127.0.0.0 |
| LanAddresses.MapToLocalIsLoopback | packages/agent_core/src/network/lan_address.rs:73-85 | every peer, v4 or v6, is mapped to a loopback address other than 127.0.0.0 |
| LanAddresses.V6WordsOnce | packages/agent_core/src/network/lan_address.rs:79-82 | the second word, xor-ed in three times, counts once |
| LanAddresses.V6PrefixOnly | packages/agent_core/src/network/lan_address.rs:76-83 | two v6 peers that agree on their first eight bytes get the same local address |
| LanAddresses.SpecialUdpPort | packages/agent_core/src/network/lan_address.rs:43 | the kept udp port is 40000 plus the peer port modulo 24000, in [40000, 64000) |
| LanAddresses.SpecialUdpPortDistinct | packages/agent_core/src/network/lan_address.rs:43 | peers whose ports differ by less than 24000 get different udp ports |
| LanAddresses.UdpBindAttempts | packages/agent_core/src/network/lan_address.rs:40-62 | with a loopback origin and the feature on, the special address and port, then the special address with any port, then any address; otherwise only any address |
| LanAddresses.FirstBound | packages/agent_core/src/network/lan_address.rs:45-57 | no socket exactly when no attempt binds; otherwise one of the attempts that binds |
| LanAddresses.UdpSocketChoice | packages/agent_core/src/network/lan_address.rs:40-58 | with the special address in use, the socket is on the special ip at its fixed or any port, or anywhere; and when the fixed port binds, that is the socket |
| LanAddresses.UdpSocket | packages/agent_core/src/network/lan_address.rs:40-62 | the socket is bound only where binding succeeds; without the special address that is the unspecified address at any port, or nothing |
| LanAddresses.MapToLocalIp4 | packages/agent_core/src/network/lan_address.rs:73-85 | every peer maps to an address in 127.0.0.0/8 other than 127.0.0.0 |
| LanAddresses.TcpSource | packages/agent_core/src/network/lan_address.rs:11-38 | when the special address is in use, failing to make the v4 socket is an error at once; the special address with any port is the source exactly when it is in use and the socket, its bind and its connect all succeed; otherwise the plain connect decides between the operating system's choice and an error |
| PingMonitors.SampleCount | packages/ping_monitor/src/lib.rs:237 | as written: an experiment takes its sample count, or 16 when it asks for more |
| PingMonitors.RequestIds | packages/ping_monitor/src/lib.rs:237-247 | as written: one request id per sample, base plus sample number |
| PingMonitors.DecodeRequestId | packages/ping_monitor/src/lib.rs:138-140 | the sample count and sample number read back are four bits each |
| PingMonitors.RequestIdBaseOverlap | packages/ping_monitor/src/lib.rs:238 | as written, experiment 2 with 16 samples gets the base 768, which is experiment 3's |
| PingMonitors.SixteenSamplesCorruptId | packages/ping_monitor/src/lib.rs:138-140 | as written, the first pong of experiment 2 with 16 samples is read back as experiment 3 with a sample count of 0 |
| PingMonitors.SenderWait | packages/ping_monitor/src/lib.rs:229-230 | the pause is the test interval capped at 30 s plus a jitter below a third of it, so under 40 s; an interval below 3 ms divides by zero and panics (`None`), and only then |
| PingMonitors.SampleCountCapped | packages/ping_monitor/src/lib.rs:237 | corrected: the sample count capped at the 15 that four bits hold |
| PingMonitors.RequestIdsCapped | packages/ping_monitor/src/lib.rs:237-247 | corrected: one request id per capped sample |
| PingMonitors.RequestIdBaseDisjoint | packages/ping_monitor/src/lib.rs:238 | below the cap, the experiment id, count and sample number occupy separate bits |
| PingMonitors.RequestIdsRoundTrip | packages/ping_monitor/src/lib.rs:138-140 | corrected: every request id decodes back to its experiment, the run's sample count and the sample's number |
| PingMonitors.Latency | packages/ping_monitor/src/lib.rs:143 | now minus the request time, or zero when the local clock is behind the request |
| PingMonitors.PongResult | packages/ping_monitor/src/lib.rs:138-167 | a pong becomes one entry with one sample, for the decoded experiment and the pong's source address |
| PingMonitors.CmpResultOrder | packages/ping_monitor/src/lib.rs:199-216 | cmp_result is a total order on experiment id, target ip and target port, equal exactly on those |
| PingMonitors.CmpResult | packages/ping_monitor/src/lib.rs:199-216 | the experiment id decides first: a smaller id sorts before a larger one |
| PingMonitors.RequestIdBase | packages/ping_monitor/src/lib.rs:238 | with an experiment id below 2^56 and at most 15 samples, the id sits above bit 8 and the count in bits 4 to 7 |
| PingMonitors.InsertSorted | packages/ping_monitor/src/lib.rs:173 | inserting adds exactly the one entry |
| PingMonitors.InsertSortedSorted | packages/ping_monitor/src/lib.rs:173 | inserting into a sorted sequence keeps it sorted |
| PingMonitors.SortResults | packages/ping_monitor/src/lib.rs:173 | sorting keeps the length |
| PingMonitors.SortPermutes | packages/ping_monitor/src/lib.rs:173 | sorting is a permutation |
| PingMonitors.SortResultsSorted | packages/ping_monitor/src/lib.rs:173 | the sorted sequence is ordered by cmp_result |
| PingMonitors.SortResultsStable | packages/ping_monitor/src/lib.rs:173 | the sort is stable: the entries of each key keep their order |
| PingMonitors.CombineExperiments | packages/ping_monitor/src/lib.rs:172-197 | the sort and the write/read grouping loop produce the combined results |
| PingMonitors.Combined | packages/ping_monitor/src/lib.rs:172-197 | grouping never gives more entries than the input, and gives none exactly for an empty input |
| PingMonitors.AbsorbKeeps | packages/ping_monitor/src/lib.rs:181-185 | moving the read entry's sample into the group at write keeps the grouping to come |
| PingMonitors.NextGroupKeeps | packages/ping_monitor/src/lib.rs:186-191 | draining the absorbed entries and starting the next group keeps the grouping to come |
| PingMonitors.CombinedGathers | packages/ping_monitor/src/lib.rs:172-197 | for single-sample input, the result is strictly increasing with one entry per key, and each entry holds the samples of all input entries of its key, in input order |
| PingMonitors.CombinedKeepsSamples | packages/ping_monitor/src/lib.rs:172-197 | no sample is lost |
| PingMonitors.TestCombine | packages/ping_monitor/src/lib.rs:295-312 | four entries for two targets combine into two, with 3 and 1 samples, in port order |
| UdpClientRegistry.ShouldRemoveMeans | packages/agent_core/src/network/udp/udp_clients.rs:73-82 | a client is removed exactly when its busier side has been quiet for more than 90 s, or both sides for more than 60 s |
| UdpClientRegistry.ShouldRemove | packages/agent_core/src/network/udp/udp_clients.rs:73-82 | a removed client has been idle for more than a minute on at least one side |
| UdpClientRegistry.RecentClientKept | packages/agent_core/src/network/udp/udp_clients.rs:76-82 | a client heard from on either side within the last minute, and on both within 90 s, is kept |
| UdpClientRegistry.ClearedPrefix | packages/agent_core/src/network/udp/udp_clients.rs:72-92 | the slots before the visited point are cleared and the rest are untouched |
| UdpClientRegistry.ClearedSlots | packages/agent_core/src/network/udp/udp_clients.rs:72-92 | every slot is vacated when its client is to be removed and kept otherwise |
| UdpClientRegistry.ClearedLookup | packages/agent_core/src/network/udp/udp_clients.rs:84-86 | exactly the keys whose client survives remain, each at its slot |
| UdpClientRegistry.ClearStep | packages/agent_core/src/network/udp/udp_clients.rs:84-91 | vacating an expired slot and dropping the key found there extends the visited prefix by one; a kept slot changes nothing |
| UdpClientRegistry.ClearedPrefixRegistered | packages/agent_core/src/network/udp/udp_clients.rs:85-86 | every prefix of the walk keeps each key pointing at the slot of its client, which the source asserts |
| UdpClientRegistry.ClearedPrefixDone | packages/agent_core/src/network/udp/udp_clients.rs:72-92 | the whole walk gives the cleared slab and the cleared lookup |
| UdpClientRegistry.RefreshRegistered | packages/agent_core/src/network/udp/udp_clients.rs:136 | refreshing a client's timestamp keeps the registry's invariant |
| UdpClientRegistry.Inserted | packages/agent_core/src/network/udp/udp_clients.rs:198-258 | the new client sits in its slot, in a vacant place or at the end, and every other slot is unchanged |
| UdpClientRegistry.InsertRegistered | packages/agent_core/src/network/udp/udp_clients.rs:198-258 | a client of a new key placed in a vacant slot named after it, with its key mapped there, keeps the invariant |
| UdpClientRegistry.ClearedKeepsSpared | packages/agent_core/src/network/udp/udp_clients.rs:72-92 | a client stays in its slot and under its key exactly when the removal rule spares it |
| UdpClientRegistry.OriginPortOffset | packages/agent_core/src/network/udp/udp_clients.rs:115-134 | accepted exactly when the source is v4, on the origin's ip, and at a port from the origin's port up to the port count; the offset is the port difference; a v6 source is refused as not ip4 |
| UdpClientRegistry.ReplyFlow | packages/agent_core/src/network/udp/udp_clients.rs:138-149 | a flow with an extension keeps its destination and family, moves its source port up by the offset and records it; a flow without one gets nothing |
| UdpClientRegistry.TargetAddr | packages/agent_core/src/network/udp/udp_clients.rs:163-169 | a v4 origin is targeted at its port plus the offset; a v6 origin gets nothing |
| UdpClientRegistry.ClientFlow | packages/agent_core/src/network/udp/udp_clients.rs:207-224 | the flipped flow with the offset taken off the new source port and set to zero; nothing when there is no extension or the offset exceeds the port |
| UdpClientRegistry.ReplyRestoresFlow | packages/agent_core/src/network/udp/udp_clients.rs:138-149 | a reply from the port a tunneled packet was sent to travels back with exactly the flipped flow of that packet |
| UdpClientRegistry.TargetPassesOriginChecks | packages/agent_core/src/network/udp/udp_clients.rs:115-134 | a reply from the target address of an offset passes the origin checks exactly when the offset is below the port count, and gives back the same offset |
| UdpClientRegistry.SpecialLan | packages/agent_core/src/network/udp/udp_clients.rs:189 | the special local address is used exactly for a loopback origin without a PROXY protocol header |
| UdpClientRegistry.UdpClients.constructor | packages/agent_core/src/network/udp/udp_clients.rs:50-69 | a new registry has no clients and no keys |
| UdpClientRegistry.UdpClients.ClearOld | packages/agent_core/src/network/udp/udp_clients.rs:71-93 | the slab and lookup become the cleared ones, and the invariant holds |
| UdpClientRegistry.UdpClients.DispatchOriginPacket | packages/agent_core/src/network/udp/udp_clients.rs:99-152 | a reply is forwarded exactly when its slot holds a client with the same id, the tunnel is known and the source passes the origin checks; then only that client's origin time changes and the result is its reply flow; a missing client is reported as such; a refused reply changes nothing |
| UdpClientRegistry.UdpClients.HandleTunneledPacket | packages/agent_core/src/network/udp/udp_clients.rs:154-261 | each input gets the outcome of the first check it fails, in the source's order: no extension, no origin for the tunnel, no v4 target, then a known key is sent to its client at the target, refreshing only its tunnel time; a new key is rate limited, fails its socket, or has an offset above the tunnel port; otherwise it is added at the free slot with the client flow and both times now, and the outcome carries the target, the special-address choice and whether a PROXY v2 header is sent; every outcome but those two changes nothing |
| UdpRelayClients.ContainsAddrMeans | packages/agent_core/src/network/udp/clients.rs:641-651 | an address belongs to a resource exactly when it has the origin's ip and a port from the origin's port up to the number of tunnel ports |
| UdpRelayClients.ContainsAddr | packages/agent_core/src/network/udp/clients.rs:641-651 | an address a resource contains has the origin's ip and lies in the closed span is_overlapping compares |
| UdpRelayClients.IsOverlapping | packages/agent_core/src/network/udp/clients.rs:653-665 | overlapping resources share the ip, and the larger of the two origin ports lies in both spans |
| UdpRelayClients.IsOverlappingSymmetric | packages/agent_core/src/network/udp/clients.rs:653-665 | overlap is symmetric |
| UdpRelayClients.IsOverlappingMeans | packages/agent_core/src/network/udp/clients.rs:653-665 | two resources overlap exactly when they share the ip and their closed port spans meet |
| UdpRelayClients.SharedAddrOverlaps | packages/agent_core/src/network/udp/clients.rs:641-665 | two resources holding a common address overlap |
| UdpRelayClients.TouchingSpansOverlap | packages/agent_core/src/network/udp/clients.rs:653-665 | a resource starting where another ends overlaps it although no address belongs to both |
| UdpRelayClients.CanAddAsWritten | packages/agent_core/src/network/udp/clients.rs:582-586 | as written: the resource is accepted exactly when some client does not overlap it |
| UdpRelayClients.CanAdd | packages/agent_core/src/network/udp/clients.rs:582-586 | corrected: the resource is accepted exactly when no client overlaps it |
| UdpRelayClients.PushKeepsDisjoint | packages/agent_core/src/network/udp/clients.rs:582-586 | a client added after the corrected check keeps the socket's clients pairwise disjoint |
| UdpRelayClients.DisjointUniqueContainer | packages/agent_core/src/network/udp/clients.rs:335-341 | among disjoint clients at most one holds any address, so the origin reply's client is unambiguous |
| UdpRelayClients.CanAddAsWrittenAdmitsOverlap | packages/agent_core/src/network/udp/clients.rs:582-586 | as written, an empty socket refuses every client, and a resource overlapping one client is admitted when another does not overlap it, breaking disjointness |
| UdpRelayClients.CanAddAsWrittenExample | packages/agent_core/src/network/udp/clients.rs:582-586 | as written, with clients at 127.0.0.1:100 and :200 a new client at :100 is admitted and two clients hold the same address |
| UdpRelayClients.GetClient | packages/agent_core/src/network/udp/clients.rs:588-602 | the first client whose tunnel ip and port range serve the flow, and nothing exactly when none does |
| UdpRelayClients.RangeFlowServed | packages/agent_core/src/network/udp/clients.rs:588-602 | a flow in a client's range is served by it |
| UdpRelayClients.TunnelFlowOf | packages/agent_core/src/network/udp/clients.rs:447-450 | the player of a flow keeps its family and tunnel ip |
| UdpRelayClients.NewClientHoldsFlow | packages/agent_core/src/network/udp/clients.rs:431-456 | the client made for a flow whose port is in the found range holds the flow in its range and serves it |
| UdpRelayClients.TargetAddr | packages/agent_core/src/network/udp/clients.rs:514-517 | the target is the origin's ip at its port plus the destination port less the tunnel's first port |
| UdpRelayClients.TargetRoundTrip | packages/agent_core/src/network/udp/clients.rs:331-368 | the target address belongs to the client, and a reply from it maps back to the same tunnel port and the client's own range |
| UdpRelayClients.KeepClientMeans | packages/agent_core/src/network/udp/clients.rs:199-219 | a client never heard from the origin is kept for 15 s after tunnel traffic; otherwise while one side was active within a minute and neither idle more than five |
| UdpRelayClients.IndexOfId | packages/agent_core/src/utils/id_slab.rs:58-67 | the place of the socket with the id, and nothing exactly when no socket has it |
| UdpRelayClients.RangeFlows | packages/agent_core/src/network/udp/clients.rs:221-259 | exactly the mapped flows in the client's range |
| UdpRelayClients.Retained | packages/agent_core/src/network/udp/clients.rs:198-264 | exactly the clients the keep rule spares, in their order |
| UdpRelayClients.AfterRetain | packages/agent_core/src/network/udp/clients.rs:185-268 | every socket after the first pass of clear_old, in place |
| UdpRelayClients.ExpiringIds | packages/agent_core/src/network/udp/clients.rs:190-196 | exactly the ids of the client sockets empty for more than 60 s |
| UdpRelayClients.RetainedDisjoint | packages/agent_core/src/network/udp/clients.rs:198 | the kept clients stay disjoint |
| UdpRelayClients.QueuedHas | packages/agent_core/src/network/udp/clients.rs:255-259 | every flow of a dropped client is queued for removal |
| UdpRelayClients.ExpiringStillThere | packages/agent_core/src/network/udp/clients.rs:276-280 | an expiring socket not yet removed is still found by its id, empty and of the client type, as the last pass unwraps and asserts |
| UdpRelayClients.ClearedKeepsTunnel | packages/agent_core/src/network/udp/clients.rs:186-188 | the tunnel socket survives clear_old untouched |
| UdpRelayClients.SurvivesClear | packages/agent_core/src/network/udp/clients.rs:185-280 | a socket that does not expire is found under its id after clear_old, with only its spared clients |
| UdpRelayClients.CoveringClientKept | packages/agent_core/src/network/udp/clients.rs:221-274 | a client with a flow clear_old keeps is itself kept |
| UdpRelayClients.ClearedKeepsFlow | packages/agent_core/src/network/udp/clients.rs:181-281 | every flow kept by clear_old still names a socket with a client whose range holds it |
| UdpRelayClients.ClearedTableInv | packages/agent_core/src/network/udp/clients.rs:181-281 | clear_old keeps the relay's invariant: unique ids, one tunnel socket with no clients, disjoint clients, every flow served |
| UdpRelayClients.RetainStep | packages/agent_core/src/network/udp/clients.rs:198-264 | one more client in the retain pass adds it to the kept ones or its flows to the queue |
| UdpRelayClients.RetainClients | packages/agent_core/src/network/udp/clients.rs:198-264 | the retain loop keeps exactly the spared clients and queues their dropped flows, and panics exactly when a dropped client has no flow |
| UdpRelayClients.PassStep | packages/agent_core/src/network/udp/clients.rs:185-268 | one more socket in the first pass extends the sockets, the queued flows and the queued socket ids |
| UdpRelayClients.RetainPass | packages/agent_core/src/network/udp/clients.rs:185-268 | the first pass gives the retained sockets, the queued flows and the expiring socket ids, panicking exactly when a dropped client has no flow |
| UdpRelayClients.RemoveFlows | packages/agent_core/src/network/udp/clients.rs:272-274 | every queued flow leaves the map, panicking exactly when one is queued twice |
| UdpRelayClients.RemoveSocketStep | packages/agent_core/src/network/udp/clients.rs:276-280 | each queued socket is found, empty and of the client type, and removed |
| UdpRelayClients.RemoveSockets | packages/agent_core/src/network/udp/clients.rs:276-280 | the last pass leaves the sockets clear_old keeps |
| UdpRelayClients.ChooseSocket | packages/agent_core/src/network/udp/clients.rs:458-460 | corrected (see Findings): the first client socket that accepts the resource, and nothing exactly when none does |
| UdpRelayClients.PlaceNewClient | packages/agent_core/src/network/udp/clients.rs:421-503 | corrected (see Findings): a missing tunnel and a port outside the found range fail; the new client joins the first socket that accepts it; otherwise a new socket holding only it is made, failing at the socket limit or when the socket cannot be set up |
| UdpRelayClients.ServedClient | packages/agent_core/src/network/udp/clients.rs:506-511 | the socket of the id and a client in it that serves the flow |
| UdpRelayClients.Touched | packages/agent_core/src/network/udp/clients.rs:512-566 | a client after a tunneled packet has its tunnel activity now, and its last header now when one was sent |
| UdpRelayClients.NewClientGetsHeader | packages/agent_core/src/network/udp/clients.rs:519-538 | a new client that uses PROXY protocol v2 is sent a header with its first packet, and one that does not is never sent one |
| UdpRelayClients.HeaderRateLimited | packages/agent_core/src/network/udp/clients.rs:525-538 | a header is sent at most once every 2 s, and never within 15 s of origin activity |
| UdpRelayClients.AddClientInv | packages/agent_core/src/network/udp/clients.rs:462-465 | corrected (see Findings): pushing a client onto a socket that accepts it keeps the invariant with the flow mapped to that socket |
| UdpRelayClients.InsertSocketKeeps | packages/agent_core/src/network/udp/clients.rs:466-499 | inserting a socket under an unused id keeps the ids unique and every socket in place |
| UdpRelayClients.InsertSocketInv | packages/agent_core/src/network/udp/clients.rs:466-499 | a new client socket holding the flow's client keeps the invariant with the flow mapped to it |
| UdpRelayClients.PlaceNewClientInv | packages/agent_core/src/network/udp/clients.rs:421-503 | corrected (see Findings): placing a new client keeps the invariant with its flow mapped to the socket it went to |
| UdpRelayClients.MappedFlowServed | packages/agent_core/src/network/udp/clients.rs:506-511 | under the invariant every mapped flow finds its socket and a client that serves it, so the two expects never fire |
| UdpRelayClients.TouchClientInv | packages/agent_core/src/network/udp/clients.rs:512-566 | refreshing a client's times keeps the invariant |
| UdpRelayClients.UdpClients.constructor | packages/agent_core/src/network/udp/clients.rs:115-169 | the relay starts with the tunnel socket alone, under its slab id, and no flows |
| UdpRelayClients.UdpClients.ClearOld | packages/agent_core/src/network/udp/clients.rs:181-281 | the three passes give the cleared sockets and flows and keep the invariant, and panic exactly where the source panics (its assert and its unwrap with message) |
| UdpRelayClients.UdpClients.Deliver | packages/agent_core/src/network/udp/clients.rs:506-572 | a mapped flow is forwarded by its socket's serving client to the target address, with a PROXY header exactly when due and a packet is free, and only that client's times change |
| UdpRelayClients.UdpClients.ForwardPacketToOrigin | packages/agent_core/src/network/udp/clients.rs:418-573 | corrected (see Findings): a mapped flow is delivered; a new flow is placed and mapped to its socket, or dropped with the placing error and no change; the invariant is kept |

## Left out

- Sockets, async tasks, channels and locks are not modelled. A socket's success or failure is a `bool` parameter. Examples are `socketCreated` and `socketSetUp` in the UDP relays, and `binds` in `LanAddresses`. Received datagrams arrive as values.
- Clocks are not modelled. Every `now_milli`/`now_sec` or `Instant::now()` value is a parameter. In `UdpRelayClients.UdpClients.ForwardPacketToOrigin` one `now` stands for all three clock reads of packages/agent_core/src/network/udp/clients.rs (419, 487 and 503).
- Randomness is not modelled: the ping monitor's wait jitter takes the random `u64` as a parameter of `PingMonitors.SenderWait`. The sleeps, the send loop and the experiment schedule of the ping monitor (`new`, `refresh`, `start`, `start_sending`) are timing and I/O and are left out, except for the wait `start_sending` computes before each sleep (lib.rs:229-230). That wait is `PingMonitors.SenderWait`; when the server sends a `test_interval` below 3, its third is 0 and `rand::random::<u64>() % 0` panics the sender task, which `SenderWait` returns as `None`.
- HMAC-SHA256 is a function parameter `(key, data) -> tag`. The hmac modules are foreign cryptography.
- `tracing` logs, the error counters of the relays and `println!` are left out. They have no effect on the modelled state.
- The `message_encoding` crate that packages/agent_proto/src/control_messages.rs imports is not part of this model. Its primitive encodings are taken to be those of packages/agent_proto/src/encoding.rs, which `Encoding` models.
- An IPv6 `SocketAddr` keeps no flow info or scope id. The decoder sets both to 0, and the round trip is stated for such addresses.
- `valid_secret_key` of packages/messages/src/agent_config.rs:26-38 is the same code as the agent_common one, so it is modelled once, as `AgentConfigs.ValidSecretKey`.
- JSON parsing and `IpAddr::from_str` are not modelled. `OriginLookups.FromAgentTunnel` takes the tunnel type and local ip already parsed. `u16::from_str` of the local port is modelled.
- The governor rate limiter of packages/agent_core/src/network/udp/udp_clients.rs is modelled only by its answer, `limiterAllows`.
- udp_clients.rs calls `create_socket` with arguments that do not match the lan_address.rs functions shown. Its result is therefore a parameter.
- The `udp_clients.rs` origin view (`local_addr`, `port_count`, `proxy_protocol`) belongs to a newer origin_lookup.rs than the one shown. `UdpClientRegistry` models it as its own abstract `OriginView`.
- The `IdSlab` inside `UdpRelayClients` is a sequence of sockets keyed by id. The slab's next free id (`newSocketId`, `None` at the socket limit) and position (`newSocketPos`) are parameters. `UdpClientRegistry` uses a slot sequence with the free slot (`freeSlot`) as a parameter. The slab itself is modelled in `IdSlabs`.
- `UdpRelayClients.UdpClients.ClearOld` removes the queued flows in one fixed order. The source drains a `Vec` built while walking a slab, and the resulting map does not depend on the order.
- `recv_next` and `handle_tunnel_packet` of packages/agent_core/src/network/udp/clients.rs (lines 283-416) are not modelled. This is the origin-to-tunnel direction: receiving from a socket, finding the client by `contains_addr` and writing the footer. What the model keeps of it is `UdpRelayClients.TargetRoundTrip` and `UdpRelayClients.DisjointUniqueContainer`.
- `ProxyProtocolHeader::from_udp_flow` and `write_v2_udp` are called by clients.rs but are missing from the proxy_protocol.rs shown. The relay models only whether a header is sent, not its bytes.
- `IdSlab::get_mut` and `iter_mut` do the same lookup as `get` and `iter`, which are modelled. The iterator's laziness is not kept: `IdSlabs.IdSlab.Iter` returns all occupied values in slot order.
- The `Mutex` around `LogCapture` and the `tracing` layer that feeds it are left out. They are concurrency and logging plumbing.
- `authenticate` of connected_control.rs runs I/O: the signing request, five sends and up to five reads each. `EstablishedControls.EstablishedControl.Authenticate` sees it only through its answer and the last pong its reads stored (each `recv` stores every pong it reads, connected_control.rs:153-155). Which answer each server response leads to is not modelled.
- The TCP idle-eviction predicate and the `pop_region` table live in async workers outside the modelled files, so they are not modelled.
- LanAddresses.UdpSocket: gives the first bind attempt that succeeds, as an `Option`. It does not carry the `io::Error` of the last attempt.
- Encoding.GetBytes: a length larger than the bytes left is UnexpectedEof in the model. The source first allocates a zeroed buffer of the announced length (encoding.rs:309-310); lengths above `isize::MAX` panic with a capacity overflow, and lengths beyond the available memory abort the process. The model does not capture either, and neither do `GetClaimInstructions`, `GetUdpChannelDetails`, `GetControlFeed` and `GetNewClient`, which read byte vectors through it.
- AgentStates.PortClaimState.SetTarget: models the corrected flagging (`FlagToEnd`). The twin in `current` of an acknowledged claim that left the config is moved to the end under its fresh id; agent_state.rs:242-247 flags it where it stands. The in-place flagging and the twin it loses are modelled separately, by `AgentStates.FlagInPlace`, `AgentStates.FlagInPlaceUnsorts` and `AgentStates.FlagInPlaceMissesTwin`. The model does not run whole `set_target` calls as written.
- AgentStates.CoreDropTwinned: proved for the corrected, move-to-end flagging of `SetTarget`, not for the in-place flagging of agent_state.rs:242-247.
- AgentStates.RetainMapped: proved for the corrected flagging. As written, a twin may go unfound (`FlagInPlaceMissesTwin`) and stay live after its target is dropped.
- AgentStates.SettledCurrentAgrees: holds for the corrected `SetTarget` only. As written, after `[3, 4, 2]` claim 2 is not configured and not flagged.
- AgentStates.PortClaimState.AckRequest: the branch of agent_state.rs:298-310 for a live entry of `current` with no twin in `target` is not modelled; there it is a dead branch (`assert false`). Under the corrected `SetTarget` every live entry of `current` has its twin (the `LiveHaveTwins` conjunct of the invariant), so the branch cannot be reached. The branch's action, remove, flag under a fresh id and push to the end, is `AgentStates.FlagToEnd`, which the corrected `SetTarget` uses. The source reaches the branch after an in-place flag loses a twin.
- UdpRelayClients.ChooseSocket: picks the first socket that is of the client type and passes the corrected `CanAdd` (no client overlaps). clients.rs:456-458 picks the first socket that passes the as-written `can_add` (some client does not overlap), with no type filter. The type filter only excludes the tunnel socket, which as written no socket choice reaches because it has no clients. So the model reuses an empty client socket, which the source never does, and it opens a new socket for a client at :100 next to clients at :100 and :200, where the source joins that socket.
- UdpRelayClients.PlaceNewClient: places clients by the corrected `ChooseSocket`, not by clients.rs:456-458 as written (see `ChooseSocket`).
- UdpRelayClients.PlaceNewClientInv: proved for the corrected placement. The `Disjoint` conjunct of `TableInv` (every socket's clients pairwise disjoint) holds only for it; as written, two clients of one socket can hold one address (`CanAddAsWrittenExample`).
- UdpRelayClients.AddClientInv: needs the corrected `CanAdd` to keep the `Disjoint` conjunct of `TableInv`.
- UdpRelayClients.UdpClients.ForwardPacketToOrigin: places a new flow by the corrected `ChooseSocket`; its invariant includes the `Disjoint` conjunct, which only the corrected placement keeps.
- InstanceCounts.InstanceCount.Inc: the per-key count is a `nat`. The `usize` `*count + 1` of instance_count.rs:26 is not bounded or wrapped; it would overflow only after about 2^64 increments of one key.
- Events.PlayitEvents.AddEvent: the next event id is a `nat`. The `usize` `id + 1` of events.rs:34 is not bounded or wrapped; it would overflow only after about 2^64 events.
- UdpClientRegistry.UdpClients.HandleTunneledPacket: `OffsetAboveTunnelPort` stands for the failing `assert!` of udp_clients.rs:211 and 218, which panics in the source. The model returns it as an outcome that changes nothing. It does not capture the panic, nor the socket and receiver task the source has already created at that point.
- UdpRelayClients.PlaceNewClient: `PortOutsideFound` stands for the failing `assert!`s of clients.rs:433-434, which panic in the source. The model returns it as an error that changes nothing.
- ControlMessages.WritePlain, ControlMessages.VerifySignature, ControlMessages.UpdateSignature: each requires `AgentRegisterWritable`, which leaves out the registrations that `write_to` refuses with InvalidInput (proto_version at most 1 with bit 63 of the account id set, or bit 63 of proto_version set; control_messages.rs:222-233). On those the source panics: `write_plain` unwraps the failed write (control_messages.rs:198), and `update_signature` (186-189) and `verify_signature` (191-194) call it, while no caller in the source excludes such a registration. The model does not capture that panic; `ControlMessages.PutAgentRegister` states that exactly these registrations fail to write.
- ControlMessages.VerifySignature: the panic of `write_plain` on an unwritable registration, described in the line above, is not modelled.
- ControlMessages.UpdateSignature: the panic of `write_plain` on an unwritable registration, described two lines above, is not modelled.
- Floating point is not modelled. No modelled code uses it.

## Findings

| source | as written | input that shows it | evidently intended | confidence | as-written member | corrected member |
|---|---|---|---|---|---|---|
| packages/agent_core/src/network/udp/clients.rs:582-586 | `can_add` accepts a resource when some client of the socket does not overlap it (`find(!overlap).is_some()`), so it is false on an empty socket | a socket with clients at 127.0.0.1:100 and 127.0.0.1:200 admits a new client at 127.0.0.1:100, and two clients then hold one address | accept exactly when no client overlaps, which keeps a socket's clients disjoint so that replies from the origin find one client | not executed | UdpRelayClients.CanAddAsWrittenExample | UdpRelayClients.PushKeepsDisjoint |
| packages/agent_core/src/agent_state.rs:239-247 | `set_target` flags a `current` twin where it stands and gives it a fresh, larger request id, which unsorts `current` for the next `binary_search_by` | current claims with ids 0, 1 and 2 whose mappings all left the config: the search for id 2 in `[3, 4, 2]` fails, and claim 2 stays live with no target, still refreshed, until the removal of claim 0 is acknowledged and taken out; only then does the search in `[4, 2]` find it for `ack_request` to flag | move the flagged twin to the end, as `ack_request` does at 298-310, so `current` stays sorted and every twin is found | not executed | AgentStates.FlagInPlaceMissesTwin | AgentStates.CurrentFlagToEnd |
| packages/agent_cli/src/match_ip.rs:73 | the v6 branch tests `self.ip_number == other.ip_number`, already known to be true, instead of the region | the tunnel address of region 2 (North America) with ip number 70 matches the region 3 (Europe) address with ip number 70 | accept only when `region_id` is 0 or equals `other.region_id`, as the v4 branch does | not executed | MatchIps.MatchesIgnoresV6Region | MatchIps.MatchesRegionTunnels |
| packages/ping_monitor/src/lib.rs:237-238 | `samples.min(16)` is shifted into a four-bit field, so 16 samples carry into the experiment id | experiment 2 with 16 samples sends request id 768, which decodes as experiment 3 with sample count 0 | cap the count at 15 so that id, count and sample number decode back | not executed | PingMonitors.SixteenSamplesCorruptId | PingMonitors.RequestIdsRoundTrip |
