# Verified model of multisync

Multisync sends a file from one server to many clients over UDP multicast. The server
announces the file (path, MD5 digest, number of 1024-byte blocks) and sends its blocks one
after the other; packets may be lost, repeated or arrive in any order. A client keeps one
transfer per file identity, writes each block into a sparse temporary file, and renames the
file when no block is missing. This project models that protocol, the packets, and the MD5
implementation that gives files their identity, and proves what they promise.

| file | models |
|---|---|
| `bytes.dfy` | bytes, words, `htonl`/`htons`, memory images of integers |
| `md5spec.dfy` | RFC 1321, sections 3.1 to 3.5, as mathematics: no buffers, counters or chunks |
| `md5rounds.dfy` | the 64 unrolled calls of `MD5::transform` equal the table-driven loop; that loop inverted |
| `md5vector.dfy` | one test vector of RFC 1321, section A.5, through both its blocks |
| `md5.dfy` | the streaming MD5 object, in place, equal to `Md5Spec.Digest` for any way of cutting the input |
| `hex.dfy` | the printed digest and its order under `memcmp` |
| `streams.dfy` | `ifstream` with its sticky state, `seekp` and `write` with a zero-filled gap |
| `fileinfo.dfy` | file identity, its order, block numbers, memory images |
| `message.dfy` | packets: constructors, getters, filling from a stream, receiving into 4112 bytes |
| `syncstatus.dfy` | one transfer: bitmap, counter, temporary file, installation |
| `blockserver.dfy` | the server: block loop, drain loop, queue, handlers |
| `blockclient.dfy` | the client: a map from identities to transfers, handlers |
| `transfer.dfy` | servers, network and client together: what every run keeps |
| `completeness.dfy` | which packets complete a transfer, and what stops a client |
| `installation.dfy` | what changes the disk, and when a served file gets there |
| `assembly.dfy` | what the packets of a file of any size make when put together |

## How to read it

An object that the program changes in place is a class (`MD5`, `InputStream`, `Message`,
`BlockInfo`, `SyncStatus`, `BlockServer`, `BlockClient`). Each of its methods is proved to do
what a function on values says (`Status`, `Server`, `Client`, or the message so far), and the
properties of runs are lemmas about those functions. The chain for a transfer is

1. `Md5.MD5.*` to `Md5Spec.Digest`, so `FileInfos.Create` yields `InfoOf(content)`;
2. `BlockServers.BlockServer.Start` runs `BlockServers.Step`, so every packet sent is a
   `PacketOf` the source file, and `RunKeeps` bounds which ones;
3. `Messages.PacketRoundTrip` and `ReceiveExact`, so the client reads what was built;
4. `BlockClients.BlockClient.ProcessMessage` does `BlockClients.Step`, whose effect on one entry is
   a `SyncStatuses.Perform`;
5. `Transfer.RunKeeps` carries an invariant through every run; `EndToEnd`, `InstalledIsServed`
   and `InstalledStays` say that nothing false is ever held or installed;
6. `Completeness.DeliveredSuffices` and `SentSuffices` say the converse: what has arrived is held;
   and `Installation.DeliveredIsInstalled` that it is installed on the first goodbye.

## Results that contradict the program's intent

Each is a lemma; nothing in the model was changed to avoid it.

- `MD5::update` reads past its input exactly when the bytes buffered and the length of one call
  reach 2^32 together, because `input_index + 63` wraps; the loop does get that far
  (`Md5.GuardStopsExactly`).
- The 32-bit `BLOCKSIZE * i` is right for every block sent exactly if at most 2^22 blocks are sent
  (`BlockServers.SeekExact`, `BlockServers.WrongPayload`). Files of a given size are all put together
  correctly exactly if the size is at most 4 GiB: beyond that the seek wraps, and from about 2^42
  bytes on the block count may (`Assembly.AssembledExact`).
- The comment at src/blockserver.cpp:53-54 says the queue does not grow beyond 5. It grows by one with
  every request for information: 5 plus the number of requests is a bound, and is reached by
  hellos and requests that arrive while the socket is not writable (`BlockServers.QueueBound`,
  `BlockServers.QueueBoundReached`).
- The block loop leaves a block out as soon as requests for information and passes that could
  not write number four together (`BlockServers.FirstSkipExact`, `BlockServers.WholeFileExact`).
  The comment at src/blockserver.cpp:49-50 says missing blocks are resent later; no code does so.
- A request for a block always ends the server, because its handler asks one message for
  metadata of two sizes (`BlockServers.OneMetadataType`, `BlockServers.BlockRequestStops`).
- A hello that reaches a server makes it wait for that client, and a goodbye of a client that reaches
  it ends it with an exception (`Transfer.HelloRegisters`, `BlockServers.WaitsForHost`,
  `Transfer.AcknowledgementStopsServer`). As they are addressed they reach other clients instead: the
  client sends to the port that clients listen on, and the server binds a port of its own
  (src/blockserver.cpp:25, src/blockclient.cpp:21, src/blocksocket.cpp:39-47). Clients ignore them
  (`BlockClients.SpokenIgnored`, `Transfer.SaidIsStray`).
- A client installs a file only on receiving a server goodbye (`BlockClients.StepWaiting`), which no
  server sends: it is modelled as an input event.
- One datagram about nothing, or about one file, can stop a client, and with it the transfers of all
  other files (`BlockClients.DiesExactly`, `Completeness.StrayHeaderStops`); that is the only way in
  which the entries of transfers interfere (`BlockClients.NonInterference`). On the disk, two files
  with the same path replace each other (`Installation.ReplacedExactly`).
- `FileInfo::operator==`, which include/fileinfo.hpp:18-22 says is equality, is right exactly for
  identities with different block counts, and otherwise says the opposite of what is true
  (`FileInfos.EqualExact`). Identity here is what `operator<` cannot separate.

## Assumptions

- The host is little-endian; `unsigned int` has 32 bits, with every wrap-around written out.
  Vector sizes and `unsigned long` counters are natural numbers, proved not to go below zero.
- Memory that the program leaves as it was allocated (alignment bytes in headers and
  metadata, the tail of a trimmed receive buffer) is zero.
- The source file does not change while it is served. Across several servers, equal
  identities mean equal content (`Transfer.Assumed`); nothing is assumed about MD5 otherwise.
- Temporary names are fresh and nobody else writes to the temporary or the installed file, so
  the temporary file is part of its transfer, and a second `rename` of it has no effect.
- `goodbye_received` starts false (src/syncstatus.cpp:5-12 leaves it unset), and the client's
  `id` is an arbitrary constant (src/blockclient.cpp:18-22 never sets it).
- Opening, reading and writing files and sending packets succeed. What `select` and `recvfrom` find
  is a parameter (`BlockServers.Event`), arbitrary at every pass.
- The client's inputs are those for which C++ defines a result (`BlockClients.Proper`): the
  payload lies inside the packet and a block number is below the block count that comes with
  it. `Transfer.SentIsTrue` and `BlockClients.SpokenIgnored` prove that everything servers and clients
  send is of this kind.
- No datagram about a file comes from anyone but a server of that file, except goodbyes
  (`Transfer.Possible`).

## Model

| member | source | states |
|---|---|---|
| Bytes.HtonlInvolution | src/blockinfo.cpp:25-35 | converting a block number to network order and back gives it unchanged, for all 32-bit values |
| Bytes.WordRoundTrip | src/message.cpp:55-67 | a 32-bit field is read back as written, in host and in network order |
| Bytes.BytesRoundTrip | src/message.cpp:55-67 | four bytes are exactly the image of the word they are read as, in both orders |
| Bytes.ShortRoundTrip | include/message.hpp:36-46 | the 16-bit offset field is read back as written |
| Bytes.ByteOrder | src/message.cpp:24-27 | which byte is which: least significant first in memory, most significant first in network order |
| Bytes.ShortOrder | include/message.hpp:188-188 | the offset travels with its high byte first |
| Bytes.HtonlInMemory | src/blockinfo.cpp:12-16 | a number stored through `htonl` lies in memory in network order |
| Md5Spec.DecodeInvertsEncode | src/md5.cpp:434-458 | decoding what was encoded gives back the words, for any number of words |
| Md5Spec.EncodeInvertsDecode | src/md5.cpp:434-458 | encoding what was decoded gives back the bytes, for every length divisible by 4 |
| Md5Spec.AbsorbConcat | src/md5.cpp:95-106 | whole blocks may be transformed now and the rest later: absorbing is a fold over concatenation |
| Md5Spec.PadFillsBlocks | src/md5.cpp:199-208 | message, padding and length fill whole blocks and begin with the message |
| Md5Spec.PadInjective | src/md5.cpp:199-208 | different messages of any lengths, even beyond 2^61 bytes, have different padded forms |
| Md5Vector.DigestOfLettersAndDigits | src/md5.cpp:340-428 | the digest of the 62 letters and digits is the one printed in section A.5 of RFC 1321: both blocks, all 128 operations |
| Md5Vector.FirstCompress | src/md5.cpp:340-428 | the literal state after the first block of that message |
| Md5Vector.SecondCompress | src/md5.cpp:340-428 | the literal state after the second block |
| Md5Spec.F | src/md5.cpp:497-499 | where the first argument has ones the result is the second, elsewhere the third |
| Md5Spec.G | src/md5.cpp:501-503 | where the third argument has ones the result is the first, elsewhere the second |
| Md5Spec.H | src/md5.cpp:505-507 | the result is undone by two of the arguments |
| Md5Spec.I | src/md5.cpp:509-511 | the second argument is kept exactly where the third has ones and the first none, and flipped elsewhere |
| Md5Rounds.FFIsStep | src/md5.cpp:519-523 | an FF call with the indices, shift and constant of operation i is that operation of the table-driven loop |
| Md5Rounds.GGIsStep | src/md5.cpp:525-529 | the same for GG in round 2 |
| Md5Rounds.HHIsStep | src/md5.cpp:531-535 | the same for HH in round 3 |
| Md5Rounds.IIIsStep | src/md5.cpp:537-541 | the same for II in round 4 |
| Md5Rounds.Round1 | src/md5.cpp:348-364 | sixteen literal calls with rotated registers are operations 0 to 15 of the table-driven loop |
| Md5Rounds.Round2 | src/md5.cpp:366-382 | the literal calls are operations 16 to 31 |
| Md5Rounds.Round3 | src/md5.cpp:384-400 | the literal calls are operations 32 to 47 |
| Md5Rounds.Round4 | src/md5.cpp:402-418 | the literal calls are operations 48 to 63 |
| Md5Rounds.Rounds | src/md5.cpp:340-418 | the unrolled body is the 64-step loop of section 3.4, for every state and every block |
| Md5Rounds.RotateInverse | src/md5.cpp:488-490 | rotation by each amount used has an inverse on both sides |
| Md5Rounds.StepInverse | src/md5.cpp:519-541 | each operation is undone by subtracting, rotating back and subtracting, on both sides |
| Md5Rounds.StepsBijective | src/md5.cpp:349-418 | for a fixed block any run of operations before the feed-forward permutes the four-word states |
| Md5Rounds.CompressInverse | src/md5.cpp:340-428 | knowing the state a block started from, subtracting it and running the inverse operations gives it back |
| Md5.CounterAdds | src/md5.cpp:85-89 | truncated shift, compare-based carry and `>> 29` together add 8 times the length modulo 2^64, for every 32-bit length |
| Md5.CounterIndex | src/md5.cpp:82-83 | the index computed from the low counter word is the total number of bytes modulo 64 |
| Md5.GuardStopsExactly | src/md5.cpp:99-103 | for every 32-bit length the loop comes to the last whole block, and the wrapping guard stops it there if and only if buffered bytes and input together are below 2^32 |
| Md5.GuardIsExact | src/md5.cpp:101-103 | under that bound the guard holds exactly while 64 more bytes of input exist |
| Md5.MD5.constructor | src/md5.cpp:59-63 | a new object stands for the empty message |
| Md5.MD5.Init | src/md5.cpp:299-311 | zero counters and the four constants are the state of the empty message |
| Md5.MD5.CountBytes | src/md5.cpp:82-89 | the counter pair goes from 8n to 8(n + length) modulo 2^64, and the index returned is n modulo 64 |
| Md5.MD5.Transform | src/md5.cpp:340-428 | the registers become section 3.4 applied to the old registers and the 64 bytes given |
| Md5.MD5.Update | src/md5.cpp:72-113 | the message grows by exactly the bytes given, with registers, buffer and counter representing it; a finalized object is unchanged |
| Md5.MD5.TransformInput | src/md5.cpp:94-108 | registers are the fold over the first whole blocks; what is left is the total modulo 64 and is the unconsumed tail |
| Md5.MD5.TransformWhole | src/md5.cpp:100-103 | the middle loop ends, reads only inside the input, and leaves fewer than 64 bytes |
| Md5.MD5.UpdateStream | src/md5.cpp:162-173 | reading 1024 bytes at a time is the same as one update with the rest of the file, also if that is empty or a multiple of 1024 |
| Md5.MD5.Finalize | src/md5.cpp:184-218 | the digest is RFC 1321 of the message, for every length; the second call changes nothing |
| Md5.MD5.PaddingFor | src/md5.cpp:202-204 | both branches yield the padding of section 3.1 |
| Md5.MD5.SavedBits | src/md5.cpp:199-200 | the bytes saved before padding are the length of section 3.2 |
| Md5.MD5.FromStream | src/md5.cpp:242-247 | the object holds the digest of all that is left in the stream |
| Md5.MD5.RawDigest | src/md5.cpp:251-261 | the digest of everything given, or an error before `finalize` |
| Md5.MD5.HexDigest | src/md5.cpp:265-280 | the printed digest of everything given, or an error before `finalize` |
| Md5.DigestOfPieces | src/md5.cpp:72-113 | for every way of cutting a message into pieces that `update` can take the result is the RFC 1321 digest of the whole, so any two ways agree |
| Md5.Encode | src/md5.cpp:434-444 | the output holds the words low byte first, and nothing beyond them changes |
| Md5.Decode | src/md5.cpp:451-458 | the output holds the words of the input bytes |
| Md5.Memcpy | src/md5.cpp:465-471 | the target range holds the source range and nothing around it changes |
| Hex.ParseInvertsDigits | src/md5.cpp:274-275 | reading the printed digits back as hexadecimal numbers gives the digest |
| Hex.MemcmpFirst | src/fileinfo.cpp:36-38 | the result is negative exactly if, at the first difference, the byte of the first area is the smaller one |
| Hex.TextOrder | src/fileinfo.cpp:34-38 | comparing printed digests is comparing the raw digests byte by byte |
| Hex.TextInjective | src/md5.cpp:265-280 | different digests are printed differently |
| FileInfos.Create | src/fileinfo.cpp:10-27 | the identity is the RFC 1321 digest of the content and the number of blocks that cover it, rounded up, in 32 bits |
| FileInfos.InfoOfBlockCount | src/fileinfo.cpp:44-47 | the block count is read back from network order |
| FileInfos.IdentityReads | src/fileinfo.cpp:10-27 | the stored text, read back, is the digest of the content, with a zero behind it |
| FileInfos.BlockCountCovers | src/fileinfo.cpp:14-18 | that many blocks cover the content and one less does not, below 2^32 blocks |
| FileInfos.BlockCountWraps | src/fileinfo.cpp:15-19 | with 2^32 more blocks the count is the same |
| FileInfos.LessIsStrictTotalOrder | src/fileinfo.cpp:34-42 | irreflexive, transitive, asymmetric, and separates exactly the different identities |
| FileInfos.KeysFollowDigests | src/fileinfo.cpp:34-42 | map keys coincide exactly when raw digest and block count coincide, and different digests order the keys by their first different byte |
| FileInfos.EqualExact | src/fileinfo.cpp:29-32 | `operator==` agrees with equality if and only if the block counts differ |
| FileInfos.ImageRoundTrip | include/fileinfo.hpp:45-47 | an identity is read back from its memory image, whatever follows it |
| FileInfos.ImageLayout | include/blockinfo.hpp:50-52 | where digest, alignment and the two numbers lie in the metadata, the numbers in network order |
| FileInfos.BlockInfo.constructor | src/blockinfo.cpp:12-16 | the block number reads back as given |
| FileInfos.BlockInfo.Increment | src/blockinfo.cpp:23-31 | the number read back goes up by one modulo 2^32, although stored in network order |
| FileInfos.BlockInfo.Image | include/message.hpp:179-190 | the bytes copied into a packet are those of the identity and of the block number that reads back |
| FileInfos.BlockImageRoundTrip | src/blockclient.cpp:87-88 | identity and block number are read back from the metadata of a block packet |
| Messages.PacketLayout | include/message.hpp:36-46 | every byte of a packet: type, length, sender, offset, alignment, metadata, text |
| Messages.PacketRoundTrip | include/message.hpp:192-220 | type, sender, text and, modulo 2^32, length are what the constructor was given; so is the metadata under its own size, with an error under any other |
| Messages.ArrayRoundTrip | include/message.hpp:222-235 | an array of words sent as payload is the array that `get_array` returns |
| Messages.ArrayRefused | include/message.hpp:222-235 | `get_array` is an error if and only if the payload is no whole number of words |
| Messages.PacketLengthExact | src/blocksocket.cpp:197-205 | the length check passes exactly for packets shorter than 2^32 bytes |
| Messages.RefillIsPacket | src/message.cpp:89-109 | an empty message filled from a stream is the packet constructed with that payload |
| Messages.ReceiveExact | src/blocksocket.cpp:159-184 | a packet that announces its own length is received unchanged if it fits 4112 bytes and is rejected if it had to be cut off |
| Messages.Message.Incoming | src/message.cpp:8-17 | a receive buffer of zeros with room for a header |
| Messages.Message.ReceiveFrom | src/blocksocket.cpp:159-184 | the datagram replaces the front of the buffer, the buffer is trimmed to it, and success means that the length it announces is its own |
| Messages.ReceiveMessage | src/blocksocket.cpp:159-184 | receiving into the 4096-byte message of `process_message` is `Receive`: datagram cut at 4112 bytes, or an error |
| Messages.Message.WithReserve | include/message.hpp:166-190 | header with length 0, metadata and room; without metadata and room the bodiless message |
| Messages.Message.WithText | include/message.hpp:192-206 | the packet that carries the text |
| Messages.Message.Fill | src/message.cpp:89-109 | payload and length field become what the stream had, the buffer is trimmed to it; a message with data is left alone |
| Streams.WriteAt | src/syncstatus.cpp:16-20 | byte by byte: new data in its range, old data elsewhere, zeros in the gap |
| SyncStatuses.SyncStatus.constructor | src/syncstatus.cpp:5-12 | no block written, as many missing as the identity says |
| SyncStatuses.SyncStatus.WriteBlockData | src/syncstatus.cpp:14-26 | the first write of a block marks, counts and writes, a later one changes nothing; the counter stays the number of false bits |
| SyncStatuses.SyncStatus.SetPath | src/syncstatus.cpp:28-31 | only the path changes |
| SyncStatuses.SyncStatus.SetGoodbyeReceived | src/syncstatus.cpp:33-36 | only the goodbye flag changes |
| SyncStatuses.SyncStatus.TransferComplete | src/syncstatus.cpp:38-52 | true exactly for a zero counter and a path that is not empty; then, once only, the disk gets the file under that path |
| SyncStatuses.SyncStatus.SyncComplete | src/syncstatus.cpp:58-61 | without a goodbye nothing happens; otherwise as `transfer_complete` |
| SyncStatuses.WriteHolds | src/syncstatus.cpp:14-26 | a delivery, new or repeated, leaves exactly the first payload of each block in the file |
| SyncStatuses.DeliverHolds | src/syncstatus.cpp:14-26 | after any deliveries: bit set exactly if delivered, counter is n minus the distinct blocks, file holds the first payloads |
| SyncStatuses.DeliverSound | src/syncstatus.cpp:5-26 | after any deliveries the counter is the number of false bits, so it never underflows |
| SyncStatuses.FirstIsDelivered | src/syncstatus.cpp:16-25 | the payloads held are exactly for the blocks delivered, and each was delivered |
| SyncStatuses.HoldsDetermines | src/syncstatus.cpp:14-26 | the payloads held determine bitmap, counter and file |
| SyncStatuses.Confluence | src/syncstatus.cpp:16-25 | two delivery sequences with the same deliveries, in any order and number, give the same bitmap, counter and file |
| SyncStatuses.CompleteFile | src/syncstatus.cpp:14-26 | with no missing block the temporary file is the source, byte for byte and in length, short last block included |
| SyncStatuses.InstallsOnlyComplete | src/syncstatus.cpp:38-61 | a call changes the disk only by installing a file with every block under a non-empty path, at most once |
| SyncStatuses.CompleteIsInstalled | src/syncstatus.cpp:38-61 | with no missing block and a path the file is installed the first time it is looked at, and otherwise nothing changes |
| SyncStatuses.InstalledIsFinal | src/syncstatus.cpp:14-61 | after installation no calls on that transfer change any file |
| BlockServers.SelectStatusExact | src/blocksocket.cpp:124-152 | read allowed exactly if readable, write exactly if writable and asked for, despite the bit left set |
| BlockServers.OneMetadataType | include/message.hpp:208-220 | a message that has host metadata has no block metadata |
| BlockServers.BlockRequestStops | src/blockserver.cpp:121-133 | a request for a block is always an exception |
| BlockServers.SurvivesExactly | src/blockserver.cpp:85-141 | a datagram is no exception if and only if its type is unknown or it is a greeting or goodbye with host metadata |
| BlockServers.OthersIgnored | src/blockserver.cpp:92-99 | types 0, 1, 5 and those that do not exist change nothing |
| BlockServers.LoopAliveExact | src/blockserver.cpp:51-64 | the block loop meets no exception if and only if every datagram in it is such a one |
| BlockServers.StepKeeps | src/blockserver.cpp:46-83 | one pass keeps sent followed by queued equal to enqueued, and block numbers increasing |
| BlockServers.RunKeeps | src/blockserver.cpp:46-83 | in every run: first in first out, and enqueued block numbers strictly increase below the block count |
| BlockServers.QueueAccounting | src/blockserver.cpp:46-83 | queue length is 1 plus requests plus idle passes minus blocks left out, at every pass of the block loop |
| BlockServers.QueueBound | src/blockserver.cpp:46-83 | in every run, in both loops, the queue has at most 5 items and one for every request |
| BlockServers.QueueBoundReached | src/blockserver.cpp:51-63 | for every number of requests a run in which the queue is that long, of passes each of which finds the socket readable or writable |
| BlockServers.FirstSkipExact | src/blockserver.cpp:51-64 | no block left out so far and none next, if and only if requests and idle passes are at most three |
| BlockServers.EveryBlockEnqueued | src/blockserver.cpp:51-64 | the enqueued blocks are all of them in order, once each, if and only if none was left out |
| BlockServers.WholeFileExact | src/blockserver.cpp:51-64 | the loop enqueues the whole file if and only if requests and idle passes before its last pass are at most three |
| BlockServers.NumbersFixed | src/blockserver.cpp:66-69 | after the block loop no further block is enqueued |
| BlockServers.WholeFileSent | src/blockserver.cpp:41-70 | a loop of harmless datagrams with at most three requests and idle passes, and a queue that is empty at last, mean that every block was sent, once and in order |
| BlockServers.SelectHosts | src/blockserver.cpp:103-141 | a host is known after a pass if and only if it greeted or was known and did not leave |
| BlockServers.SendsExactly | src/blockserver.cpp:72-83 | a pass sends the oldest item queued before it if the socket is writable and reading met no exception, and nothing otherwise |
| BlockServers.StopsExactly | src/blockserver.cpp:66-69 | a server has stopped if and only if all blocks are behind it, no host is known and the queue is empty |
| BlockServers.GreetedIsKnown | src/blockserver.cpp:103-119 | in either loop a pass that handles a greeting leaves its host known |
| BlockServers.WaitsForHost | src/blockserver.cpp:66-69 | no run finishes while a known host has not left |
| BlockServers.SeekExact | src/blockserver.cpp:51-59 | every block that is sent has its own bytes, for all contents of a size, if and only if at most 2^22 blocks are sent |
| BlockServers.WrongPayload | src/blockserver.cpp:58 | with more blocks, a file of that size whose block 2^22 is sent with the bytes of block 0 |
| BlockServers.ReadIsFull | src/blockserver.cpp:58-59 | every read before the last block is full, so the stream never turns bad early |
| BlockServers.PacketSender | src/blockserver.cpp:46-56 | type 0 or 1 and the number of the server in every packet |
| BlockServers.BlockServer.constructor | src/blockserver.cpp:23-39 | the served identity is that of the content, and nothing is queued |
| BlockServers.BlockServer.PushInfo | src/blockserver.cpp:46 | the announcement of the file and path joins the queue |
| BlockServers.BlockServer.PushBlock | src/blockserver.cpp:56-59 | the packet of the current block, read from the file, joins the queue; the stream stays good unless the block was short |
| BlockServers.BlockServer.ProcessMessage | src/blockserver.cpp:85-141 | hosts, queue and failure are those of `Process`, for every datagram |
| BlockServers.BlockServer.SelectOn | src/blockserver.cpp:72-83 | reads before it writes, writes the oldest packet, never pops an empty queue |
| BlockServers.BlockServer.Send | src/blocksocket.cpp:186-207 | the oldest packet passes the length check and moves from the queue to the socket |
| BlockServers.BlockServer.BlockPass | src/blockserver.cpp:51-64 | one pass of the block loop is one step of the server |
| BlockServers.BlockServer.Start | src/blockserver.cpp:41-70 | both loops, for any outcomes of `select`, are the run of the server on them |
| BlockClients.ApplyWaiting | src/blockclient.cpp:98-120 | one reply per occurrence of the client in a goodbye for a complete transfer, none otherwise; the entry ends exactly then |
| BlockClients.ApplyFinishes | src/blockclient.cpp:78-80 | after every note a transfer that is acknowledged, complete and has a path ends, installed |
| BlockClients.DiesExactly | src/blockclient.cpp:54-120 | the client stops if and only if the datagram cannot be read or is a goodbye for a complete transfer with an unreadable list |
| BlockClients.RejectedExactly | src/blockclient.cpp:54-101 | what cannot be read: no packet, or a handled type with metadata of another size |
| BlockClients.StepWaiting | src/blockclient.cpp:71-120 | a transfer is dropped exactly by a goodbye naming this client when it is complete; the replies queued are one for every time it is named; only goodbyes install |
| BlockClients.RunWaiting | src/blockclient.cpp:54-129 | in every run no listed transfer has been acknowledged |
| BlockClients.OutboxGrows | src/blockclient.cpp:54-120 | handling a datagram removes nothing from the queue, so the write that follows a read finds the packet asked for |
| BlockClients.SendsExactly | src/blockclient.cpp:41-52 | a pass sends the oldest packet queued before it if the socket is writable and reading met no exception, and nothing otherwise |
| BlockClients.PassesRead | src/blockclient.cpp:29-52 | the loop treats transfers as reading the arrivals in order does, and sent followed by queued is what was queued |
| BlockClients.SelectSpoken | src/blockclient.cpp:33-52 | what is sent and queued stays one hello and then goodbyes |
| BlockClients.SpeechCanBeSent | src/blocksocket.cpp:197-205 | the client's hello and goodbyes pass the length check of sending |
| BlockClients.SpeechReads | src/blockclient.cpp:34-34 | type, sender and host number of the hello, type and sender of the goodbye |
| BlockClients.SpokenIgnored | src/blockclient.cpp:54-69 | whatever a client has sent or queued passes the length check and is ignored by any client that receives it |
| BlockClients.HeardFirst | src/blockclient.cpp:36-38 | the datagrams handled are the first to arrive, and all of them if no exception ends the client |
| BlockClients.NonInterference | src/blockclient.cpp:54-129 | in every run the entry of a file, with its creation and removal, is what its own datagrams alone, among those handled, would have made it |
| BlockClients.StepSameEntry | src/blockclient.cpp:54-129 | one datagram changes only the entry of its own file, and in the same way whatever the others are |
| BlockClients.BlockClient.constructor | src/blockclient.cpp:18-27 | no transfers, nothing queued |
| BlockClients.BlockClient.GetSyncStatus | src/blockclient.cpp:122-129 | the transfer of the file, new only if there was none; all others untouched |
| BlockClients.BlockClient.HandleInfo | src/blockclient.cpp:71-81 | the path is set, and the entry dropped if both sides are done |
| BlockClients.BlockClient.HandleBlock | src/blockclient.cpp:83-96 | the block is written into the transfer of the file that its metadata names |
| BlockClients.BlockClient.HandleSGoodbye | src/blockclient.cpp:98-120 | complete transfers are installed and acknowledged, once per occurrence of the client |
| BlockClients.BlockClient.Acknowledge | src/blockclient.cpp:107-112 | one goodbye queued per occurrence of the client in the array, and the flag set if there is any |
| BlockClients.BlockClient.ProcessMessage | src/blockclient.cpp:54-69 | map, disk, queue and failure are those of `Step`, for every proper datagram |
| BlockClients.BlockClient.SelectOn | src/blockclient.cpp:41-52 | reads before it writes, and sends the oldest packet, which passes the length check |
| BlockClients.BlockClient.Start | src/blockclient.cpp:29-39 | a hello is queued, and the loop, for any outcomes of `select`, is the run of passes on them |
| Transfer.InfoPacketRead | src/blockclient.cpp:71-76 | the client reads from an announcement the identity and the path that the server put in |
| Transfer.BlockPacketRead | src/blockclient.cpp:83-91 | the client reads from a block packet the identity, the block number and exactly that block of the file |
| Transfer.GoodbyePacketRead | src/blockclient.cpp:98-106 | the client reads from a goodbye packet the identity and the list of clients that were put in |
| Transfer.SentIsTrue | src/blockserver.cpp:51-83 | whatever a server has sent is well formed and says the truth about its file |
| Transfer.PerformFaithful | src/syncstatus.cpp:14-61 | calls with true arguments keep a transfer faithful to its file and the disk faithful to the files served |
| Transfer.ReceiveFaithful | src/blockclient.cpp:54-129 | a true datagram keeps the whole client faithful |
| Transfer.PassKeeps | src/blockclient.cpp:41-52 | a reading and writing pass of the client with a true datagram, or none, keeps it faithful |
| Transfer.MoveKeeps | src/blockclient.cpp:41-129 | every pass of a server or of the client, whatever packet of a server, goodbye, stray datagram or nothing the network brings, keeps the invariant |
| Transfer.RunKeeps | src/blockclient.cpp:29-129 | the invariant holds in every state of every run, with loss, repetition, reordering, stray datagrams and several servers |
| Transfer.EndToEnd | src/syncstatus.cpp:14-26 | in every reachable state a transfer with no missing block holds the served file byte for byte |
| Transfer.InstalledIsServed | src/syncstatus.cpp:38-52 | every installed file is one of those served, whole, under the path its server announced |
| Transfer.InstalledStays | src/syncstatus.cpp:38-52 | an installed file is there unchanged in every later state, if no two different files are served under its path |
| Transfer.ClientSays | src/blockclient.cpp:29-52 | in every run the client has sent one hello, first, and otherwise goodbyes |
| Transfer.SaidIsStray | src/blockclient.cpp:54-69 | every packet that the client has sent may reach a client as a stray datagram and is ignored |
| Completeness.PacketsSuffice | src/blockclient.cpp:83-96 | any packets of a file in any order and repetition complete the transfer with the whole file if every block is among them; announcements may be lost |
| Completeness.PassMarked | src/blockclient.cpp:54-120 | a pass without such a goodbye loses no block that is held, and gains the block that arrives |
| Completeness.ArrivedMarked | src/blockclient.cpp:54-120 | in every run whatever arrived about a file, from any server, is held until a goodbye about that file names this client |
| Completeness.DeliveredSuffices | src/syncstatus.cpp:14-26 | in every run a living client that each block of a file has reached at least once has no missing block and the whole file |
| Completeness.Survives | src/blocksocket.cpp:159-184 | paths that fit a packet, readable goodbyes and ignored datagrams never stop the client |
| Completeness.ServerIsRun | src/blockserver.cpp:41-70 | in a run of the system each server runs on its own events |
| Completeness.SentSuffices | src/blockserver.cpp:41-70 | if the block loop of a server was harmless with at most three requests and idle passes, its queue is empty and all it sent has arrived at least once, then the client has the whole file |
| Installation.MoveDisk | src/syncstatus.cpp:38-61 | a move changes the disk exactly if it brings a goodbye for a complete transfer with a path that was not installed, and then installs that |
| Installation.ReplacedExactly | src/syncstatus.cpp:38-52 | an installed file changes exactly by a goodbye for another complete transfer with the same path and other content |
| Installation.GoodbyeInstalls | src/blockclient.cpp:98-120 | a goodbye for a complete transfer of a served file puts that file under the announced path |
| Installation.PassPath | src/blockclient.cpp:71-76 | the path of a transfer changes with an announcement of its file and with nothing else |
| Installation.PathIsLatest | src/blockclient.cpp:71-76 | in every run the path is the one announced last, and nothing is installed before a goodbye |
| Installation.StepGoodbye | src/blockclient.cpp:98-120 | for a complete transfer: the client goes on if the list can be read, drops the entry if it is named, and replies once for every time |
| Installation.DeliveredIsInstalled | src/blockclient.cpp:71-120 | when every block and a path have arrived, the first goodbye puts the served file on the disk under the path announced last, with those replies |
| Completeness.StrayHeaderStops | src/blocksocket.cpp:174-182 | a header of zeros stops a client, so that a file announced afterwards is not known |
| Assembly.LargeNotAssembled | src/blockserver.cpp:58 | for every size over 4 GiB a file that its packets do not make |
| Assembly.AssembledExact | src/blockserver.cpp:51-64 | the packets of every file of a size make that file if and only if the size is at most 4 GiB |
| Transfer.HelloRegisters | src/blockclient.cpp:33-34 | the client's first message makes its host known to any server |
| Transfer.AcknowledgementStopsServer | src/blockserver.cpp:135-141 | the client's goodbye (src/blockclient.cpp:110) has no host metadata, so any server that handles it throws |

## Left out

- Md5.MD5.Update: requires buffered bytes plus length below 2^32, because beyond it the source reads outside its input; `Md5.GuardStopsExactly` shows the bound is exact.
- Md5.MD5.Finalize: clears one byte of the buffer, as `sizeof(*buffer)` does; that nothing sensitive remains is not claimed.
- Md5Rounds.Rounds: FF, GG, HH and II return the new register instead of assigning to a reference parameter; the caller assigns it to the same variable.
- BlockServers.BlockServer.Start: runs for a finite list of `select` outcomes, because the loops of the source need not end; the list is arbitrary, so every prefix of every run is covered.
- BlockServers.BlockServer.constructor: paths are shorter than 2^32 - 56 bytes, so that their length fits the header.
- BlockServers.SelectHosts: hosts are the four bytes of their number; that `std::set` orders them by that number is not modelled, as nothing depends on it.
- BlockClients.BlockClient.Start: a finite list of `select` outcomes, likewise, as the loop of the source never ends.
- BlockClients.BlockClient.ProcessMessage: says nothing for datagrams on which the source has undefined behaviour (`BlockClients.Proper`).
- Transfer.EndToEnd: files of at most 4 GiB, because larger ones are not put together correctly (`Assembly.AssembledExact`).
- Completeness.DeliveredSuffices: no goodbye about that file that names this client, because one drops a complete transfer (`BlockClients.StepWaiting`, `Installation.GoodbyeInstalls`).
- Completeness.SentSuffices: the same, and paths of at most 4056 bytes, because a longer announcement does not fit the receive buffer and ends the client; that the queue is drained and the packets arrive is assumed, as the network promises neither.
- Messages.ReceiveExact: addresses and the errors of `recvfrom` and `sendto` are not part of this model.
- SyncStatuses.SyncStatus.TransferComplete: the temporary file's name, closing errors and a `rename` that fails are not part of this model.
- Termination of transfers and retransmission: the client has only a TODO at src/blockclient.cpp:114, and no run is claimed to complete.
- `BlockInfo::operator==`: never used. The part of `handle_getblock` behind its throw: never reached (`BlockServers.OneMetadataType`).
- The other stream and `FILE*` forms of `MD5::update` and its constructors: same loop on another interface.
- `MD5::operator<<`, the getters of `SyncStatus`, `HostInfo` ordering: one-line accessors.
- Sockets, multicast groups, time-outs, logging, `main`, clocks, `rand`, `getpid` and `tmpnam`: operating system.
- The origin of MD5's sine table and collision resistance.
