# zkPoD-node: a model of the node's protocols and what they guarantee

zkPoD-node sells data over a peer-to-peer connection. Seller and buyer agree on a session, perhaps run an
oblivious-transfer (OT) negotiation, and exchange a request, a response and a receipt; the seller then
submits a secret to a contract and is paid from the buyer's deposit. The connection is the devp2p stack:
the RLPx handshake and frames, two Kademlia discovery protocols, a dial scheduler and a multiplexer of
message codes. These Dafny files model that stack from bytes up to sessions and prove what it promises.

Each file is one module.

| file | what it models |
|---|---|
| `Wrappers.dfy` | a value that may be missing |
| `Words.dfy` | the limits of machine words, arithmetic that wraps at 64 bits |
| `Bits.dfy` | bytes, powers of two, exclusive or, bit length |
| `Codec.dfy` | little-endian integers |
| `Distance.dfy` | the distance functions on 256-bit hashes, byte by byte |
| `Frames.dfy` | RLPx frames: running key streams, running MACs, message codes |
| `FrameIntegrity.dfy` | what the reader of frames refuses |
| `Transport.dfy` | the PoD transport: size frame, data chunks, message header |
| `StreamIntegrity.dfy` | what the transport and the message header accept from any stream |
| `PodNode.dfy` | one PoD node: session, negotiation and transaction operations, against any peer |
| `PodAcceptance.dfy` | what a node accepts and sends, and what it refuses |
| `Joint.dfy` | seller and buyer together, over the bytes in flight |
| `Handshake.dfy` | the RLPx encryption handshake |
| `QueryEngine.dfy` | the discovery v5 event loop: node states, findnode queries, timers, lookups |
| `QueryProgress.dfy` | how queries and node states move on in that loop |
| `NodeTable.dfy` | the discovery v4 table: buckets, replacements, subnet counters |
| `TableEffects.dfy` | what each operation of the table brings about |
| `Lookup.dfy` | the closest nodes of the table, and the iterative lookup |
| `Dial.dfy` | the dial scheduler |
| `PeerSet.dfy` | the server loop: peers, dial tasks, admission |
| `DialProgress.dfy` | whom a round of scheduling must dial |
| `Protocols.dfy` | sharing out message codes among subprotocols |
| `Deposit.dfy` | the seller's ten transaction flows and the deposit lock they share |
| `DepositProgress.dfy` | when a sale must be granted the lock, and reach the contract |
| `SessionId.dfy` | the session number and mode on their way between the two programs |

How things are modelled:

- Cryptographic primitives are function values that a lemma ranges over. A hash state is the sequence of
  bytes absorbed, a key stream a function of position. Where a law is needed (Diffie-Hellman commutes,
  decryption undoes encryption, a signature yields its signer's key) it is a hypothesis, and
  `Handshake.LawsConsistent` exhibits primitives that satisfy all of them at once.
- Code that works in place is a class whose methods are proved equal to a specification function of the
  state before, or to satisfy a relation where the code leaves a choice (map order, random picks). The
  lemmas about runs are about those functions and relations.
- Randomness, clocks, the network, the contract and the proof library are inputs of each step, with no
  assumption on what they answer unless a row says so.
- Fixed-width arithmetic is written out where it can wrap: the 32-bit frame size, the 64-bit lengths of
  the transport, of the negotiation message and of message codes, and the int64 prices and locks.

What the code does differently from its own documentation or from what one might expect:

- Between honest parties up to two messages can be in flight at once, not one, because the buyer may send
  its session ack and its next message back to back. `Joint.JointSafety` says exactly when, and
  `Joint.TwoInFlight` that it happens.
- A receipt, and an ack+request, are judged only after the state has advanced
  (`PodNode.FailureKeepsStateIff`, `PodNode.ShortReceiptJudgedLate`).
- A length within 8 of 2^64 in an ack+request makes the receiving program slice out of range
  (`PodNode.SplitNegoPanicsIff`).
- A data frame longer than what remains makes the transport read on for another 2^64 bytes; a read that
  succeeds all the same has written more to the buffer than the announced number it reports
  (`Transport.ReadDataExactIff`, `Transport.OverlongFrameReadsOn`).
- An RLPx message is accepted for writing, and not read back, when its 32-bit size addition wraps
  (`Frames.FrameRoundTripIff`, `Frames.WrappedFrameIsLost`).
- A neighbours timeout does not start the next deferred query (`QueryEngine.PendingHasDeadline`), so
  that two lookups asking one node can leave a query waiting for nothing (`QueryEngine.DeferredLeftBehind`).
- The initial nodes of a lookup are not marked as seen, so one that an answer names again is in the result
  twice whenever both copies are among the 16 nearest (`Lookup.LookupDuplicates`, `Lookup.NamesItself`).
- The subnet limits of the table do not survive the release of an address the counters cannot spare
  (`NodeTable.CoveredIff`, `NodeTable.AbsentDeletionBreaksLimit`).
- The lock of a pair is the sum of the held prices as int64 (`Deposit.LockIsHeldSum`), and a price is the
  product of count and unit price as int64 (`Deposit.PriceIsProduct`). A grant bounds the true sum exactly
  while that stays below 2^63 (`Deposit.GrantWithinDeposit`); `Deposit.FourForNothing` and
  `Deposit.TwoBeyondTheDeposit` are runs where a product and a sum wrap. The boolean that the second look at
  the deposit returns is ignored: a secret is submitted although it was false (`Deposit.SubmittedUncovered`).
- Message codes wrap at 64 bits: messages are lost exactly when the codes of what both ends share do not fit
  (`Protocols.CodesReachIff`, `Protocols.HugeDoesNotFit`).
- A session numbered 0 can be drawn and is refused by the buyer's node (`SessionId.ZeroRefused`).

## Model

| member | source | states |
|---|---|---|
| Codec.DecodeEncode | net/utils/utils.go:27-75 | decoding gives back every value that fits the width |
| Codec.EncodeDecode | net/utils/utils.go:38-75 | encoding gives back every byte string, so the codec is a bijection on each width |
| Codec.Encode | net/utils/utils.go:27-61 | the encoding loop fills the buffer with the little-endian digits |
| Codec.Decode | net/utils/utils.go:38-75 | the decoding loop returns the number, and fails exactly on a wrong length |
| Distance.XorValue | net/rlpx/p2p/discv5/node.go:356-367 | the byte-wise exclusive or of two hashes is the exclusive or of the numbers they stand for |
| Distance.DistCmp | net/rlpx/p2p/discv5/node.go:356-369 | the comparison loop returns the sign of the difference of the two numeric XOR distances |
| Distance.LzCountIsBitLen | net/rlpx/p2p/discv5/node.go:371-404 | every entry of the leading-zeros table is right |
| Distance.LogDist | net/rlpx/p2p/discv5/node.go:406-418 | the loop returns the bit length of the XOR distance |
| Distance.LogDistRefinesOrder | net/rlpx/p2p/discv5/node.go:356-418 | a smaller logarithmic distance implies a smaller distance |
| Distance.DistInjective | net/rlpx/p2p/discv5/node.go:356-369 | equal distances to one target mean equal hashes |
| Distance.HashAtDistance | net/rlpx/p2p/discv5/node.go:421-438 | the result is at exactly the distance asked for, whatever the random tail |
| Frames.CodeRoundTrip | net/rlpx/p2p/rlpx.go:592-606 | a message code survives its RLP encoding, whatever follows it, and decoding consumes exactly its bytes |
| Frames.FrameRoundTripIff | net/rlpx/p2p/rlpx.go:592-642 | a message that the writer accepts is read back exactly when the 32-bit addition of its size did not wrap |
| Frames.WrappedFrameIsLost | net/rlpx/p2p/rlpx.go:606-612 | a payload of 2^32 - 1 bytes is accepted, announced as an empty frame, and not read back |
| Frames.FrameRoundTrip | net/rlpx/p2p/rlpx.go:592-712 | one frame: all MACs match, the same code and payload come out, the rest of the stream is untouched, and the reader's cursor equals the writer's |
| Frames.Lockstep | net/rlpx/p2p/rlpx.go:592-724 | after any number of writes and as many reads, key-stream position and MAC state agree, no check has failed and the same messages came out in order |
| FrameIntegrity.ReadIff | net/rlpx/p2p/rlpx.go:645-712 | from any stream, a message is returned exactly when the stream begins with a header and a body under the two tags that the reader's own MAC state gives to these very bytes |
| FrameIntegrity.TagsChecked | net/rlpx/p2p/rlpx.go:645-679 | a wrong header tag is reported as such whatever follows, and a wrong frame tag whatever the body says |
| FrameIntegrity.TamperedIsRefused | net/rlpx/p2p/rlpx.go:645-724 | bytes that differ from a sealed frame in its tags alone are never read; bytes that differ and carry its tags only if the hash input of one of those tags and the writer's collide |
| FrameIntegrity.OutOfPlaceIsRefused | net/rlpx/p2p/rlpx.go:645-724 | a frame read with another MAC state or MAC key fails its header check, unless the reader's hash input and the writer's collide |
| Frames.FrameRW.UpdateMac | net/rlpx/p2p/rlpx.go:716-724 | the running hash absorbs the cipher block mixed with the seed, and the tag is its digest |
| Frames.FrameRW.WriteMsg | net/rlpx/p2p/rlpx.go:592-642 | writes exactly the frame the specification gives, or nothing when the size check refuses |
| Frames.FrameRW.WriteBody | net/rlpx/p2p/rlpx.go:616-642 | the padded, encrypted content and its MAC |
| Frames.FrameRW.ReadMsg | net/rlpx/p2p/rlpx.go:645-712 | reads exactly what the specification of opening a frame gives, errors and consumed bytes included |
| Frames.FrameRW.ReadBody | net/rlpx/p2p/rlpx.go:666-712 | the content, its MAC check and the code in front; that the check is there is `FrameIntegrity.TagsChecked` |
| Transport.ChunksFit | net/rlpx/transport.go:465-500 | every data frame the transport writes passes the frame layer's 24-bit size check |
| Transport.PacketsFit | net/rlpx/transport.go:437-500 | so does every frame of a packet, the size frame included |
| Transport.ReadDataRoundTrip | net/rlpx/transport.go:550-583 | reassembling the chunks of some data gives the data, and consumes exactly their frames |
| Transport.ReadDataExactIff | net/rlpx/transport.go:550-583 | from any stream, a read that succeeds returns at least the announced number of bytes, and exactly that if and only if no frame was longer than what remained |
| Transport.OverlongFrameReadsOn | net/rlpx/transport.go:550-583 | a stream that announces one byte: after a frame of two, 2^64 - 1 more bytes are read, and one is reported |
| Transport.PacketRoundTrip | net/rlpx/transport.go:437-583 | Read returns what Write was given, and reports its size, whatever bytes follow, for data of any size |
| Transport.Connection.WriteSize | net/rlpx/transport.go:449-463 | sends the size as one frame |
| Transport.Connection.WriteData | net/rlpx/transport.go:465-500 | the chunk loop sends the chunks of the specification, and fails exactly when the reader runs short |
| Transport.Connection.Write | net/rlpx/transport.go:437-447 | size frame, then data frames |
| Transport.Connection.ReadSizeFrame | net/rlpx/transport.go:525-548 | reads one size frame, refusing a wrong code or length |
| Transport.Connection.ReadDataFrames | net/rlpx/transport.go:550-583 | the reassembly loop, with the unchecked 64-bit subtraction of an over-long frame |
| Transport.Connection.Read | net/rlpx/transport.go:512-523 | reads a size and then data, and reports the size announced |
| Transport.HeaderRoundTrip | net/node.go:204-273 | the 12-byte header gives back type and length |
| Transport.PodDelivery | net/node.go:204-312 | a receiver that expects a message's type gets exactly its payload |
| Transport.EndToEnd | net/node.go:204-312 | every list of messages, with payloads of any size, is received as that list, through header, chunks, frames and MACs |
| StreamIntegrity.PacketOnlyFromFrames | net/rlpx/transport.go:512-583 | from any stream, a packet that is read was a size frame and then data frames only, each of them read in its place, and its bytes are theirs |
| StreamIntegrity.HeaderIff | net/node.go:227-273 | a header is accepted exactly when twelve bytes are announced and they are those of a known type and some length |
| StreamIntegrity.TypedOnlyFrom | net/node.go:227-312 | from any stream, a typed receive succeeds exactly when a header of that type, with a length not below the least, is followed by a packet announced with that length |
| PodNode.SessionRoundTrip | net/session.go:49-87 | a session request survives encoding exactly when its Merkle root has 32 bytes |
| PodNode.SplitNegoRoundTrip | net/tx.go:431-520 | an ack+request is split where it was joined |
| PodNode.SplitNegoPanicsIff | net/tx.go:497-520 | splitting slices out of range exactly when the announced length is within 8 of 2^64 |
| PodNode.StepProgress | net/tx.go:61-109 | whatever the peer sends, an operation keeps the state or raises its rank; an established session keeps id and mode; the transaction phase is entered from Negotiated in OT modes and from SessionEstablished in the others |
| PodNode.FailureKeepsStateIff | net/tx.go:297-334 | a failed operation leaves state and session alone, except exactly when an intact receipt or ack+request is judged too late |
| PodNode.ShortReceiptJudgedLate | net/tx.go:297-334 | a receipt of at most 65 bytes that arrives intact is refused with the state already at TxReceiptRecvd |
| PodNode.BoundedRun | net/tx.go:357-600 | a node changes state at most eleven times in any run, and the rank never falls |
| PodNode.SessionFrozen | net/session.go:210-298 | once established, a session keeps its id and mode for the rest of every run |
| PodNode.NegoOnlyInOtMode | net/tx.go:357-600 | no negotiation state is reached in a mode without OT |
| PodNode.TxThroughNegotiated | net/tx.go:133-182 | in an OT mode every run that reaches the transaction phase has been in Negotiated |
| PodAcceptance.AcceptedIff | net/session.go:156-298 | every receiving operation accepts an intact message if and only if state, mode, type, length and payload are as they must be (a receipt: more than 65 bytes and signed by the buyer; an ack: a session other than 0; a request: a valid mode unless it names a session; an ack+request: a length that is not 0 and fits); the parts handed over make up the payload |
| PodAcceptance.ReceiptIsSigned | net/tx.go:297-334 | whatever the stream and the operation, a receipt that is handed over carries the buyer's signature of just that receipt |
| PodAcceptance.RefusedAs | net/node.go:295-312 | an intact message of another type is refused as that, a short one as too short, and the state stays |
| PodAcceptance.SentIff | net/session.go:107-154 | a message goes out exactly when state and mode allow it, and for a new session the mode is below 10 and the root has 32 bytes; a refusal changes nothing |
| PodNode.Node.SendMsg | net/node.go:204-225 | header packet, then payload packet |
| PodNode.Node.RecvMsgHeader | net/node.go:227-273 | reads and checks a header |
| PodNode.Node.RecvMsgPayload | net/node.go:275-293 | reads a payload and checks its length |
| PodNode.Node.RecvMsgWithCheck | net/node.go:295-312 | refuses another type or a length below the least |
| PodNode.Node.SendTxMsg | net/tx.go:61-78 | state check, message, new state |
| PodNode.Node.RecvTxMsg | net/tx.go:80-109 | state check, message, new state, before the payload is looked at |
| PodNode.Node.DoSendNewSessionRequest | net/session.go:107-154 | the buyer's first message, with its checks of mode and root |
| PodNode.Node.DoRecvSessionRequest | net/session.go:156-208 | the seller's first reception |
| PodNode.Node.DoSendSessionAck | net/session.go:210-266 | either ack; the second one establishes the session |
| PodNode.Node.DoRecvSessionAck | net/session.go:268-298 | either ack; refuses session 0 |
| PodNode.Node.DoTx | net/tx.go:133-600 | every negotiation and transaction operation; what they accept is pinned by `PodAcceptance.AcceptedIff` |
| PodNode.Node.Perform | net/tx.go:61-182 | every operation takes the node from its state to the state, output and result of the specification |
| Joint.ActKeepsInv | net/session.go:10-24 | every step of either honest party succeeds and keeps the product machine's invariant |
| Joint.NoDeadlock | net/tx.go:14-55 | until both are done one of them can move |
| Joint.JointSafety | net/tx.go:14-109 | over every interleaving: no operation fails, both sides hold the same session id and mode once established, at most two messages are in flight, and two exactly while the buyer is two operations ahead at the end of a phase, and the only end is TxReceiptRecvd with TxSecretWait |
| Joint.TwoInFlight | net/session.go:10-24 | the bound of two is reached in every exchange |
| Handshake.LawsConsistent | net/rlpx/p2p/rlpx.go:240-269 | the laws assumed of the primitives, and the hypotheses of the mirror property for all keys and randomness, hold together for some primitives |
| Handshake.PacketRoundTrip | net/rlpx/p2p/rlpx.go:459-508 | a sealed packet is opened whole: exactly its bytes are consumed and returned |
| Handshake.ReceiverAccepts | net/rlpx/p2p/rlpx.go:349-408 | the receiver accepts the initiator's packet and learns its identity and ephemeral key |
| Handshake.InitiatorCompletes | net/rlpx/p2p/rlpx.go:281-347 | the initiator accepts the response and learns the ephemeral key in it |
| Handshake.Mirror | net/rlpx/p2p/rlpx.go:240-377 | both sides finish with equal AES and MAC secrets and with egress and ingress hashes swapped |
| Handshake.Agreement | net/rlpx/p2p/rlpx.go:240-269 | sides with one MAC secret share the ephemeral secret, both nonces and the AES secret, and swapped hash states mean that both saw the same two packets; otherwise two hash inputs of this derivation collide |
| Handshake.FramesAfterHandshake | net/rlpx/p2p/rlpx.go:178-712 | once both sides have finished the handshake, whatever either writes the other reads, in order |
| Handshake.EncHandshake.MakeAuthMsg | net/rlpx/p2p/rlpx.go:307-337 | the initiator's nonce, ephemeral key and signed message |
| Handshake.EncHandshake.HandleAuthResp | net/rlpx/p2p/rlpx.go:339-347 | the responder's nonce and key |
| Handshake.EncHandshake.HandleAuthMsg | net/rlpx/p2p/rlpx.go:379-408 | who calls, and the ephemeral key recovered from the signature |
| Handshake.EncHandshake.MakeSecrets | net/rlpx/p2p/rlpx.go:240-269 | the derived secrets and both initial hash states |
| Handshake.EncHandshake.ReceiverHandshake | net/rlpx/p2p/rlpx.go:349-377 | the receiver's run over a byte stream |
| Handshake.EncHandshake.InitiatorHandshake | net/rlpx/p2p/rlpx.go:281-304 | the initiator's run over a byte stream |
| QueryEngine.ReplyKeeps | net/rlpx/p2p/discv5/net.go:800-806 | answering the query in hand never blocks and leaves it answered once |
| QueryEngine.StartKeeps | net/rlpx/p2p/discv5/net.go:800-820 | starting a query either places it once or leaves it in hand |
| QueryEngine.StartThenDrop | net/rlpx/p2p/discv5/net.go:790-798 | dropping a deferred query after it was started is the same as taking it off first |
| QueryEngine.TransitionKeeps | net/rlpx/p2p/discv5/net.go:1076-1085 | entering any state, and what it aborts or starts, keeps every query in exactly one place |
| QueryEngine.StepKeeps | net/rlpx/p2p/discv5/net.go:415-459 | so does every event: packets, timers, seeds, pings, and lookups that begin, ask, read, give up and end |
| QueryEngine.QueryConservation | net/rlpx/p2p/discv5/net.go:786-820 | at every point of every run each query taken is in exactly one of its remote's deferred list, its remote's pending slot and the answers, and is answered at most once |
| QueryEngine.NeverBlocks | net/rlpx/p2p/discv5/net.go:238-282 | at every point of every run, on every reply channel, owed plus buffered answers fit the capacity, so the loop never blocks on a reply, also after lookups change channels |
| QueryEngine.PendingHasDeadline | net/rlpx/p2p/discv5/net.go:1148-1167 | a node has a pending query exactly while its neighbours timer runs, and then only in a queryable state; when the timer fires that query is answered, and no deferred query is started |
| QueryEngine.DeferredLeftBehind | net/rlpx/p2p/discv5/net.go:1158-1167 | a run of two lookups that ask one node each, after which the second query is deferred at a known node with nothing pending there and no timer running |
| QueryProgress.AnswerStartsNext | net/rlpx/p2p/discv5/net.go:1243-1271 | in every run, when neighbours arrive for a pending query, the query deferred longest becomes the pending one, leaves the list, and its timer runs |
| QueryProgress.KnownStartsNext | net/rlpx/p2p/discv5/net.go:958-984 | in every run, whatever makes a node known also starts its oldest deferred query |
| QueryProgress.QueryTaken | net/rlpx/p2p/discv5/net.go:786-820 | in every run, a query taken is answered at once by the local node, pending with a timer at an idle queryable node, and otherwise last in the list of its node, which is pinged if it was not heard of |
| QueryProgress.SilenceAnswersAll | net/rlpx/p2p/discv5/net.go:872-938 | in every run, a node that does not answer the verifying ping is unknown again, with every query that was ever taken for it answered |
| QueryProgress.TimeoutsCount | net/rlpx/p2p/discv5/net.go:1148-1167 | in every run, a neighbours timeout adds one, and a known node is contested from the sixth in a row |
| QueryProgress.VerifiedByPong | net/rlpx/p2p/discv5/net.go:901-957 | our ping answered first: known after the wait for the other's ping, with the count at 0 and the oldest query started |
| QueryProgress.VerifiedByPing | net/rlpx/p2p/discv5/net.go:922-938 | the other's ping first: known when it answers ours, the same |
| QueryProgress.ContestedSettles | net/rlpx/p2p/discv5/net.go:986-1026 | a contested node is known again when it answers and unresponsive when not; an unresponsive one is known again on any ping or pong |
| QueryProgress.BondedByPong | net/rlpx/p2p/discv5/net.go:872-1074 | endpoint proof: in every run only nodes that answered a ping of ours with the right token can be queried or be about to, and what can be queried stays so |
| QueryEngine.Network.Answer | net/rlpx/p2p/discv5/net.go:800-806 | a send to a channel of capacity 3 |
| QueryEngine.Network.SendPing | net/rlpx/p2p/discv5/net.go:1105-1115 | no second ping while one is out, none to ourselves |
| QueryEngine.Network.StartQuery | net/rlpx/p2p/discv5/net.go:800-820 | answered, sent, or neither, with the transition of an unknown node |
| QueryEngine.Network.Defer | net/rlpx/p2p/discv5/net.go:786-788 | appends to the deferred list |
| QueryEngine.Network.StartNext | net/rlpx/p2p/discv5/net.go:790-798 | starts the oldest deferred query and drops it if that worked |
| QueryEngine.Network.Forget | net/rlpx/p2p/discv5/net.go:873-888 | entering unknown answers all queries of the node |
| QueryEngine.Network.FinishPending | net/rlpx/p2p/discv5/net.go:1158-1162 | answers the pending query and clears the slot |
| QueryEngine.Network.MoveTo | net/rlpx/p2p/discv5/net.go:1076-1085 | the transition and the enter action of each of the seven states |
| QueryEngine.Network.NeighboursArrive | net/rlpx/p2p/discv5/net.go:1243-1271 | verifies the nodes found, answers the query, starts the next; that it starts is `QueryProgress.AnswerStartsNext` |
| QueryEngine.Network.QueryEvent | net/rlpx/p2p/discv5/net.go:1148-1212 | what a queryable node does with packets and timeouts |
| QueryEngine.Network.KnownPongArrives | net/rlpx/p2p/discv5/net.go:1132-1146 | the pong timer and the outstanding ping go |
| QueryEngine.Network.Process | net/rlpx/p2p/discv5/net.go:1029-1074 | a pong with the wrong token is dropped, anything else goes through the state machine |
| QueryEngine.Network.React | net/rlpx/p2p/discv5/net.go:873-1026 | the handle action of each of the seven states |
| QueryEngine.Network.Query | net/rlpx/p2p/discv5/net.go:455-459 | a query is started or deferred |
| NodeTable.BucketOf | net/rlpx/p2p/discover/table.go:546-552 | every identifier has one of the 17 buckets |
| NodeTable.FailedBump | net/rlpx/p2p/discover/table.go:701-718 | a bump refused for its new address leaves the lists alone, and the address is refused again afterwards, so the node is not added twice |
| NodeTable.ApplyShape | net/rlpx/p2p/discover/table.go:559-745 | every operation, with any arguments, keeps sizes, uniqueness, placement and the counters' limits |
| NodeTable.UniqueAndPlaced | net/rlpx/p2p/discover/table.go:546-745 | after every run: at most 16 entries and 10 replacements a bucket, no identifier in two slots of the whole table, ourselves in none, each node in the bucket of its log distance |
| NodeTable.DeleteCoveredIff | net/rlpx/p2p/discover/table.go:722-725 | a deletion keeps the counters covering what is held exactly when the address it releases can be spared |
| NodeTable.ReplaceCoveredIff | net/rlpx/p2p/discover/table.go:682-699 | the same for replacing the last entry, in both its branches |
| NodeTable.CoveredIff | net/rlpx/p2p/discover/table.go:559-725 | every operation keeps table counter = sum of bucket counters and counters >= holdings if and only if it is proper, a condition on the counters before the call |
| NodeTable.StoredIsProper | net/rlpx/p2p/discover/table.go:682-725 | an operation that is given the address stored for its node is proper |
| NodeTable.SubnetLimits | net/rlpx/p2p/discover/table.go:598-725 | after every proper run: at most 2 non-LAN nodes of a /24 in a bucket and 10 in the table, entries and replacements together, and exact sums |
| NodeTable.AbsentDeletionBreaksLimit | net/rlpx/p2p/discover/table.go:722-725 | deleting a node that was never stored lets a third address of its subnet into a bucket |
| TableEffects.AddIPIff | net/rlpx/p2p/discover/table.go:639-653 | an address is counted exactly when it is local or both counters have room, and then once in each |
| TableEffects.VerifiedEnters | net/rlpx/p2p/discover/table.go:598-629 | a verified node that is new, with room for it, is put in front of its bucket and is no replacement any more; nothing else changes |
| TableEffects.SeenEnters | net/rlpx/p2p/discover/table.go:559-587 | a node seen goes to the end, the rest likewise |
| TableEffects.FullKeepsReplacement | net/rlpx/p2p/discover/table.go:663-677 | in a full bucket it becomes the first replacement, and the last of ten goes |
| TableEffects.BumpMoves | net/rlpx/p2p/discover/table.go:701-720 | an entry that answers is moved to the front exactly when its address fits, and the others keep their order |
| TableEffects.DeadIsReplaced | net/rlpx/p2p/discover/table.go:682-699 | a dead last entry is replaced by the replacement picked, or just goes |
| TableEffects.DroppedLeaves | net/rlpx/p2p/discover/table.go:722-725 | a dropped node leaves the entries, which keep their order |
| TableEffects.NothingHappens | net/rlpx/p2p/discover/table.go:559-629 | the cases in which adding changes nothing at all |
| NodeTable.Inc | net/rlpx/p2p/netutil/net.go:230-238 | adding raises one subnet's counter by one and no other |
| NodeTable.Dec | net/rlpx/p2p/netutil/net.go:241-250 | removing lowers it by one, not below zero, and no other |
| NodeTable.Table.CountAddress | net/rlpx/p2p/discover/table.go:639-653 | both counters or neither |
| NodeTable.Table.ReleaseAddress | net/rlpx/p2p/discover/table.go:655-661 | both counters |
| NodeTable.Table.Find | net/rlpx/p2p/discover/table.go:727-734 | the search loop finds the first entry of an identifier |
| NodeTable.Table.Remove | net/rlpx/p2p/discover/table.go:748-755 | removes that entry and keeps the order of the rest |
| NodeTable.Table.KeepAsReplacement | net/rlpx/p2p/discover/table.go:663-677 | a new replacement in front, the last of a full list out and its address released |
| NodeTable.Table.Bump | net/rlpx/p2p/discover/table.go:701-720 | to the front with the new record, or the old address put back |
| NodeTable.Table.AddSeen | net/rlpx/p2p/discover/table.go:559-587 | to the end of its bucket, to the replacements, or nowhere |
| NodeTable.Table.AddVerified | net/rlpx/p2p/discover/table.go:598-629 | to the front of its bucket, to the replacements, or nowhere; which of them is `TableEffects.VerifiedEnters` and its siblings |
| NodeTable.Table.DeleteFrom | net/rlpx/p2p/discover/table.go:722-725 | the entry goes, the given address is released |
| NodeTable.Table.ReplaceLast | net/rlpx/p2p/discover/table.go:682-699 | a random replacement for a dead last entry |
| Lookup.NodesByDistance.PushNode | net/rlpx/p2p/discover/table.go:765-781 | binary search and shift put the node behind everything at most as far and keep the list sorted and bounded |
| Lookup.PushNearest | net/rlpx/p2p/discover/table.go:765-781 | pushing on the k nearest of some nodes gives the k nearest of those nodes and the new one |
| Lookup.Closest | net/rlpx/p2p/discover/table.go:523-536 | the result is the k nearest live nodes of the table in order of distance |
| Lookup.NearestUnique | net/rlpx/p2p/discover/table.go:523-536 | there is only one such list when distances tell nodes apart |
| Lookup.ClosestIsDetermined | net/rlpx/p2p/discover/table.go:523-536 | they do in every table built by its operations |
| Lookup.StartingNodes | net/rlpx/p2p/discover/table.go:263-277 | the closest live nodes of the table, after a refresh if there are none |
| Lookup.TakeAnswer | net/rlpx/p2p/discover/table.go:294-300 | every node of an answer is seen, and each identifier not seen before is pushed once |
| Lookup.AskClosest | net/rlpx/p2p/discover/table.go:279-288 | asks unasked entries, nearest first, while fewer than 3 queries are pending |
| Lookup.TimesAmongNearest | net/rlpx/p2p/discover/table.go:765-781 | how often an identifier is among the k nearest: as often as it was pushed, while there is room behind the nodes that are nearer |
| Lookup.LookupNodes | net/rlpx/p2p/discover/table.go:250-307 | the lookup ends under every sequence of answers; no node is asked twice, ourselves never; between 0 and 3 queries are in flight at every moment; unless cut short it returns, with none in flight and all of them asked, the 16 nearest, in order, of the nodes it began with and of one node for each identifier an answer named |
| Lookup.KnownOnce | net/rlpx/p2p/discover/table.go:523-536 | a table built by its operations gives each live node once |
| Lookup.LookupDuplicates | net/rlpx/p2p/discover/table.go:254-300 | from such a table no identifier is in the result more than twice; twice only if the lookup began with it and an answer named it; and the result has no duplicates exactly when no such identifier has both copies among the 16 nearest |
| Lookup.NamesItself | net/rlpx/p2p/discover/table.go:254-300 | one live node that answers with itself is returned twice |
| Lookup.OneLiveTable | net/rlpx/p2p/discover/table.go:559-587 | there is a table with one live node |
| Dial.IssueOne | net/rlpx/p2p/dial.go:168-177 | a dial that passes the checks keeps dials distinct and recorded |
| Dial.PassesIff | net/rlpx/p2p/dial.go:263-278 | the checks pass exactly the nodes that are allowed, not ourselves, not connected, not being dialed and not in the history |
| Dial.DialState.AddStatic | net/rlpx/p2p/dial.go:148-152 | overwrites the node's entry |
| Dial.DialState.RemoveStatic | net/rlpx/p2p/dial.go:154-160 | the entry goes, and one history entry with it |
| Dial.DialState.TaskDone | net/rlpx/p2p/dial.go:280-289 | the dialed node moves from dialing to the history; a lookup's results are buffered |
| Dial.DialState.ExpireHistory | net/rlpx/p2p/dial.go:414-418 | popping minima removes exactly the entries before now |
| Dial.DialState.DialStatics | net/rlpx/p2p/dial.go:194-206 | every static node that is free is dialed, exactly those that can be neither dialed nor waited for are forgotten, nothing else changes |
| Dial.DialState.DialDynamic | net/rlpx/p2p/dial.go:207-237 | no more dynamic dials than wanted; every free candidate (the bootnode whose turn it is, random nodes for half, lookup results in order) is being dialed afterwards and nobody else; no lookup result is left while one is wanted |
| Dial.DialState.NewTasks | net/rlpx/p2p/dial.go:162-252 | all of the above together, with the lookup and the timer it adds |
| PeerSet.ScheduleKeeps | net/rlpx/p2p/server.go:643-651 | a round of scheduling keeps the invariant, and dials nobody that is ourselves, connected, being dialed, not allowed or dialed within 30 seconds |
| PeerSet.NextKeeps | net/rlpx/p2p/server.go:653-755 | so does every other event of the loop keep the invariant |
| PeerSet.DialAccounting | net/rlpx/p2p/server.go:604-756 | over every interleaving: dynamic dials and the peers they made, each node once, stay within the limit; the inbound counter is right; at most 16 tasks run; unfinished dial tasks are exactly one for each node being dialed; the history has one entry a node and none being dialed |
| PeerSet.DialsAreFree | net/rlpx/p2p/dial.go:263-278 | in every run no dial goes to ourselves, a connected node, a node being dialed or a node whose last dial ended within 30 seconds |
| DialProgress.StaticDialedIff | net/rlpx/p2p/dial.go:162-206 | in every run, a round dials a static node if and only if fewer than 16 tasks are unfinished and the node is allowed, not ourselves, not connected, not being dialed, and its last dial, if any, ended more than 30 seconds ago |
| DialProgress.CandidatesDialed | net/rlpx/p2p/dial.go:207-237 | in every run, a round with room dials every candidate that may be dialed, no other node dynamically, and uses up the lookup results while dials are wanted |
| PeerSet.AdmittedIff | net/rlpx/p2p/server.go:720-819 | in every run, a connection becomes a peer if and only if it is useful, new, not ourselves, and trusted, static or within both limits; nothing else changes |
| PeerSet.AdmissionLimits | net/rlpx/p2p/server.go:782-819 | dial and inbound limits add up to the peer limit; an ordinary peer is admitted only within it, an untrusted inbound one only within its share; never ourselves, never twice |
| PeerSet.Server.Start | net/rlpx/p2p/server.go:633-642 | tasks start in order until 16 run |
| PeerSet.Server.ScheduleTasks | net/rlpx/p2p/server.go:643-651 | the queue first, then new tasks if there is room |
| PeerSet.Server.DelTask | net/rlpx/p2p/server.go:624-631 | one such dial task goes, the others keep their order |
| PeerSet.Server.TaskIsDone | net/rlpx/p2p/server.go:700-707 | the dialer hears of it and it leaves the running tasks |
| PeerSet.Server.AddPeer | net/rlpx/p2p/server.go:720-747 | a peer that passes the checks is entered and counted |
| PeerSet.Server.DropPeer | net/rlpx/p2p/server.go:748-755 | a peer leaves and is uncounted |
| PeerSet.Server.RemoveStatic | net/rlpx/p2p/server.go:667-675 | as the dialer does it |
| PeerSet.Server.SetTrust | net/rlpx/p2p/server.go:676-696 | the trusted flag of a connected peer |
| Protocols.AssignAgain | net/rlpx/p2p/peer.go:333-342 | reverting an older version and assigning the newer keeps the chain of codes, wrapped or not, because the name is the last one assigned |
| Protocols.NeededIsSum | net/rlpx/p2p/peer.go:324-346 | the lengths handed out add up to what the shared capabilities need, each name once, in its highest version |
| Protocols.MatchedTiles | net/rlpx/p2p/peer.go:324-346 | each name runs in the highest shared version; and every code from 16 to the end belongs to exactly one protocol, no other code to any, with the end 16 plus the chosen lengths, if and only if that is below 2^64 |
| Protocols.MatchedBySharing | net/rlpx/p2p/peer.go:324-346 | the allocation depends only on what is shared, not on the order or repetition of capabilities nor on the rest of either list |
| Protocols.BothEndsAgree | net/rlpx/p2p/peer.go:324-346 | two ends that give shared versions equal lengths come to the same allocation |
| Protocols.CodesReachIff | net/rlpx/p2p/peer.go:376-422 | every message of every running protocol reaches the same protocol at the other end, and no other, with its own code, if and only if the codes of what is shared fit in 64 bits |
| Protocols.HugeDoesNotFit | net/rlpx/p2p/peer.go:376-383 | a protocol of 2^64 - 1 messages is an input where messages are lost |
| Protocols.UnsortedOverlaps | net/rlpx/p2p/peer.go:325-336 | on unsorted capabilities the revert makes ranges overlap |
| Protocols.MatchProtocols | net/rlpx/p2p/peer.go:324-346 | the loops compute that allocation |
| Protocols.GetProto | net/rlpx/p2p/peer.go:376-383 | whatever the order of the map, the one owner of a code is found, and none exactly outside the allocated codes |
| Deposit.SessionStep | seller_tx.go:140-287 | a step of a session keeps what it has established, and changes the lock of its pair by exactly what it holds more or less |
| Deposit.LockIsHeldSum | contract.go:797-813 | over any interleaving of sessions in all ten modes, the lock of a pair is the int64 sum of the prices of the sessions that hold it, and the sum itself exactly when it fits |
| Deposit.ReleasedOnce | seller_tx.go:194-196 | a session is granted the lock at most once and has released it exactly once when its flow returns, whichever way, and never before |
| Deposit.SecretGating | seller_tx.go:234-264 | a secret is submitted only while its session holds the lock, with a verified receipt, at the locked price = the receipt's price = the signed count times unit price, and with at least 600 seconds left |
| Deposit.GrantWithinDeposit | contract.go:797-813 | in any run, a grant finds the deposit not withdrawn and not about to be, and leaves a lock within it; the prices then held are within the deposit just read if and only if the prices held before and the one to come add up to less than 2^63 |
| DepositProgress.GrantedIff | contract.go:797-813 | in any run, a step is granted the lock if and only if its session has come to the lock, the deposit could be read, covers the int64 sum of what is held and asked, is not withdrawn and not due within 600 seconds |
| DepositProgress.SubmittedIff | seller_tx.go:140-287 | in every mode and from every point before the submission, the secret reaches the contract if and only if the deposit covers the price when it is locked, the receipt has the price, 600 seconds are left and every other answer is favourable |
| Deposit.FourForNothing | seller_tx.go:168-178 | a run in which four items at 2^62 are granted at price 0 against no deposit |
| Deposit.TwoBeyondTheDeposit | contract.go:802-811 | a run in which two prices of 2^62 are held against a deposit of 2^63 - 1, with a negative lock |
| Deposit.SubmittedUncovered | seller_tx.go:1642-1660 | a run in which the second look finds the deposit gone and the secret is submitted all the same |
| Deposit.PriceIsProduct | seller_tx.go:177-196 | the price held is count times unit price exactly when the product fits; in a query mode the unit price |
| Deposit.SessionEnds | seller_tx.go:1529-1672 | whatever the answers, a session has returned and holds nothing after one step more than its flow is long |
| Deposit.AliceNode.CalcuDeposit | contract.go:797-813 | the check, and the lock when it passes |
| Deposit.AliceNode.Return | seller_tx.go:194-196 | the deferred release |
| Deposit.AliceNode.LockOrLeave | seller_tx.go:177-192 | the price fixed, then locked or the flow left |
| Deposit.AliceNode.Step | seller_tx.go:140-287 | the next step of a session in any mode |
| Deposit.AliceNode.Accept | connection.go:100-113 | a new session, its count 1 |
| SessionId.ReadPrint | seller_tx.go:44-51 | printing gives a numeral without leading zeros that reads as the number |
| SessionId.PrintRead | connection.go:799-800 | reading such a numeral and printing the number gives the numeral back |
| SessionId.NameSurvives | connection.go:410-446 | printed in decimal, parsed as hexadecimal and printed as hexadecimal, every session number below 10^10 keeps its name, within 64 bits |
| SessionId.TermsRoundTripIff | connection.go:456-546 | terms come back from their mode number exactly when they do not ask for OT in an atomic swap |
| SessionId.ModeRoundTrip | connection.go:500-546 | exactly the ten mode numbers have terms, they come back, and the node's OT test agrees with the terms |
| SessionId.SessionIdentity | connection.go:742-801 | for every number drawn but 0 and whatever the buyer wants, both programs go by the same name and terms, both nodes negotiate exactly when the terms say OT, and the contract number read from the name is the number drawn |
| SessionId.ZeroRefused | net/session.go:268-298 | the buyer's node refuses the ack of a session numbered 0 |

## Left out

- The proof library's wrappers (plain_*.go, table_*.go) and the contract bindings (zkPoDExchange.go): each step asks them and takes any answer.
- HTTP, command line, configuration, logging, SQL and file input and output: straight-line code around the protocols.
- Real ECDSA, ECIES, AES, Keccak: abstract, with the laws named above. Snappy is off, as the PoD transport never enables it.
- Handshake.EncHandshake.ReceiverHandshake: follows EIP-8 packets only; a packet in the plain format of before EIP-8 is recognised and not followed further.
- Handshake.EncHandshake.InitiatorHandshake: the same for the response.
- The pre-authentication exchange of net/rlpx/transport.go:251-386, and write failures, deadlines and timeouts of TCP.
- PodNode.Node.SendMsg: writes do not fail and the payload is given whole; a payload reader shorter than its claimed size is modelled at the transport (`Transport.Connection.WriteData`) only.
- PodNode.Node.SendTxMsg: as SendMsg, so the path where the write fails and the state stays is absent.
- PodNode.Node.DoSendNewSessionRequest: as SendMsg.
- PodNode.Node.DoSendSessionAck: as SendMsg.
- PodNode.Node.DoTx: as SendMsg in its sending operations.
- PodNode.Node.Perform: as SendMsg in its sending operations.
- Joint.JointSafety: the parties are honest and the channels are reliable and in order; what a single node does against any peer is in `PodNode`. The buyer's program is its order of node calls.
- The buyer's error handling around foreign calls (buyer_tx.go).
- Protocols.MatchProtocols: the in-place sort of capabilities is a function on their list.
- Protocols.CodesReachIff: blocking on the message pipes and shutdown are not modelled.
- QueryEngine: the v5 routing table, topics, tickets and radius; what adding to the table returns is an input. Liveness of deferred queries is not claimed, since a timeout leaves them waiting.
- QueryEngine.Network.Answer: a blocked loop is recorded and never reached; the nodes an answer carries are not modelled.
- The discovery packet codecs, node records, node database and NTP.
- NodeTable: an address is its /24 network, the rest of it and whether it is local; liveness counters of stored nodes are those of the record last put there. Random node reading and the refresh loop.
- PeerSet: one connection kind a peer (dynamic, static or inbound) beside the trusted flag; a dialed connection arrives while its dial is in flight, which is how the code runs dials. The spin-down of the server.
- PeerSet.Server.RemoveStatic: the disconnect request to a connected peer is not modelled; the peer leaves by an event of its own.
- Dial: the heap of past dials is a multiset whose minimum is popped; resolving a static node keeps its identifier.
- Deposit: reading the deposit, comparing and locking is one step, since the code has no mutex there; the statuses recorded in the database are not modelled.
- Wall-clock time and data races between goroutines: steps are atomic and clocks are inputs.
