# LocalSend core, modelled and proved

This project models the parts of LocalSend that carry its guarantees, and proves
what they promise for every input, every run and every interleaving:

* **The peer-to-peer transfer session** (`core/src/webrtc/peer.rs`). Sender and
  receiver are two sequential processes that talk over two ordered, lossless
  queues. Each is a reaction to the next received message (`Sender`,
  `Receiver`); the loops of the program (`ProcessInChunks`,
  `ReceiveStringFromChunks`, `VerifyPin`, `HandlePin`, `ReceiveFiles`,
  `SendAllFiles`) are methods proved equal to what these reactions do. Every
  schedule of the two is covered, by showing that turns commute.
* **The signaling server** (`server/src/controller/ws_controller.rs`). Any
  number of connections share the registry and the request counter, each behind
  its own lock. A step is one lock acquisition, one section under a lock, one
  send into a queue, or one outside event; a list of steps is an interleaving.
* **Codecs**: the five-part signed token over a concrete Base64 (sections 3.2,
  3.5 and 5 of RFC 4648), and the cursor-based bridge format over a concrete
  UTF-8 (RFC 3629).
* **The twin nonce caches** of the HTTP server and client, step by step under
  their locks, and the exchanges of many clients and servers.
* Beside these: the dispatch of answers to callbacks, the room key made of an IP
  address, and the slots through which the application answers a session.

What is taken as given: the data channel is ordered and lossless and may be
closed; a signature made with a key verifies with its public half; the JSON
printer and parser of each message type are inverse, an empty text is no
message, "0" is no file header and a printed header has more than one character
(`Protocol.Json.Lawful`, a hypothesis of the theorems about two honest peers
only; the theorems about arbitrary input assume nothing of the parsers). Peer
ids of the server are fresh. Random bytes, the application's answers and the
clock are parameters.

Where behaviour may surprise, the model follows the code:

* An empty PIN is accepted before anyone is told that one is wanted. At the
  sender this does no harm. At the receiver it always makes the session fail:
  the sender is asked for a PIN all the same, and its attempt is taken for the
  verdict on one. If all else is right, the transfer is reached if and only if
  the receiver's PIN is not empty (`EndToEnd.TransferNeedsReceiverPin`).
* The end delimiter is clean only if a file is open, so a transfer of nothing is
  an error at the receiver although the sender takes it for sent
  (`EndToEnd.ReceivedOnlyIfLastFileIsListed`).
* Verification of a token with fewer than five parts panics
  (`Token.AcceptedIff`), and with a clock in the first hour of the epoch the
  wrapping subtraction also accepts times just below 2^64
  (`Token.TimestampRoundTrip`).
* Since the server sends outside its lock, a client's picture of its room can
  be wrong. Once all has been told, it is right about a peer if and only if the
  order of its queue spoils nothing about it (nothing comes after its Left, and
  no greeting after a Join or Update from which it differs), or, if an update of
  a peer still there was broken off by the end of its connection, if and only if
  the queue shows what that update said (`SignalingPicture.PictureIsRightIff`).
  A peer whose Left came before the greeting that lists it is shown for good
  (`SignalingPicture.LeftBeforeGreetingHaunts`), and this does happen
  (`SignalingStale.APictureCanStayWrong`).
* While the rooms are not locked, a group has an empty room if and only if a
  connection was refused that found nobody there and none has been registered
  since (`SignalingSections.EmptyRoomIff`). Relayed offers carry what the peer
  told of itself when it connected, not what it updated since.
* Two nonce exchanges of one pair that cross leave each side with the nonces of
  another exchange (`NonceExchange.CrossedExchangesDisagree`).
* The offer of a session is sent before the callback for its answer is
  registered; an answer that is faster is lost (`Answers.EarlyAnswerIsLost`).

Lemmas carry `{:induction false}` throughout: each induction is written out.

## Reading order

`Prelude`, `Text`, `Base64`, `Token`; `Model`, `Channel`, `Framing`, `Reblock`,
`Protocol`; `TwoTasks`, `Pin`, `Sender`, `Receiver`, `Session`, `SessionFiles`,
`SessionPins`, `SessionTheorem`, `EndToEnd`; `TaskLoops`, `ReceiverSafety`,
`ReceiverAdmission`, `SenderSafety`, `SenderGrants`, `SenderLoop`, `Controllers`; `Signaling`,
`SignalingSteps`, `SignalingLocks`, `SignalingRegistry`, `SignalingPeers`,
`SignalingSections`, `SignalingRelay`, `SignalingView`, `SignalingPicture`,
`SignalingStale`; `Answers`, `IpGroup`;
`Utf8`, `Standards`, `BridgeCodec`, `BridgeLayout`, `BridgeCursor`; `LruCache`, `NonceCaches`,
`NonceExchange`.

## Model

| member | source | states |
|---|---|---|
| SessionTheorem.EveryInterleavingEndsAsExpected | core/src/webrtc/peer.rs:255-604 | Two honest sides with any PINs, tries, guesses, files and choice: in every schedule a state in which neither can move is exactly the computed end (results and everything told to both applications), and that end stays reachable from every state, so they never block each other |
| SessionTheorem.EveryInterleavingTerminates | core/src/webrtc/peer.rs:724-1057 | Every schedule comes to an end, all after the same number of turns, and only then can neither side move |
| EndToEnd.EverySessionEndsInOneOfThreeWays | core/src/webrtc/peer.rs:255-604 | Every maximal run ends with both sides in the transfer holding the same nonce, file list and tokens, or declined, or failed; which one follows from keys, PINs and the user's choice alone; with an empty PIN at the receiver it is always failure |
| EndToEnd.RightKeysAreTrusted | core/src/webrtc/peer.rs:283-321 | A side that expects no key, or the other's own public key, is content with the token of a session, whatever the nonces |
| EndToEnd.HonestTransferDelivers | core/src/webrtc/peer.rs:537-595 | One or more selected and listed files, cut into any pieces, in every schedule: the receiver opens exactly these in this order, each delivers its bytes in blocks of one mebibyte, and the delimiter ends the transfer cleanly |
| EndToEnd.DeliveredInFull | app/rust/src/util/bytes.rs:15-32 | The delivered blocks of each file are the bytes that were handed over, however they were cut, in blocks of 1048576 bytes, the last one possibly shorter |
| EndToEnd.ReceivedOnlyIfLastFileIsListed | core/src/webrtc/peer.rs:942-993 | The receiver ends cleanly if and only if some granted file was sent and the last of them is in the file list; the sender takes the transfer for sent in any case |
| EndToEnd.TransferNeedsReceiverPin | core/src/webrtc/peer.rs:1245-1251 | With the right keys, PINs and a selection, some interleaving reaches the transfer if and only if the receiver's PIN is not empty |
| TwoTasks.TurnsCommute | core/src/webrtc/peer.rs:255-604 | Two processes on FIFO queues that can both move can do so in either order with the same result |
| TwoTasks.EveryRunCompletes | core/src/webrtc/peer.rs:724-1057 | If one run ends, every run is a beginning of one of the same length that ends in the same state |
| ReceiverSafety.LoopLooksBack | core/src/webrtc/peer.rs:942-1050 | For any messages, what the receive loop does is given message by message by looking back at the messages before; it reads up to the first that ends or breaks the transfer |
| ReceiverSafety.PublishedOnlyAsAgreed | core/src/webrtc/peer.rs:995-1036 | For any messages, every published file was selected, is in the file list, and was announced with the issued token |
| ReceiverSafety.DataOnlyAsAgreed | core/src/webrtc/peer.rs:1037-1048 | Every published chunk came in a binary message whose last preceding string message announced its file as agreed |
| ReceiverSafety.EveryBinaryHasItsFate | core/src/webrtc/peer.rs:1037-1050 | Every binary message that is read goes to the open file or is reported, in order, and nothing else does |
| ReceiverSafety.ResponsesAreExact | core/src/webrtc/peer.rs:945-991 | The responses sent are exactly those to the files closed by a later string message, in order, the k-th carrying the k-th verdict of the application |
| ReceiverSafety.ResponsesSayVerdicts | core/src/webrtc/peer.rs:950-971 | The k-th response parses to one for the k-th closed file; it is a success if and only if the application's k-th verdict is one, and otherwise carries the application's error, "Unknown error" if it gave none, or that no verdict came |
| ReceiverSafety.ReceiveFiles | core/src/webrtc/peer.rs:942-1050 | The receive loop, with its open file reassigned per message, does what the receiver's reactions do until the channel closes; if the application drops the channel of the open file, exactly what precedes the first chunk it does not take, and fails |
| ReceiverAdmission.ListOnlyFromAdmitted | core/src/webrtc/peer.rs:724-897 | For any messages up to the channel's close, the receiver shows its user a file list if and only if a nonce came, a token that passes, a right PIN among the allowed attempts if its own is set, and that list, directly or after nothing but requests for the sender's PIN while the user had one |
| ReceiverAdmission.RequestIsAnswered | core/src/webrtc/peer.rs:733-791 | For any messages: nothing is sent without a nonce; then the receiver's nonce and exactly a refusal if the token is rejected, nothing if there is none or its verification panics, and otherwise its own token, with or without the demand for a PIN; nothing more is sent or told unless the token passed |
| Pin.VerifiesIff | core/src/webrtc/peer.rs:1231-1283 | On any messages, a non-empty PIN is verified if and only if a right attempt comes in time after nothing but attempts, and exactly what follows it stays unread |
| SenderSafety.ListOnlyAfterAdmission | core/src/webrtc/peer.rs:265-433 | For any messages up to the channel's close, the sender announces its file list if and only if it got a valid nonce, a token that passes, an acceptance of one of its PINs if one was asked for, and a right PIN among the allowed attempts if its own is set |
| SenderSafety.WhileOpen | core/src/webrtc/peer.rs:265-433 | The same while the channel is still open: the sender has done, and sent, a beginning of what it does in all, with the list announced if and only if it has admitted the receiver |
| SenderSafety.OpeningIsExact | core/src/webrtc/peer.rs:265-321 | For any messages: the sender sends its nonce, then its own token for both once it has a nonce, and nothing more, and tells nothing, unless the receiver's token passed |
| SenderSafety.NonceIsReceived | core/src/webrtc/peer.rs:1135-1158 | A nonce is taken from a string message that spells 16 to 128 bytes, and from no other |
| SenderSafety.NotAdmittedLearnsNothing | core/src/webrtc/peer.rs:265-433 | Who is not admitted sees the same behaviour whatever the files are |
| SenderGrants.AdmissionSendsList | core/src/webrtc/peer.rs:375-433 | A sender that admits the receiver has done exactly its opening, its answers to the receiver's challenge and its own challenge, without the list, and then sends the list and awaits the selection from the following message |
| SenderGrants.OnlyGrantedFiles | core/src/webrtc/peer.rs:435-595 | After the list, for any messages up to the channel's close, which also completes an unfinished answer, the sender sends exactly its part of a pair exchange and the files granted in an answer, directly or after the exchange, and nothing if none was |
| SenderGrants.AnswerIsTold | core/src/webrtc/peer.rs:435-535 | What the application is told of any answer to the file list, directly or after a pair exchange, and how the sender ends |
| SenderGrants.HeadersAreGranted | core/src/webrtc/peer.rs:537-566 | Every header sent names a file handed over by the application and the token granted for it |
| SenderGrants.FilesOnlyAsGranted | core/src/webrtc/peer.rs:265-595 | In a whole dialogue up to the channel's close: everything sent is what preceded admission, the list, the pair exchange and the granted files, in this order |
| Pin.VerifyPin | core/src/webrtc/peer.rs:1231-1283 | The verifying loop, with its 8-bit counter that never overflows, computes `Verify`: verdict, messages left unread, and notices in order |
| Pin.VerifyPinIsExact | core/src/webrtc/peer.rs:1231-1283 | With a non-empty PIN it succeeds if and only if one of the first allowed attempts is right, reads up to that one, and gives one notice per attempt awaited, the first left out unless asked for |
| Pin.GuessedMeans | core/src/webrtc/peer.rs:1250-1255 | Being guessed is: some attempt within the allowed number equals the PIN |
| Pin.EmptyPinReadsNothing | core/src/webrtc/peer.rs:1245-1251 | The challenge succeeds without reading if and only if the PIN is empty |
| Pin.HandlePin | core/src/webrtc/peer.rs:1167-1223 | The prompting loop computes `Handle`: result, effects, what is left of the queue and of the user's answers |
| Pin.HandleIsExact | core/src/webrtc/peer.rs:1167-1223 | For any verdicts and answers: PINs are sent, each after a prompt, until a verdict does not ask again or the user has no other; it succeeds if and only if that verdict accepts, and uses one answer and one reply per PIN sent |
| Pin.OnePromptPerPin | core/src/webrtc/peer.rs:1175-1189 | As many prompts as PINs sent, and one more exactly if the user was asked and had no other |
| TaskLoops.SenderVerifies | core/src/webrtc/peer.rs:361-403 | While the sender challenges, its reactions amount to the verifying loop followed by the file list, or to its failure |
| TaskLoops.ReceiverVerifies | core/src/webrtc/peer.rs:793-830 | The same for the receiver |
| TaskLoops.SenderPromptsInLoop | core/src/webrtc/peer.rs:326-358 | While the sender gives the receiver's PIN, its reactions amount to the prompting loop |
| TaskLoops.ReceiverPromptsInLoop | core/src/webrtc/peer.rs:846-881 | While the receiver gives the sender's PIN, its reactions amount to the prompting loop on chunked verdicts, one cut off by the close included |
| Framing.CutIsCanonical | core/src/webrtc/peer.rs:1323-1353 | Pieces concatenate to the bytes, all of the given size but a last non-empty one no larger, if and only if they are the cut |
| Framing.CutCount | core/src/webrtc/peer.rs:1323-1353 | Their number is the length divided by the size, rounded up |
| Framing.ProcessInChunks | core/src/webrtc/peer.rs:1328-1353 | For any fragmentation of the input the callback gets the canonical chunks of its concatenation, or a prefix of them when it fails |
| Framing.ReceiveStringFromChunks | core/src/webrtc/peer.rs:1378-1389 | Gathers the binary messages up to a string message and leaves exactly what follows it |
| Framing.SendStringInChunks | core/src/webrtc/peer.rs:1360-1376 | The callback gets exactly the canonical chunks of the string, or as many of them as it takes before it fails |
| Framing.FramingRoundTrip | core/src/webrtc/peer.rs:1307-1389 | A string sent in chunks with its delimiter is received as it was, and further messages stay untouched |
| Framing.FramedIsCut | core/src/webrtc/peer.rs:1323-1353 | On the wire a string is pieces of 16384 bytes, the last one possibly shorter, and the string "0" |
| SenderLoop.SendAllFiles | core/src/webrtc/peer.rs:537-593 | The loop over handed-over files sends header and chunks of each granted one up to where the channel fails, reports each that is not granted or fails, goes on with the next, and ends with the delimiter |
| SenderLoop.SentOrReported | core/src/webrtc/peer.rs:537-593 | Of each granted file a beginning is sent, and it is reported if and only if that is not the whole |
| SenderLoop.WithoutFaults | core/src/webrtc/peer.rs:537-593 | On a channel that does not fail the loop sends what the sender's reaction to a selection sends |
| Reblock.BufferReceiver | app/rust/src/util/bytes.rs:7-35 | The re-blocking loop computes `Blocks` and drains its input |
| Reblock.BlocksKeepContent | app/rust/src/util/bytes.rs:15-32 | Order and content are kept, no block is empty, only the last may be short |
| Reblock.ChunksBecomeBlocks | app/rust/src/util/bytes.rs:10-32 | Canonical 16 KiB chunks become canonical 1 MiB blocks |
| Reblock.RTCFileReceiver.Receive | app/rust/src/api/webrtc.rs:436-448 | The content of a received file can be taken once, and comes re-blocked |
| Controllers.FirstChoiceCounts | app/rust/src/api/webrtc.rs:373-395 | Of all selections and refusals the application sends, the session sees the first and no other |
| Controllers.PinsLookBack | app/rust/src/api/webrtc.rs:361-371 | Exactly those PINs are passed on that are given while a request is open, each to that request, in order |
| Controllers.EachRequestOnePin | app/rust/src/api/webrtc.rs:361-371 | A PIN is passed on exactly while a request is open, to the latest one, so each request gets at most one, in order |
| Signaling.AppState.Connect | server/src/controller/ws_controller.rs:108-150 | The section of a connect: admitted if and only if room and rate allow, with the peers met; a full room consumes no request |
| Signaling.AppState.ProtectDdosRequestCount | server/src/controller/ws_controller.rs:355-366 | Counts up one group within its limit and no other |
| Signaling.AppState.Disconnect | server/src/controller/ws_controller.rs:250-271 | The section of a cleanup: removes one peer and no other, drops the room if and only if it is left empty, returns exactly who remains |
| Signaling.AppState.SendUpdate | server/src/controller/ws_controller.rs:283-297 | The section of an update: all rooms keep their peers, exactly the entry of the peer changes and only if it is still there, and exactly the others of its room are returned |
| Signaling.AppState.SendToPeer | server/src/controller/ws_controller.rs:311-353 | The target if it is in the group and nobody otherwise, and the relayed message |
| SignalingLocks.EveryRunKeepsLocks | server/src/controller/ws_controller.rs:108-163 | In every interleaving each lock is held by the one process inside its section |
| SignalingLocks.NoDeadlock | server/src/controller/ws_controller.rs:283-366 | In every interleaving, if someone waits for a taken lock then a holder of a lock can go on at once, and whoever waits on a queue holds no lock |
| SignalingRegistry.RegistryIsConserved | server/src/controller/ws_controller.rs:108-150 | In every reachable state the stored peers of a group are exactly its accepted connections not yet cleaned up, also by the log, and never more than allowed |
| SignalingRegistry.CleanupRemovesOne | server/src/controller/ws_controller.rs:250-271 | A cleanup removes one id and leaves all other groups and the counter as they are |
| SignalingSections.ConnectIsTheSection | server/src/controller/ws_controller.rs:108-150 | The steps of an undisturbed connect come to what the section of the program returns: rooms, peers met, and one request more exactly if it is admitted |
| SignalingSections.CleanupIsTheSection | server/src/controller/ws_controller.rs:250-271 | The same for a cleanup |
| SignalingSections.UpdateIsTheSection | server/src/controller/ws_controller.rs:283-297 | The same for an update: one entry changed in all rooms, and exactly the others of the room still to be told |
| SignalingSections.ClearIsTheSection | server/src/config/scheduler.rs:11-18 | The undisturbed hourly clear sets every counter to zero and touches nothing else |
| SignalingSections.RefusalLeavesNoTrace | server/src/controller/ws_controller.rs:111-123 | In every reachable state a refused connection was never registered, is in no room, and nothing in its name is in any queue |
| SignalingSections.EmptyRoomIff | server/src/controller/ws_controller.rs:111-123 | In every reachable state with the rooms not locked, a group has an empty room if and only if a connection was refused that found nobody there and none was registered since |
| SignalingSections.RefusalOpensRoom | server/src/controller/ws_controller.rs:111-123 | The undisturbed section of a refused connect leaves an empty room behind if and only if the group had none before, and touches no other |
| SignalingRegistry.RateIsLimited | server/src/controller/ws_controller.rs:355-366 | In every reachable state a group's counter is its requests since the last clear and within the limit, and a run with k clears acts upon at most (k + 1) times the limit |
| SignalingRegistry.StepKeepsCounts | server/src/config/scheduler.rs:11-18 | Every step, the hourly clear included, keeps this bookkeeping |
| SignalingPeers.EachPairMeetsOnce | server/src/controller/ws_controller.rs:108-163 | In every interleaving two greeted peers whose registrations overlap learn of each other exactly once, the later by its only greeting, the earlier by exactly one Join, never the other way round; peers that do not overlap never do |
| SignalingPeers.NeverTwiceAndInOrder | server/src/controller/ws_controller.rs:152-163 | At any time at most one Join and one greeting, no Join without overlap, and whatever a peer causes to be queued at one it met comes after its Join |
| SignalingPeers.JoinComesBefore | server/src/controller/ws_controller.rs:181-228 | The same order, by positions in the log |
| SignalingRelay.EveryRequestIsAccountedFor | server/src/controller/ws_controller.rs:283-353 | In every interleaving, request by request and queue by queue: accepted is relayed, plus in hand, plus looked up without finding the receiver, plus broken off by the end of the connection |
| SignalingRelay.RelaysArrive | server/src/controller/ws_controller.rs:322-352 | Once a peer's reader listens again, every offer, answer and update it made is in the queues it found, each as often as it was made |
| SignalingRelay.OfferArrives | server/src/controller/ws_controller.rs:311-353 | An offer or answer that meets no taken lock and whose target is there ends up in the target's queue, and the reader listens again |
| SignalingRelay.RequestIsRefused | server/src/controller/ws_controller.rs:185-199 | A request beyond the limit is acted upon nowhere; the peer is told 429, and its reader ends |
| SignalingRelay.RelayIsFaithful | server/src/controller/ws_controller.rs:283-353 | Every offer, answer or update in a queue was accepted from its origin, goes to any one queue at most once per request and only within the group, an offer or answer to one queue over all, that of the target it names; session id, description and updated information are unchanged, and an offer or answer carries the information given at connect time |
| SignalingRelay.NothingIsMadeUp | server/src/controller/ws_controller.rs:283-353 | Whatever offer, answer or update is queued in the name of a peer was asked for by it |
| SignalingPicture.PictureIsRightIff | server/src/controller/ws_controller.rs:108-163 | In every interleaving, once all has been told: the picture of a live client is exactly the registry's room without itself if and only if, peer by peer, the order of its queue spoils nothing, or the queue shows what an update said that was broken off before the client was told; it is wrong about exactly the other peers |
| SignalingPicture.OrderlyQueueIsRight | server/src/controller/ws_controller.rs:283-297 | If the greeting comes first and nothing of a peer follows its Left, the picture is right if and only if no update of a peer still there was broken off whose content the queue does not give otherwise |
| SignalingPicture.LeftBeforeGreetingHaunts | server/src/controller/ws_controller.rs:250-271 | A greeting that lists a peer whose Left is already in the queue makes the client show it in every continuation, although no room holds it |
| SignalingPicture.HauntedForGood | server/src/controller/ws_controller.rs:250-271 | Whatever happens, a client that shows a peer which has left and has said so shows it for good |
| SignalingView.ViewsAreRight | server/src/controller/ws_controller.rs:125-163 | If connects, updates and disconnects of a group take effect one after the other, folding a live client's queue gives exactly the registry's room without itself, with current information; meanwhile the one message still to come makes it so |
| SignalingStale.APictureCanStayWrong | server/src/controller/ws_controller.rs:152-163 | A concrete interleaving after which a client lists, in every continuation, a peer that is in no room of its group |
| Answers.FiringsLookBack | core/src/webrtc/signaling.rs:289-298 | Exactly those callbacks fire whose registration was the last thing to concern the session when its answer came |
| Answers.AllIsForwarded | core/src/webrtc/signaling.rs:289-298 | Every message that came in is forwarded, answers included, in order |
| Answers.FiresOnceForItsSession | core/src/webrtc/signaling.rs:289-298 | A callback fires at most once, and only for its own session |
| Answers.EarlyAnswerIsLost | core/src/webrtc/peer.rs:612-626 | An answer that precedes the registration does not fire the callback |
| Answers.ManagedSignalingConnection.StartListener | core/src/webrtc/signaling.rs:280-310 | The listener's loop takes each waiting callback out, fires it, and forwards every message, in order |
| Answers.ListenerStretch | core/src/webrtc/signaling.rs:289-298 | Between registrations, the history of callbacks is the loop |
| IpGroup.GroupsSeparateNetworks | server/src/util/ip.rs:3-18 | Equal keys if and only if the same IPv4 address, or IPv6 addresses with the same first four segments |
| IpGroup.V4Groups | server/src/util/ip.rs:3-9 | The key of an IPv4 address splits at its dots into the four numbers in decimal, and different addresses have different keys |
| IpGroup.V6Groups | server/src/util/ip.rs:10-18 | The key of an IPv6 address splits at its colons into the first four segments in hexadecimal, and is shared by exactly the addresses with these |
| Base64.DecodeInvertsEncode | core/src/util/base64.rs:5-13 | A text decodes to some bytes if and only if it is their encoding |
| Standards.ThreeBytesAreFourCharacters | core/src/util/base64.rs:5-13 | Three bytes are written as the four six-bit fields of section 4 of RFC 4648, and then the rest |
| Standards.TwoBytesAtTheEnd | core/src/util/base64.rs:5-13 | Two bytes at the end are written as three fields, with zeros for what is missing |
| Standards.OneByteAtTheEnd | core/src/util/base64.rs:5-13 | One byte at the end is written as two fields |
| Standards.Alphabet | core/src/util/base64.rs:1-5 | The fields are written in the URL-safe alphabet of section 5 |
| Token.GeneratedParts | core/src/crypto/token.rs:118-136 | A generated token splits at dots into its five parts |
| Token.AcceptedIff | core/src/crypto/token.rs:177-227 | A token is accepted if and only if its first five parts spell a salt that passes, its digest, the key's method and a signature that verifies; fewer than five parts panic |
| Token.NonceRoundTrip | core/src/crypto/token.rs:166-175 | A generated token is accepted for a nonce if and only if it was made for it |
| Token.TimestampRoundTrip | core/src/crypto/token.rs:143-164 | With modular subtraction a token of time t is accepted if and only if now is within the hour after t, or wraps around to it |
| Token.ExtraPartsAreIgnored | core/src/crypto/token.rs:177-190 | Parts after the fifth are never looked at |
| Utf8.DecodeInvertsEncode | app/rust/src/frb_generated.rs:1668-1674 | Bytes are a string if and only if they are its encoding |
| Standards.Utf8Vectors | app/rust/src/frb_generated.rs:1668-1674 | The examples of section 7 of RFC 3629 are encoded as there |
| BridgeCodec.VecIsFaithful | app/rust/src/frb_generated.rs:1816-1862 | A list of up to 2^31 - 1 elements decodes from its encoding and leaves what follows |
| BridgeCodec.NegativeLengthIsEmpty | app/rust/src/frb_generated.rs:1852-1862 | A negative length reads as an empty list |
| BridgeCodec.OptionalIsFaithful | app/rust/src/frb_generated.rs:1864-1873 | The same for options |
| BridgeCodec.HashSetInAnyOrder | app/rust/src/frb_generated.rs:2793-2798 | Every enumeration of a set encodes to something that decodes to the set |
| BridgeCodec.I32IsFaithful | app/rust/src/frb_generated.rs:1790-1795 | The same for 32-bit numbers, in two's complement |
| BridgeCodec.UuidIsFaithful | app/rust/src/frb_generated.rs:1676-1682 | The same for identifiers of sixteen bytes |
| BridgeCodec.FileDtosAreFaithful | app/rust/src/frb_generated.rs:1756-1788 | File descriptions and lists of them survive encoding and decoding with any suffix |
| BridgeCodec.FileDtoFits | app/rust/src/frb_generated.rs:2915-2934 | This covers exactly the descriptions whose strings are shorter than 2^31 bytes |
| BridgeCodec.ClientInfosAreFaithful | app/rust/src/frb_generated.rs:1691-1709 | The same for client information and lists of it |
| BridgeCodec.SendFileResponseIsFaithful | app/rust/src/frb_generated.rs:1961-1973 | The same for file responses |
| BridgeCodec.PinConfigIsFaithful | app/rust/src/frb_generated.rs:1910-1931 | The same for optional PIN settings |
| BridgeCodec.StatusIsFaithful | app/rust/src/frb_generated.rs:1975-2010 | The same for session states and their tags |
| BridgeCodec.ServerMessageIsFaithful | app/rust/src/frb_generated.rs:2045-2105 | The same for every message of the signaling server |
| BridgeLayout.I32Layout | app/rust/src/frb_generated.rs:1790-1795 | Signed 32-bit numbers, which lengths and tags are, are four bytes of two's complement, the lowest first |
| BridgeLayout.StringLayout | app/rust/src/frb_generated.rs:1668-1674 | A string is the number of its UTF-8 bytes and these bytes |
| BridgeLayout.CollectionLayouts | app/rust/src/frb_generated.rs:2981-2989 | A list is its length and its elements, an option a flag and its value |
| BridgeLayout.FileLayout | app/rust/src/frb_generated.rs:2915-2934 | The fields of a file description in the order of the program |
| BridgeLayout.ClientLayout | app/rust/src/frb_generated.rs:1691-1709 | The fields of client information in the order of the program |
| BridgeLayout.StatusLayout | app/rust/src/frb_generated.rs:1975-2010 | The tags of session states in the order of the program |
| BridgeLayout.MessageLayout | app/rust/src/frb_generated.rs:2045-2105 | The tags and bodies of the server's messages in the order of the program |
| BridgeLayout.MessageFits | app/rust/src/frb_generated.rs:2045-2105 | A message of the server is covered if and only if the strings and lists it carries are shorter than 2^31 and its ids have sixteen bytes |
| BridgeCursor.SseSerializer.WriteFileDtos | app/rust/src/frb_generated.rs:2981-2989 | The counted loop appends exactly the encoding to the cursor |
| BridgeCursor.SseDeserializer.ReadFileDtos | app/rust/src/frb_generated.rs:1840-1850 | The counted loop reads what the format says and leaves the rest before the cursor |
| BridgeCursor.BridgeFiles | app/rust/src/frb_generated.rs:2981-2989 | A list written by one cursor is read back by the other, whatever follows it in the buffer |
| LruCache.PutKeyMeans | core/src/http/server/mod.rs:43-55 | Keys stay distinct and within the capacity, the used key comes first, and only a new key in a full cache pushes out one, the oldest |
| LruCache.KeysOfPut | core/src/http/server/controller/v3.rs:29-36 | Which keys are kept, and in which order, does not depend on the nonces |
| LruCache.GetAfterPut | core/src/http/server/controller/v3.rs:29-36 | A stored nonce is found, the others are unchanged unless forgotten |
| NonceCaches.CachesStayInStep | core/src/http/server/controller/v3.rs:27-48 | In every interleaving, whenever the received nonces are not locked, both caches hold the same keys in the same order of use, at most 200 |
| NonceCaches.InsideGoesOn | core/src/http/client/mod.rs:117-134 | An exchange that holds a lock can always go on |
| NonceCaches.Undisturbed | core/src/http/client/mod.rs:117-134 | An exchange that meets no other gets both locks, stores both nonces and gives the locks back |
| NonceCaches.NonceMaps.NonceExchange | core/src/http/server/controller/v3.rs:17-48 | The server's half: a valid nonce is stored with the new one, any other changes nothing |
| NonceCaches.NonceMaps.Nonce | core/src/http/client/mod.rs:83-134 | The client's half: stores both nonces only on success |
| NonceCaches.ExchangesAreAtomic | core/src/http/server/controller/v3.rs:27-48 | In every interleaving, whenever the received nonces are not locked, both caches are as if the completed exchanges had been done one after the other, each once and with its own key and nonces |
| NonceExchange.BothSidesAgree | core/src/http/client/mod.rs:83-134 | In every interleaving of exchanges: if the last one of a pair that the server answered is the last one that the client took, what each side received is what the other generated, as long as neither has forgotten it |
| NonceExchange.BothSidesAgreeIff | core/src/http/client/mod.rs:83-134 | While nothing is forgotten, the two sides agree if and only if the last exchange answered and the last one taken have the same nonces |
| NonceExchange.BothSidesAgreeOnTheSame | core/src/http/client/mod.rs:83-134 | If clients draw no nonce twice, they agree if and only if the last exchange answered is the last one taken |
| NonceExchange.ExchangeStoresBoth | core/src/http/server/controller/v3.rs:17-48 | Right after an exchange both sides hold both nonces |
| NonceExchange.CrossedExchangesDisagree | core/src/http/server/controller/v3.rs:27-48 | Two exchanges of a pair under way, their answers taken in the other order, leave each side with the nonces of another exchange |

## Left out

- WebRTC, ICE, STUN, SDP creation and compression, sockets, TLS, WebSocket upgrade and HTTP routing: only ordered, lossless queues that may close are kept.
- SHA-256, Ed25519, RSA-PSS, random bytes and certificates: hashing, signing and verifying are parameters with the one law that what a key signs its public half verifies; failing key export is not modelled.
- JSON text: a printer and a parser per message type, with the laws listed above.
- Timeouts, polling for an empty send buffer and keep-alive: waits without bound on time; nothing is claimed about durations.
- Failing sends on the data channel outside the loop over the files, and an application that drops its status or error channel in mid-session.
- The closing status after a session, and what happens to the peer connection around it.
- SenderLoop.SendAllFiles: the chunks of a file are handed to the channel after they are cut, not one by one in the callback.
- The capacity of the server's queues: a send may take any time or never happen, so nothing is claimed about its completion; what the socket delivers to a client that is gone is not modelled.
- The instant at which an aborted reader stops: it may go on until it next waits, so nothing is claimed about what follows a Left.
- BridgeCodec.FileDtosAreFaithful: numbers are little-endian, as on all supported platforms, where the code says native order.
- Bridge types of the same shape as those modelled (key pairs, expected keys, proposed client information, file errors), opaque handles, streams and dispatch.
- HTTP registration, routes, web interface, discovery, the Dart application and platform code.
