# AITT: verified model of its state machines, protocols and codecs

AITT is a publish/subscribe middleware: MQTT for brokered messages, direct TCP connections (plain
or encrypted) between nodes that find each other through retained discovery messages, and WebRTC
for streams. This project models the parts of it in which several functions must keep something
true together, and proves what they keep.

| file | module | what it covers |
|---|---|---|
| MessageDispatch.dfy | MessageDispatch | the MQTT client's subscriber list, walked while callbacks change it |
| MainLoop.dfy, MainLoopHistory.dfy, PosixMainLoop.dfy | MainLoop, MainLoopHistory, PosixMainLoopCode | the event loop as a state machine, what its tables and pipes hold by the events of a run, and its code as runs of the machine |
| Discovery.dfy, DiscoveryNode.dfy, DiscoveryNetwork.dfy, DiscoveryHistory.dfy | Discovery, DiscoveryNode, DiscoveryNetwork, DiscoveryHistory | discovery at one node, its part in the network, the whole network with its broker, and its state by the events of a run |
| Encryptor.dfy, Framing.dfy, TcpConnection.dfy | Encryptor, Framing, TcpConnection | padding, message frames, partial send and recv |
| TcpPublishTable.dfy, TcpSubscriptions.dfy, TcpSubscriptionHistory.dfy | TcpPublishTable, TcpSubscriptions, TcpSubscriptionHistory | the two halves of the TCP transport's tables, by the operations of a run |
| AittSubscriptions.dfy | AittSubscriptions | the subscription tables of the API object |
| Decimals.dfy, Replies.dfy, ReplyStream.dfy, DoubledReplies.dfy | Decimals, ReplyTopics, Replies, ReplyStream, DoubledReplies | reply topics, reply numbering, replies from end to end, and how one arrives twice |
| LargeMessage.dfy, Nv21.dfy | LargeMessage, Nv21 | chunking on the Android data channel, I420 to NV21 |
| FrameHandOff.dfy, RequestServer.dfy | FrameHandOff, RequestServerCode | the WebRTC frame queue as a state machine, and its code as runs of it |
| Results.dfy, Handles.dfy, ByteStrings.dfy, Sequences.dfy, Totals.dfy, Runs.dfy, Histories.dfy | one module each, of the same name | result types, handles, bytes, lists without duplicates, sums over maps, runs, what holds since an event |

Objects that the program updates in place are classes; what their methods do is stated by a
function on values, about which the lemmas speak. Where threads interleave, the behaviour is a
state machine whose events are the steps no other thread can see half done; a result about "every
run" is about every sequence of such events. In `PosixMainLoopCode` and `RequestServerCode` the
methods take a script of what the other threads do in between and return the run they performed.

Sockets, pipes, timers, the broker, FlexBuffers, Zstd, the CBC transformation and the topic match
are abstract: their results are parameters or nondeterministic choices, with inverse laws where
the program relies on them. Memory is not modelled beyond table membership; an address of a record
is a value that identifies it.

## What turned out not to hold

Each of these is a statement in the model, together with the condition under which the natural
guarantee does hold.

- A callback that unsubscribes entries whose turn is over moves the list under the index. When the
  index ends up k past the visited entries that are still listed, the next k entries get no further
  turn, or the index leaves the list; exactly when k is 0 nothing is skipped
  (`MessageDispatch.SkipsExactly`, `MessageDispatch.SkippedIsMissed`, `MessageDispatch.MissedEntry`).
- Unsubscribing outside a dispatch can meet the index of the last one and leave the "updated" flag
  set; the first entry of the list is then invoked twice by the next message, exactly if it matches
  and its callback leaves it subscribed (`MessageDispatch.StaleFlagRepeatsFirst`,
  `MessageDispatch.StaleIndexScenario`).
- So a reply can reach its callback twice: with the first request's subscription in front, an
  unrelated subscription comes and goes, a message arrives, another unrelated subscription comes and
  goes, and the next reply is queued twice (`DoubledReplies.DoubledReply`,
  `DoubledReplies.DoubledRun`). Routing is exact at every point of a run if and only if no delivery
  meets the flag with its request in front (`ReplyStream.RoutedIff`), which a caller ensures by
  withdrawing no MQTT subscription made since the last message before the next one
  (`ReplyStream.CalmIsOnce`, `ReplyStream.RepliesRouted`).
- `AddTimeout` arms its timer before it fills the table; a token read in between is thrown away and
  that timeout never runs. It cannot happen to calls made on the loop thread or before `Run`, and
  can to any other call while the loop runs (`MainLoop.TimerConservation`, `MainLoop.SafeAddTimeout`,
  `MainLoop.EarlyTokenAnywhere`).
- A node that reconnects still counts the subscriptions of clients it knew that were gone by then
  and have announced nothing since (`DiscoveryNetwork.Leftovers`,
  `DiscoveryNetwork.LeftoverRunExists`); one that stops with subscriptions and connects again is not
  counted by others until it announces something (`DiscoveryNetwork.SilentIff`,
  `DiscoveryNetwork.SilentRunExists`). The count is exact exactly up to these two
  (`DiscoveryNetwork.Convergence`, `DiscoveryNetwork.CountIsExactIff`).
- The TCP publish table keeps the cipher key of an older announcement while the port stays the same
  (`TcpPublishTable.KeyIsHistory`, `TcpPublishTable.StaleKey`).
- 16 payload lengths that may be published are refused by the receiver of an encrypted connection
  (`Framing.SecureFrameReadBack`); a message cut short by the peer is reported with its announced
  length (`Framing.CutFrame`, `TcpConnection.TCP.RecvSizedDataNormal`).
- Unsubscribing one of several TCP callbacks of a topic announces nothing
  (`TcpSubscriptions.AnnouncedCounts`).
- When the broker refuses an unsubscription, the tables of the API object no longer agree
  (`AittSubscriptions.CallAgrees`, `AittSubscriptions.UnsubscribeAllEmpties`).
- A large message whose compressed form is shorter than a chunk, ends with a chunk that reads "EOF",
  or is too long for the index, is not both sent without error and followed by a receiver that has
  just delivered it and is reset (`LargeMessage.OneMessage`, `LargeMessage.NotTransmissible`).
- The NV21 conversion fails for every frame of odd width that has rows (`Nv21.CreateNV21Data`), and
  copies the padding of a padded luma plane of two or more rows as pixels (`Nv21.LumaIff`).

## Model

| member | source | states |
|---|---|---|
| MessageDispatch.MosquittoMQ.MessageCB | src/MosquittoMQ.cc:183-207 | Whatever the callbacks do, the loop does what the index walk `Visit` does, ending or going astray with it; when the index keeps the pace that is the reference dispatch of the entries listed on arrival; deferred entries are appended, and the flag ends false except when it was set and the list is empty |
| MessageDispatch.MosquittoMQ.TakeTurn | src/MosquittoMQ.cc:188-203 | One turn of the index walk: the entry at the index is invoked if it matches, and index and flag move on |
| MessageDispatch.MosquittoMQ.InvokeCallback | src/MosquittoMQ.cc:209-259 | The requests of a callback, whatever they are, change list, index, flag and deferred list one after the other as stated on values |
| MessageDispatch.VisitIsDispatch | src/MosquittoMQ.cc:188-203 | If after every callback the index stands right behind the visited entries that are still listed, the walk terminates with exactly the invocations and the registry of the reference dispatch |
| MessageDispatch.PoliteKeepsPace | src/MosquittoMQ.cc:188-203 | Callbacks that remove only their own entry and entries to come keep that pace |
| MessageDispatch.SkipsExactly | src/MosquittoMQ.cc:371-378 | Whatever a callback requests, the index is never behind; when it ends k past the visited entries still listed, exactly the first k of the remaining ones lose their turn, and with fewer than k left the index is past the end; it is on track exactly when k is 0 |
| MessageDispatch.SkippedIsMissed | src/MosquittoMQ.cc:188-203 | An entry skipped in that way is still listed and is not invoked any more |
| MessageDispatch.MissedEntry | src/MosquittoMQ.cc:371-378 | In a list of three, the second callback removes the first entry: the third matches, stays subscribed and is never invoked |
| MessageDispatch.AllowedIffOnTrack | src/MosquittoMQ.cc:371-378 | A callback keeps to its own entry and those to come exactly when after each of its requests the index stands before exactly the remaining entries that were to come |
| MessageDispatch.MosquittoMQ.Subscribe | src/MosquittoMQ.cc:338-356 | A subscription, with its topic and user data, comes behind the list, or behind the deferred list during a dispatch, and the other list stays; growing the vector leaves the kept index equal to no element, otherwise index, flag and capacity stay; a refusing broker changes nothing |
| MessageDispatch.WalkEffects | src/MosquittoMQ.cc:183-259 | Whatever the callbacks do, after the walk the deferred list has grown by the topics and user data of exactly the accepted subscriptions its callbacks asked for, in order, and an entry is still listed exactly if no callback asked for its removal |
| MessageDispatch.MosquittoMQ.Unsubscribe | src/MosquittoMQ.cc:358-392 | The entry leaves the list, index and flag move as for an erase, the user data comes back; the entry is gone even when the broker then refuses; an unknown handle changes nothing |
| MessageDispatch.DispatchInOrder | src/MosquittoMQ.cc:183-207 | Invocations are a subsequence of the entries listed on arrival, all of them matching; entries added meanwhile are not invoked and are kept in order of addition |
| MessageDispatch.InvokedIffPresent | src/MosquittoMQ.cc:188-203 | An entry is invoked exactly when it matches and is still subscribed at its own turn, and nothing is invoked twice |
| MessageDispatch.DispatchMissesNone | src/MosquittoMQ.cc:188-203 | A matching entry that is still subscribed at the end has been invoked |
| MessageDispatch.DispatchSkipsAbsent | src/MosquittoMQ.cc:188-203 | Entries already removed may be dropped from the walk without changing its outcome, which is why the live list can stand for the snapshot |
| MessageDispatch.ClearFlagInvokesOnce | src/MosquittoMQ.cc:183-207 | With the flag clear no entry is invoked twice |
| MessageDispatch.EraseKeepsTrack | src/MosquittoMQ.cc:371-378 | An erase keeps the walk on its remaining entries exactly when the erased position is not before the index; otherwise the next entry is skipped or the index passes the end |
| MessageDispatch.StaleFlagRepeatsFirst | src/MosquittoMQ.cc:186-203 | With the flag left set the first entry is invoked twice exactly when it matches and its callback leaves it subscribed |
| MessageDispatch.StaleIndexScenario | src/MosquittoMQ.cc:183-207 | On any non-empty list, from any state of index, flag and vector: a withdrawn subscription, a message, another withdrawn subscription, and a message that the first subscriber gets twice |
| MessageDispatch.SilentMessage | src/MosquittoMQ.cc:183-207 | A message whose callbacks request nothing invokes what the index walk invokes, which are the matching entries among its turns; the list stays, the index ends behind it and the flag ends clear unless the list is empty |
| MessageDispatch.SilentVisit | src/MosquittoMQ.cc:188-203 | With callbacks that request nothing the index walk ends, with the matching entries among its turns invoked in order |
| MessageDispatch.WithdrawnSubscription | src/MosquittoMQ.cc:338-392 | A subscription withdrawn outside a dispatch sets the flag exactly if the vector had room and the index was where the last walk ended |
| MessageDispatch.CommitKeepsWellFormed | src/MosquittoMQ.cc:204-206 | Appending the deferred entries keeps handles distinct |
| MainLoop.TimerConservation | common/PosixMainLoop.cc:164-197 | In every interleaving a registered timer has exactly one of armed timer, unread token and running callback, and one callback per token read, exactly unless the loop took a token of it between the two halves of AddTimeout; then it has none of them |
| MainLoop.LostIffTakenEarly | common/PosixMainLoop.cc:164-187 | A timer is lost exactly when, in the run, one of its tokens is taken after the event that arms it and before the event that inserts it |
| MainLoop.SafeAddTimeout | common/PosixMainLoop.cc:164-187 | AddTimeout called on the loop thread or before Run never loses its timer |
| MainLoop.TimersStep | common/PosixMainLoop.cc:249-286 | Every step keeps the accounting of firings, tokens, callbacks and dropped tokens for every id; ids are not reused and never equal the reserved tokens |
| MainLoop.EarlyTokenAnywhere | common/PosixMainLoop.cc:164-187 | From every reachable state of a running loop there is a run in which another thread's AddTimeout loses its timer |
| MainLoop.NoLostWakeUp | common/PosixMainLoop.cc:72-135 | At every poll a non-empty idle table has an unread IDLE token, a changed watch set an unread token, a completed Quit an unread QUIT token, so poll returns |
| MainLoop.WakesUpStep | common/PosixMainLoop.cc:99-124 | Every step keeps the wake-up conditions |
| MainLoop.IdleOrder | common/PosixMainLoop.cc:288-312 | Idle callbacks finish in the order they were added and the entry popped is the one that ran |
| MainLoop.IdleProgress | common/PosixMainLoop.cc:99-111 | From every reachable top of the loop with k tokens ahead of the first IDLE token: once k+1 passes are over in which no timeout or watch was served and poll was not interrupted, the callback that was in front has started |
| MainLoop.PassesUseUpTokens | common/PosixMainLoop.cc:99-111 | While no idle callback starts, the passes that have ended are at most the tokens ahead plus the disturbed passes, from any point of the loop |
| MainLoop.PassReadsIdlePipe | common/PosixMainLoop.cc:99-108 | A pass that serves no watch and no timeout reads the idle pipe if poll found it readable |
| MainLoop.QuitProgress | common/PosixMainLoop.cc:249-260 | Once the QUIT token is written behind k others the loop ends after at most k+1 reads |
| MainLoop.QuitStops | common/PosixMainLoop.cc:76 | Once Quit has cleared the flag the loop test is reached at most once more, whatever comes between it and the copy of the watch table |
| MainLoopHistory.WatchedIff | common/PosixMainLoop.cc:137-162 | After any run a descriptor is watched if and only if some AddWatch of it is followed neither by a RemoveWatch nor by a callback of it that returns REMOVE |
| MainLoopHistory.PassServes | common/PosixMainLoop.cc:98-108 | In a pass each descriptor that poll reported gets its turn, in order, and is called exactly if it is watched then; the idle pipe is read next if and only if poll found it readable and no timeout and no watch was called |
| MainLoopHistory.ServedSkipsIdle | common/PosixMainLoop.cc:104-108 | Once a timeout or watch has been served the pass does not read the idle pipe |
| MainLoopHistory.PassesEnd | common/PosixMainLoop.cc:110-111 | Every pass, an interrupted one too, ends with the step that writes an IDLE token if entries wait: loop tests are as many as calls of Run and ended passes |
| MainLoopHistory.OneReadPerPass | common/PosixMainLoop.cc:288-312 | A pass reads the idle pipe at most once |
| MainLoopHistory.RegisteredIff | common/PosixMainLoop.cc:164-197 | After any run a timeout is registered if and only if its AddTimeout was completed and neither RemoveTimeout nor a callback of it that returns REMOVE has followed |
| MainLoopHistory.ArmedIff | common/PosixMainLoop.cc:249-286 | After any run its timer is set if and only if AddTimeout, or a callback that returns CONTINUE, has set it, and it has neither fired nor been removed since |
| MainLoopHistory.FiringsCounted | common/PosixMainLoop.cc:207-286 | The firings and callbacks counted for an id are the Fire events of it and the reads of its token while it was registered |
| MainLoopHistory.TimeoutCallBegins | common/PosixMainLoop.cc:262-284 | A timeout callback begins exactly at such a read |
| MainLoopHistory.IdlesAre | common/PosixMainLoop.cc:126-135 | After any run the idle table holds the entries added less those finished, in order; an entry is finished exactly when its callback returns REMOVE |
| MainLoopHistory.IdleCallBegins | common/PosixMainLoop.cc:288-312 | An idle callback begins exactly when an IDLE token is read while an entry waits, and it is the front one |
| MainLoopHistory.TimeoutPipeIs | common/PosixMainLoop.cc:199-215 | The timeout pipe holds what firings and Quit have written, less what was read, in order |
| MainLoopHistory.IdlePipeIs | common/PosixMainLoop.cc:126-162 | The idle pipe holds what additions, effective removals and ends of passes with waiting entries have written, less what was read, in order |
| MainLoopHistory.RunningIff | common/PosixMainLoop.cc:72-124 | The flag is set if and only if Run was called and Quit has not cleared it |
| MainLoopHistory.DoneIff | common/PosixMainLoop.cc:76-103 | The loop has ended if and only if it was at its test after Quit had cleared the flag, or has read the QUIT token |
| PosixMainLoopCode.PosixMainLoop.Run | common/PosixMainLoop.cc:72-112 | Every execution is a run of the state machine and keeps its invariant; it returns only when done or out of script |
| PosixMainLoopCode.PosixMainLoop.CheckTimeout | common/PosixMainLoop.cc:249-286 | Reads tokens until the pipe is empty or QUIT is read, calling back for registered ids only, as a run of the machine |
| PosixMainLoopCode.PosixMainLoop.CheckWatch | common/PosixMainLoop.cc:223-247 | Serves the reported descriptors that are still watched, one after the other, as a run of the machine |
| PosixMainLoopCode.PosixMainLoop.TakeReported | common/PosixMainLoop.cc:228-244 | The next reported descriptor is called exactly if it is watched, the pass then counts as handled, and what its callback returns is what ends it |
| PosixMainLoopCode.PosixMainLoop.ServeTimeout | common/PosixMainLoop.cc:262-284 | What the callback of a timeout returns is what ends it, unless RemoveTimeout was called for it meanwhile |
| PosixMainLoopCode.PosixMainLoop.ServeIdle | common/PosixMainLoop.cc:300-311 | What an idle callback returns is what ends it |
| PosixMainLoopCode.PosixMainLoop.Poll | common/PosixMainLoop.cc:76-98 | Loop test, copy of the watch table and wait, with all the events the script has for the times between them; it wakes with those reported descriptors that were polled, and is interrupted only when there is nothing to report |
| PosixMainLoopCode.PosixMainLoop.CheckIdle | common/PosixMainLoop.cc:288-312 | Reads one token and runs at most the front entry, as a run of the machine |
| PosixMainLoopCode.PosixMainLoop.AddTimeout | common/PosixMainLoop.cc:164-187 | Arming and inserting are two steps; a non-positive interval does nothing and returns 0 |
| PosixMainLoopCode.PosixMainLoop.RemoveTimeout | common/PosixMainLoop.cc:189-197 | Deletes table entry and timer, also while its callback runs, leaving written tokens in the pipe |
| PosixMainLoopCode.PosixMainLoop.TimerHandler | common/PosixMainLoop.cc:207-215 | A firing disarms the one-shot timer and writes its token |
| PosixMainLoopCode.PosixMainLoop.Quit | common/PosixMainLoop.cc:114-124 | Clearing the flag and writing the token are two steps; it fails when the loop is not running |
| PosixMainLoopCode.PosixMainLoop.AddIdle | common/PosixMainLoop.cc:126-135 | Appends the entry and writes an IDLE token in one step |
| Discovery.MQDiscoveryHandler.Subscribe | src/MQDiscoveryHandler.cc:93-104 | A known handle is refused; otherwise the table gains the topic and all topics are announced |
| Discovery.MQDiscoveryHandler.Unsubscribe | src/MQDiscoveryHandler.cc:106-116 | An unknown handle is refused; otherwise the table loses the handle and the rest is announced |
| Discovery.MQDiscoveryHandler.UpdateDiscoveryMsg | src/MQDiscoveryHandler.cc:52-65 | The announced blob lists the topics of the table in handle order |
| Discovery.MQDiscoveryHandler.DiscoveryMessageCallback | src/MQDiscoveryHandler.cc:67-91 | Own messages are ignored; a leaving client is forgotten; a joining one replaces its topics |
| Discovery.MQDiscoveryHandler.CountSubscriber | src/MQDiscoveryHandler.cc:118-138 | The loops compute the number of matching own subscriptions plus the sum over all remote topic lists, whatever the order of iteration |
| Discovery.CountIsHandles | src/MQDiscoveryHandler.cc:118-127 | The count over the own topic list is the number of handles whose filter matches |
| Discovery.AittDiscovery.DiscoveryMessageCallback | common/AittDiscovery.cc:122-163 | Each registered callback is called exactly once if the message concerns its protocol and not at all otherwise; an empty client id calls nobody |
| Discovery.AittDiscovery.RemoveDiscoveryCB | common/AittDiscovery.cc:107-115 | Exactly the callback with that id goes |
| DiscoveryNode.Participant.Subscribe | src/MQDiscoveryHandler.cc:93-104 | Handler and dispatcher together play the network's Subscribe event; what they publish is what the broker then retains for the node |
| DiscoveryNode.Participant.Unsubscribe | src/MQDiscoveryHandler.cc:106-116 | The same for Unsubscribe; an unknown handle leaves the node as it was |
| DiscoveryNode.Participant.UpdateOther | common/AittDiscovery.cc:87-96 | A blob of another protocol joins the stored ones, and what is published is what the broker then retains for the node |
| DiscoveryNode.Participant.Stop | common/AittDiscovery.cc:76-85 | The published messages are what every other connected node is sent in the network's Stop event, the node is no longer retained, and it keeps tables and blobs, subscriptions that were left included |
| DiscoveryNode.Participant.Start | common/AittDiscovery.cc:42-61 | A node that starts, again or for the first time, plays the network's Start event with the tables it has |
| DiscoveryNode.Participant.Deliver | common/AittDiscovery.cc:122-163 | Dispatching a message to the handler plays the network's Deliver event; a message without a client id changes nothing |
| DiscoveryNode.Participant.CountSubscriber | src/MQDiscoveryHandler.cc:118-138 | The handler's count is the count of the network's convergence results |
| DiscoveryNetwork.Convergence | src/MQDiscoveryHandler.cc:52-138 | After any run of joins, subscribes, unsubscribes, stops and crashes, a node that has received everything counts the matching subscriptions of all connected nodes, less those that others kept over a stop and have not announced again, plus what it kept of clients that left while it was away |
| DiscoveryNetwork.NoneUnannounced | src/AITTImpl.cc:127-137 | If nodes stop only after their own subscriptions have gone, as Disconnect sees to, nothing is missing in that way |
| DiscoveryNetwork.CountIsExactIff | src/MQDiscoveryHandler.cc:118-138 | After any run, at a node that has received everything since it last connected: if no filter of another silent client matches, the count is at least the number of matching subscriptions of all connected nodes, and equal to it exactly when no filter matches of a client that the node knew, that was gone when it connected, and that has announced nothing since; if no filter of such a leftover client matches, the count is at most that number, and equal to it exactly when no filter of another silent client matches |
| DiscoveryNetwork.SilentIff | src/MQDiscoveryHandler.cc:52-65 | A connected client is silent, that is the broker retains no topics of it, exactly when it has announced nothing since it last connected |
| DiscoveryNetwork.Leftovers | src/MQDiscoveryHandler.cc:67-91 | What is left over at such a node are exactly those clients, with the topics it knew of them |
| DiscoveryNetwork.LeftoverRunExists | common/AittDiscovery.cc:76-85 | There is a run of seven events after which a node counts one subscription while no connected node has any |
| DiscoveryNetwork.SilentRunExists | common/AittDiscovery.cc:76-85 | There is a run in which a node stops with a subscription and connects again, after which another counts none |
| DiscoveryNetwork.FirstConnectionConverges | src/MQDiscoveryHandler.cc:118-138 | In such runs, at a node that never disconnected, the count is exactly the number of matching subscriptions over all connected nodes |
| DiscoveryNetwork.StepKeeps | common/AittDiscovery.cc:76-183 | Every event keeps own table, stored blobs, retained message and every settled remote view in agreement |
| DiscoveryNetwork.RetainedReflected | common/AittDiscovery.cc:122-163 | The retained messages bring a newly connected view up to date in whatever order they arrive |
| DiscoveryNetwork.NeverStale | common/AittDiscovery.cc:76-85 | Only a node that has stopped before can hold leftovers |
| DiscoveryNetwork.OfflineKeepsView | common/AittDiscovery.cc:76-85 | While a node is stopped its remote table stays as it was |
| DiscoveryHistory.OnlineIff | common/AittDiscovery.cc:42-85 | After any run a client is connected if and only if it has started and neither stopped nor crashed since |
| DiscoveryHistory.HoldsIff | src/MQDiscoveryHandler.cc:93-116 | A client holds a subscription if and only if it has made it and neither withdrawn it nor crashed since; a stop does not end it |
| Encryptor.CryptogramSizeIsPaddedSize | modules/tcp/AESEncryptor.cc:34-38 | GetCryptogramSize is the length of the padded message: whole blocks, 1 to 16 bytes more than the plaintext |
| Encryptor.PadBytes | modules/tcp/AESEncryptorMbedTLS.cc:25-38 | The padded message is the message and 1 to 16 bytes that fill the block, each of them saying how many they are |
| Encryptor.UnpadPad | modules/tcp/AESEncryptorMbedTLS.cc:25-76 | Checking the padding written for a message yields its length and finds the message in front |
| Encryptor.AcceptedIsPadded | modules/tcp/AESEncryptorMbedTLS.cc:65-75 | For padding lengths of one block or less the check accepts exactly the padded messages |
| Encryptor.DecryptEncrypt | modules/tcp/AESEncryptorMbedTLS.cc:25-76 | Decryption of an encrypted message returns the message and its length |
| Encryptor.AESEncryptorMbedTLS.Encrypt | modules/tcp/AESEncryptorMbedTLS.cc:25-50 | The loops produce the encryption of the padded message, of the announced size; -1 without a key |
| Encryptor.AESEncryptorMbedTLS.Decrypt | modules/tcp/AESEncryptorMbedTLS.cc:52-76 | For any input: the decrypted buffer, or the old one for partial blocks; the length its padding tells or -1; and whether the check reads only the buffer |
| Framing.Int32RoundTrip | modules/tcp/TCP.cc:217-228 | A 32-bit header is read back whatever follows it |
| Framing.HeaderPlaces | modules/tcp/TCP.cc:208-219 | A header is its number in two's complement, by place value with the lowest byte first |
| Framing.HeaderValue | modules/tcp/TCP.cc:222-232 | A received header is read by the same places |
| Framing.NormalFrameBytes | modules/tcp/TCP.cc:208-219 | On the wire: the length by places, 0x7FFFFFFF for an empty message, and then the payload as it is |
| Framing.SecureFrameBytes | modules/tcp/TCP.cc:253-281 | On the wire: an encrypted header that announces the size of the encrypted body, or 0x7FFFFFFF for an empty message and no body, each padded before encryption |
| Framing.NormalFrameReadBack | modules/tcp/TCP.cc:208-251 | A plain frame is read back as sent, leaving the rest of the stream, exactly when the payload is at most 268435455 bytes; the sentinel for empty messages collides with no length |
| Framing.NormalStreamReadBack | modules/tcp/TCP.cc:208-251 | Every list of payloads within the limit is read back from the bytes sent for it |
| Framing.CutFrame | modules/tcp/TCP.cc:222-251 | What the receiver gets when the peer closes after k bytes, for every k |
| Framing.SealSize | modules/tcp/TCP.cc:253-281 | The encrypted body fits a message exactly when the payload is at most 268435439 bytes |
| Framing.SecureFrameReadBack | modules/tcp/TCP.cc:253-321 | Payloads up to 268435439 bytes are read back; each longer one that may be published is refused with its body left in the stream |
| Framing.SecureStreamReadBack | modules/tcp/TCP.cc:253-321 | Every list of such payloads is read back from the encrypted stream |
| TcpConnection.TCP.Send | modules/tcp/TCP.cc:117-130 | All bytes go out in order whatever each call takes; a failure leaves a proper prefix |
| TcpConnection.TCP.Recv | modules/tcp/TCP.cc:142-160 | Fills the buffer from the stream whatever each call gives; a closing peer gives -ENOTCONN |
| TcpConnection.TCP.SendSizedDataNormal | modules/tcp/TCP.cc:208-220 | Appends the plain frame to the stream |
| TcpConnection.TCP.RecvSizedDataNormal | modules/tcp/TCP.cc:222-251 | Consumes what the frame parser says, including truncated and refused messages; with failing calls it returns an error or what a header that came through announces |
| TcpConnection.TCP.SendSizedDataSecure | modules/tcp/TCP.cc:253-281 | Appends the encrypted frame to the stream |
| TcpConnection.TCP.RecvSizedDataSecure | modules/tcp/TCP.cc:283-321 | Consumes what the encrypted frame parser says; whatever calls fail, what is returned is a decrypted buffer of the announced size, filled from the stream as far as calls succeeded; reads outside the buffers are told apart |
| TcpPublishTable.TableIsHistory | modules/tcp/Module.cc:259-323 | For every topic and client the table holds port and count of the last mention since the client last left, and nothing when there is none |
| TcpPublishTable.KeyIsHistory | modules/tcp/Module.cc:500-510 | The table holds the key, and the port, of the mention that opened the current stretch of mentions with one port |
| TcpPublishTable.StaleKey | modules/tcp/Module.cc:505-506 | After any history, a mention with a port not held before and another one with the same port: the second is the last mention, and what is held is its port and count with the key of the first |
| TcpPublishTable.ConnectionIsHistory | modules/tcp/Module.cc:500-510 | A connection is cached exactly when one was made and since then the client has not left and has mentioned the topic only with the same port |
| TcpPublishTable.Module.DiscoveryMessageCallback | modules/tcp/Module.cc:259-325 | For an announcement of distinct topics, each entry but "host", in secure mode each before the first malformed one, leaves its topic with its port and callback count as 16-bit values, and with its key if the port is new; no other pair of topic and client changes. The history grows by just these mentions |
| TcpPublishTable.Module.UpdatePublishTable | modules/tcp/Module.cc:489-511 | Adds one mention to the history; the table stays what the history says: a connection stays when the port is the same, otherwise it goes |
| TcpPublishTable.Module.ClientLeft | modules/tcp/Module.cc:262-273 | Adds a leave to the history; the client goes from every topic and from the address table |
| TcpPublishTable.Module.PublishFull | modules/tcp/Module.cc:69-118 | Nobody is sent the message twice, and only hosts of matching topics are; if every one of them is connected or can be, each is connected and sent it exactly once, otherwise the call ends early; only connections that can be made are added to the history |
| TcpPublishTable.Module.CountSubscriber | modules/tcp/Module.cc:513-529 | The nested loops return the sum of the counts over the last mentions in the history whose topic matches |
| TcpPublishTable.CountIsHistory | modules/tcp/Module.cc:513-529 | The sum over hosts of matching topics is the sum over the last mentions of matching pairs since their client last left |
| TcpSubscriptions.Module.Subscribe | modules/tcp/Module.cc:151-188 | The callback comes behind the others of the server of its topic, or with a new server that listens and has no connection; no other server, handle or watch changes; everything is announced. When the socket fails nothing changes |
| TcpSubscriptions.Module.Unsubscribe | modules/tcp/Module.cc:190-232 | Returns the user data. One of several callbacks goes alone: connections, watches, topic, descriptor and the order of the others stay. With the last one its server and exactly the watches of that server go. An unknown handle changes nothing |
| TcpSubscriptions.Module.AcceptConnection | modules/tcp/Module.cc:454-487 | The connection comes behind the others of its server and is watched, and nothing else changes; a closed server gives up its descriptor |
| TcpSubscriptions.Module.HandleClientDisconnect | modules/tcp/Module.cc:402-416 | The connection leaves its server, where the others keep their order, and the watch table, and nothing else changes; a second report changes nothing |
| TcpSubscriptions.Module.UpdateDiscoveryMsg | modules/tcp/Module.cc:325-352 | Announces the number of callbacks of each server |
| TcpSubscriptions.JoinedConserves | modules/tcp/Module.cc:161-163 | Adding a callback keeps every table consistent |
| TcpSubscriptions.OpenedConserves | modules/tcp/Module.cc:164-181 | Opening a server keeps every table consistent |
| TcpSubscriptions.LeftConserves | modules/tcp/Module.cc:204-214 | Removing one of several callbacks keeps every table consistent |
| TcpSubscriptions.ClosedConserves | modules/tcp/Module.cc:216-229 | Closing a server with its connections keeps every table consistent |
| TcpSubscriptions.HandlesAreCallbacks | modules/tcp/Module.cc:151-232 | The number of handles is the sum of the callback list lengths |
| TcpSubscriptions.ConnectionsPartitioned | modules/tcp/Module.cc:402-487 | Client lists are disjoint and with the listening descriptors make up the watched descriptors |
| TcpSubscriptions.AnnouncedCounts | modules/tcp/Module.cc:204-214 | What was announced last adds up to the handles plus the unannounced removals, and is right exactly when there are none |
| TcpSubscriptionHistory.SubscribedIff | modules/tcp/Module.cc:151-232 | After any sequence of operations a callback is subscribed at a server if and only if it joined or opened it and has not left since |
| TcpSubscriptionHistory.OpenIff | modules/tcp/Module.cc:151-232 | A server is open, with its topic and descriptor, if and only if it was opened with these and its last callback has not left since |
| TcpSubscriptionHistory.ServedIff | modules/tcp/Module.cc:402-487 | A connection is watched and listed for a server if and only if it was accepted and neither its peer has gone nor the last callback of the server has left since; other callbacks may come and go |
| AittSubscriptions.CallAgrees | src/AITTImpl.cc:188-327 | A call keeps list, subscribers, discovery table and transports in agreement exactly when the broker refuses no unsubscription it makes |
| AittSubscriptions.RunAgrees | src/AITTImpl.cc:139-327 | After any such sequence of calls the tables agree |
| AittSubscriptions.AgreeingTables | src/AITTImpl.cc:139-289 | Agreement means that the three MQTT tables hold the same handles, each once |
| AittSubscriptions.DataComesBack | src/AITTImpl.cc:255-289 | Unsubscribing returns the user data of the subscription whatever other calls came in between |
| AittSubscriptions.UnsubscribeAgrees | src/AITTImpl.cc:255-289 | Unsubscribe returns the user data and keeps agreement, or reports the refusal and breaks it |
| AittSubscriptions.UnsubscribeAllEmpties | src/AITTImpl.cc:139-164 | UnsubscribeAll empties all tables exactly when the broker refuses nothing; otherwise the list still names deleted records |
| AittSubscriptions.GoneStaysGone | src/AITTImpl.cc:188-289 | A handle given back never returns, whatever calls follow. Handles are counted here; those of the program are addresses, which the allocator may hand out again |
| AittSubscriptions.Impl.Subscribe | src/AITTImpl.cc:188-216 | Fails exactly for an unknown protocol or a refusing broker, and then nothing changes; otherwise the record is listed behind the others and holds protocol and handle, and subscriber and discovery entry, or the entry of the TCP transport, hold topic and user data |
| AittSubscriptions.SubscribedDataComesBack | src/AITTImpl.cc:188-289 | For every protocol: when Subscribe has succeeded, unsubscribing returns the user data passed to it after any calls that do not remove the subscription |
| AittSubscriptions.Impl.Unsubscribe | src/AITTImpl.cc:255-289 | An unknown id is an error that changes nothing; an error from the client or the discovery table leaves the list as it was |
| AittSubscriptions.Impl.UnsubscribeAll | src/AITTImpl.cc:139-164 | The loop releases one subscription after the other until all are gone or one fails |
| AittSubscriptions.Impl.PublishWithReply | src/AITTImpl.cc:292-327 | Subscribes to a reply topic made from the counter, which advances modulo 65536, and publishes it with the request |
| AittSubscriptions.Impl.ReplyCallback | src/AITTImpl.cc:300-310 | A final reply removes the subscription, any other leaves all tables alone |
| AittSubscriptions.Impl.MessageCB | src/AITTImpl.cc:223-238 | A message, whose callbacks only queue calls for the main loop, reaches what the index walk over the subscribers invokes and leaves all tables as they are but for index and flag |
| AittSubscriptions.CalledOnceIff | src/MosquittoMQ.cc:186-203 | A message calls every matching subscriber exactly once and nobody else if and only if the flag is clear or the first subscriber does not match |
| Decimals.StoiToString | src/MosquittoMQ.cc:243-246 | The decimal text of a number is read back, exactly as long as the number is an int |
| Decimals.DigitAtPlace | src/MosquittoMQ.cc:311-318 | The k-th character from the right is the decimal digit of that place |
| Decimals.AllDigits | src/MosquittoMQ.cc:311-318 | No digit is missing and there is no leading zero |
| ReplyTopics.ReplyTopicInjective | src/AITTImpl.cc:296 | Topic and number can be recovered from a reply topic |
| ReplyTopics.ReplyTopicsDiffer | src/AITTImpl.cc:296 | Two requests share a reply topic exactly when they have the same topic and the counter went full circle between them |
| ReplyTopics.ConsecutiveDiffer | src/AITTImpl.h:100 | Any 65536 consecutive requests have pairwise different reply topics |
| Replies.ReplyNumbers | src/AITTImpl.cc:397-417 | For any end flags: replies before the first non-final one carry 0, from there on they count 1, 2, 3, ... |
| Replies.IntendedNumbers | src/AITTImpl.cc:401-403 | A lone final reply carries 0, k replies of which only the last is final carry 1 to k |
| Replies.PropertiesReadBack | src/MosquittoMQ.cc:238-256 | Number and end flag survive the text properties exactly as long as the number is an int, whatever the reader starts from |
| Replies.WrittenText | src/MosquittoMQ.cc:299-336 | A published reply has the reply topic, data and correlation as they are, the number in decimal, and "1" or "0" for the end flag |
| Replies.SendReply | src/AITTImpl.cc:397-417 | Numbers the reply in the request message and publishes number and end flag |
| Replies.PublishReply | src/MosquittoMQ.cc:299-336 | Writes correlation, number and end flag as message properties |
| Replies.Receive | src/MosquittoMQ.cc:209-256 | The loop over the properties yields what the reading function says, and fails when a value is no number |
| ReplyStream.RepliesRouted | src/AITTImpl.cc:292-327 | With any number of requests outstanding, fewer than 65536 apart, in every interleaving in which no MQTT subscription made since the last message is withdrawn before the next one, from a client that starts with the flag clear and the index at no subscription older than the last message, as a new one does: each request's callback sees exactly its own numbered replies, in order and none missing, and its subscription exists exactly until its final reply has been handled |
| ReplyStream.OnceRouted | src/AITTImpl.cc:292-327 | The same, from any state of index and flag, for every interleaving in which no delivery meets the flag set with the request it answers first in the subscriber list |
| ReplyStream.RoutedIff | src/MosquittoMQ.cc:183-207 | What has been seen and is coming is the whole stream of every request at every point of a run if and only if no delivery of the run meets the flag set with the request it answers first in the subscriber list |
| ReplyStream.CalmIsOnce | src/MosquittoMQ.cc:371-378 | If the caller withdraws no MQTT subscription made since the last message before the next one, no delivery meets the flag, whatever is unsubscribed otherwise, by final replies included |
| ReplyStream.DeliverKeepsIff | src/MosquittoMQ.cc:183-207 | A delivery keeps the invariant exactly when it does not meet the flag set with the request it answers in front; otherwise one call too many is on its way for that request |
| ReplyStream.Routed | src/MosquittoMQ.cc:186-203 | A reply on its way queues no call for another request, and for the request it answers two calls if it meets the flag set with that request in front and one otherwise |
| ReplyStream.StepKeeps | src/AITTImpl.cc:218-327 | Requests, sending, deliveries that do not meet the flag with their request in front, other messages, handling and any other call keep, for every request, what has been seen and what is coming equal to its whole stream |
| ReplyStream.SessionsAreRequests | src/AITTImpl.cc:292-311 | The sessions of a run are its requests, in order, with the topics, addresses, correlations and answers of these |
| DoubledReplies.DoubledReply | src/MosquittoMQ.cc:371-378 | From every state that keeps the invariant, with no call waiting and the request that the next message answers first in the list: a subscription made and withdrawn, a message for nobody, such a subscription again, the delivery and two calls are a run after which the callback has seen that reply twice, given an unused address and a topic nobody subscribes to |
| DoubledReplies.DoubledRun | src/MosquittoMQ.cc:371-378 | From the start: the first request of a client without other subscriptions, its first reply delivered, and that run: the callback has seen replies 1, 2 and 2, which is no beginning of its stream |
| ReplyStream.ReplyPlaced | src/AITTImpl.cc:300-310 | Handling a reply removes the subscription of its request exactly when the reply is final, and no other |
| ReplyStream.RequestKeeps | src/AITTImpl.cc:292-311 | A new request gets a subscription of its own and, among the open ones, a reply topic of its own |
| LargeMessage.PushMessageData | android/modules/webrtc/src/main/java/com/samsung/android/modules/webrtc/WebRTCPublisher.java:118-141 | Small messages are sent whole, others as chunks of the compressed form with an end marker; beyond 2147450880 bytes the index overflows and the call fails after the last chunk |
| LargeMessage.SendChunks | android/modules/webrtc/src/main/java/com/samsung/android/modules/webrtc/WebRTCPublisher.java:126-134 | The loop sends exactly the chunks, and fails exactly when the index overflows |
| LargeMessage.WebRTCSubscriber.OnMessage | android/modules/webrtc/src/main/java/com/samsung/android/modules/webrtc/WebRTCSubscriber.java:171-182 | A small buffer on its own is delivered as it is; while collecting, or from a full chunk on, everything but the end marker is appended; the marker delivers what decompression yields and resets the receiver, or changes nothing when decompression fails |
| LargeMessage.WebRTCSubscriber.HandleLargeMessage | android/modules/webrtc/src/main/java/com/samsung/android/modules/webrtc/WebRTCSubscriber.java:241-266 | Collects a chunk, or decompresses at the end marker; a failure keeps what was collected |
| LargeMessage.OneMessage | android/modules/webrtc/src/main/java/com/samsung/android/modules/webrtc/WebRTCSubscriber.java:171-266 | A message is reported as sent, delivered, and the receiver reset again exactly when it is small, or its compressed form fills a chunk, is at most 2147450880 bytes long and does not end with a chunk that reads "EOF" |
| LargeMessage.NotTransmissible | android/modules/webrtc/src/main/java/com/samsung/android/modules/webrtc/WebRTCPublisher.java:118-141 | Inputs for which it fails: a lossless compressor with a message whose compressed form is short, one whose compressed form ends with a chunk that reads "EOF", and one whose compressed form is an array too long for the index, so that the marker is never sent |
| LargeMessage.StreamDelivered | android/modules/webrtc/src/main/java/com/samsung/android/modules/webrtc/WebRTCPublisher.java:118-141 | A stream is delivered message by message exactly when every message is of that kind; then exactly that stream arrives |
| Nv21.CreateNV21Data | android/modules/webrtc/src/main/java/com/samsung/android/modules/webrtc/WebRTCSubscriber.java:292-319 | Fails exactly for odd widths with rows and for luma buffers larger than the image; otherwise the result is the first bytes of the luma buffer followed by the V,U pairs of the packed planes, with as many chroma writes as chroma bytes |
| Nv21.InterleaveRow | android/modules/webrtc/src/main/java/com/samsung/android/modules/webrtc/WebRTCSubscriber.java:311-316 | The inner loop appends the pairs of one row and gets through unless it is the last row of a frame of odd width |
| Nv21.PairsReadBack | android/modules/webrtc/src/main/java/com/samsung/android/modules/webrtc/WebRTCSubscriber.java:310-317 | Every second byte of the chroma area, from either start, is the V or the U plane |
| Nv21.ImageLayout | android/modules/webrtc/src/main/java/com/samsung/android/modules/webrtc/WebRTCSubscriber.java:302-317 | An image is the luma area followed by V and U bytes in turn |
| Nv21.LumaIsPlane | android/modules/webrtc/src/main/java/com/samsung/android/modules/webrtc/WebRTCSubscriber.java:302 | For a luma stride equal to the width the luma area is the plane |
| Nv21.LumaIff | android/modules/webrtc/src/main/java/com/samsung/android/modules/webrtc/WebRTCSubscriber.java:302 | For every stride at least the width: the luma area is the plane for all planes if and only if stride and width are equal, or there is at most one row, or no pixel |
| Nv21.PaddedLumaDiffers | android/modules/webrtc/src/main/java/com/samsung/android/modules/webrtc/WebRTCSubscriber.java:302 | A padded plane of two rows that is copied wrongly |
| FrameHandOff.HandOff | modules/webrtc/RequestServer.cc:43-66 | In every interleaving at most one frame and one marker are queued, the frames handed over are the accepted ones in order and once each but for at most one still queued, and Pop removes what WaitedFront returned |
| FrameHandOff.StepKeepsInvariant | modules/webrtc/RequestServer.cc:35-66 | Every step of producer, worker and Stop keeps queue shape, history and marker accounting |
| FrameHandOff.NeverBlocks | modules/webrtc/RequestServer.cc:35-41 | After Stop has woken the worker it always has an enabled step until it has left, and then it can be joined |
| FrameHandOff.EveryFourthPops | modules/webrtc/RequestServer.cc:56-66 | While the flag is clear every fourth step of the worker is a Pop, with one callback before each |
| FrameHandOff.WaitsOnlyForFrames | modules/webrtc/RequestServer.cc:56-66 | In every reachable state the worker, unless it has left, can take its next step exactly if it is not waiting for an empty queue |
| FrameHandOff.FewStepsAfterStop | modules/webrtc/RequestServer.cc:56-66 | From the moment the flag is set the worker makes at most four steps, with at most one callback and one Pop |
| RequestServerCode.RequestServer.ThreadMain | modules/webrtc/RequestServer.cc:56-66 | Every execution is a run of the machine; it ends when the flag is seen and otherwise only waits |
| RequestServerCode.RequestServer.PushBuffer | modules/webrtc/RequestServer.cc:43-54 | Empty data and frames that meet a non-empty queue are dropped without effect; otherwise the frame is queued, whatever happens between check and push |
| RequestServerCode.RequestServer.Stop | modules/webrtc/RequestServer.cc:35-38 | Flag first, marker second, with anything in between; the marker ends up queued |
| RequestServerCode.SyncQueue.Pop | modules/webrtc/SyncQueue.h:40-44 | The front leaves the queue |
| RequestServerCode.SyncQueue.WakeUpAll | modules/webrtc/SyncQueue.h:67-73 | A default-constructed element is appended |

## Left out

- MessageDispatch.MosquittoMQ.MessageCB: a dispatch inside a callback, callbacks that throw, and null list entries are not modelled. What the code does after the index has gone astray is undefined and not described.
- MessageDispatch.MosquittoMQ.Unsubscribe: an iterator that a growing vector has invalidated is taken to equal no element, although comparing it is undefined. Handles are never reused.
- AittSubscriptions.GoneStaysGone: handles come from a counter here; an address that the allocator hands out again after its record was deleted is not modelled.
- MainLoop.TimerConservation: timers are always delivered, pipes never fill and SetTimer succeeds. The id counter does not overflow, and `AddTimeout` is not entered by two threads at once. A callback whose timeout was removed while it ran, by itself or by another thread, does not ask to be continued: the code would then use the freed record.
- PosixMainLoopCode.PosixMainLoop.AddWatch: the data and event result passed to watch callbacks are not modelled.
- Discovery.MQDiscoveryHandler.DiscoveryMessageCallback: malformed FlexBuffers are not modelled; a blob is the list it encodes.
- DiscoveryNetwork.Convergence: publishing succeeds and the broker delivers every message in order to every connected node; a client that loses its connection without stopping is taken as gone (`Crash`), so the automatic reconnection of a live process is not modelled.
- TcpConnection.TCP.RecvSizedDataSecure: what the code does once a padding check has left its buffer is undefined and not described.
- TcpConnection.TCP.Send: a send call that returns 0 is not modelled, and the exception of a failing one appears as a false result.
- TcpPublishTable.Module.PublishFull: the bytes sent are those of the TCP connection model, and a failing send only skips its host, as in the code. The cipher key is a number.
- AittSubscriptions.Impl.Subscribe: announcing through discovery succeeds. Records leaked by a refusing broker, and a missing main loop, are not modelled.
- AittSubscriptions.Impl.Release: the TCP transport is represented by its table of handles and user data only.
- ReplyStream.RepliesRouted: every stream has its only final reply at the end, no other call removes the subscription of an open request, nobody else publishes on reply topics of open requests, reply topics contain no wildcards, and the broker delivers in order. A message whose properties cannot be read would end the program and is not among the events. Replies over TCP are not covered: a false end flag is not sent with them.
- Decimals.StoiToString: texts with leading blanks or a sign, which the program never writes, are outside the model of `std::stoi`.
- Replies.SendReply: the sequence number is unbounded here and an int in the program; `PropertiesReadBack` gives the bound.
- LargeMessage.PushMessageData: a data channel that refuses a buffer is not modelled.
- Nv21.CreateNV21Data: the rows of the chroma planes are complete.
- RequestServerCode.RequestServer.ThreadMain: the stop flag is seen as soon as it is set, although it is not atomic in the code, and the frame callback is set.
- Starting a request synchronously (PublishWithReplySync): a timed-out one leaves its subscription behind.
- GlibMainLoop, CustomMQ, NullTransport, ModuleManager, the JNI layer, the C API and the Java handlers: thin wrappers.
- RTSP and the stream managers: mostly calls into vendor libraries, with few invariants of their own.
- AittOption, exceptions, message getters, AES and key generation themselves, and memory lifetimes.
