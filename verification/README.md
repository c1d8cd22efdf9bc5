# Aegis: a verified model

Aegis is an encrypted overlay mesh. This project models its session manager, file transfer, routing and gossip,
onion relaying, schedulers and limiters, and text and wire codecs in Dafny, and proves what they promise over
whole runs. `dafny verify dfyconfig.toml` checks everything.

Code that updates state in place is a class or a method with loops, proved equal to a function or relation on
values; the theorems are about those functions and relations, over every input, run or reachable state.

| area | files | main results |
|---|---|---|
| sessions | Replay, SessionTable, SessionLaws, SessionRuns, SessionGrace, SessionManager, Convergence, HandshakePair | table consistency, exact acceptance after any run, streams accepted at the other end, the grace window after a rekey, no frame or nonce twice, no reflected frame, convergence of crossing handshakes |
| file transfer | FileRules, ChunkTracker, SendWindow, SendWindowLaws, SendRuns, FileSendWindow, FileProtocol, FileProgress | completion means the receiver committed the sender's bytes; what is delivered is recorded and acknowledged; exact polling; bounded emission; no stall |
| routing | IpPrefixes, Routes, RouteLaws, RoutingEngine, RouteRuns | longest-prefix lookup, what every operation keeps and drops, freshness, hold-down |
| gossip | PeerTable, PeerMerge, MergeLaws, MergeLearns, MergeStats, PeerTableMerge, Mesh, Advertising, PrefixOrder, GossipBatches, GossipWire, GossipDelta, GossipLaws, GossipTracker | a merged table is learned, an advertisement teaches a neighbour every live route, loop freedom of the mesh, deltas complete and quiet |
| relaying | Frames, Onion, Mtu, RelayLimiter, RelayLaws, RelayForgetting | onion delivery, every frame fits, exact admission, interval rate bounds, each with its exact condition |
| transport | SendQueueClass, SendQueue, HandshakeCookie | exact admission, conservation, exact turn of service, cookie lifetime |
| codecs | Wire, PeerCodec, PeerSpelling, PeerTableCodec, IpText, IpTextLaws, Base64, Base64Laws, Invite | round trips both ways: exactly which bytes and texts are read, and as what |

Modelling choices:

- Cryptography is symbolic. Keys, hashes, MACs, Diffie-Hellman secrets and sealed layers are datatype values;
  opening needs the same key, and distinct inputs give distinct outputs. Ciphertexts have their wire lengths.
- Time is an integer number of milliseconds supplied with each call and never decreasing along a run; in the relay
  limiter it is a real number. Randomness is a parameter; drawn session identities, ephemerals and secrets are fresh.
- Each locked section is one atomic step. Init handling is three steps with anything in between, except that in the
  two-party theorem responses wait until init handling is done, as on the single receive thread. Merging a gossiped
  prefix is three steps, snapshot, removal and addition, with the other threads' routing operations in between; merges
  share the receive thread. The lemmas that speak of an uninterrupted merge are about those steps in a row.
- Sequence numbers on the wire have 32 bits; 64-bit counters and revisions do not wrap.
- Token counts are real numbers. Disk writes and commits succeed or fail at will, and a write may be silently lost.

Some promises need a condition the code does not enforce. Each is stated with its exact condition and a failing case:

- The per-sender rate bound holds if and only if a sender earns back what it can owe before it can be let in again
  (`RelayForgetting.SenderBoundIsExact`).
- The invite round trip fails for prefix lengths above 32 (`Invite.InviteRoundTrip` states both cases).
- Packets within the overlay MTU are framed and delivered if and only if the underlay MTU is at most 4167 bytes and a
  padding bucket (`Mtu.EveryPacketFramed`, `Mtu.JumboPacketLost`); relays that pad more coarsely than the source can
  exceed its underlay (`Mtu.LargestDecides`, `Mtu.CoarseRelayOverflows`).
- A newer advertisement that supersedes an older one is itself installed if and only if the table has room when the
  addition runs; a direct install may have taken the freed slot (`RouteRuns.NewerNeverLost`, `RouteRuns.SlotTaken`).

## Model

| member | source | states |
|---|---|---|
| Replay.CheckIsExact | src/session/session.cpp:474-489 | The 2048-bit window accepts a number exactly when the full history does: never recorded, and above the highest recorded minus 2048. |
| Replay.UpdateRecords | src/session/session.cpp:491-501 | Shifting or setting a bit turns a window for a history into a window for that history plus the new number. |
| Replay.WindowRefinesHistory | src/session/session.cpp:474-501 | Over any sequence of arrivals the window accepts exactly what unbounded memory would accept, and nothing twice. |
| SessionTable.RetireBounded | src/session/session.cpp:75-96 | Retiring drops expired entries, evicts only the oldest live one and only at capacity, keeps every other entry, and never exceeds the capacity. |
| SessionTable.CreateKeepsInv | src/session/session.cpp:51-73 | Installing a session, with or without one to supersede, keeps the active maps inverse, the identities disjoint and the capacities. |
| SessionTable.CreateInitKeepsInv | src/session/session.cpp:269-318 | Starting a handshake keeps the table invariant, whether it is admitted or refused. |
| SessionTable.InitCommitKeepsInv | src/session/session.cpp:396-427 | The last critical section of init handling keeps the invariant in any table it may find. |
| SessionTable.HandleResponseKeepsInv | src/session/session.cpp:429-472 | Handling a response, accepted or not, keeps the table invariant. |
| SessionTable.RemoveKeepsInv | src/session/session.cpp:154-180 | Teardown keeps the table invariant. |
| SessionTable.RemoveLeavesNothing | src/session/session.cpp:154-180 | Teardown leaves no active, retired or pending entry of the peer. |
| SessionTable.RemoveSparesOthers | src/session/session.cpp:154-180 | Teardown takes nothing from any other peer. |
| SessionTable.AdmitOnlyForgets | src/session/session.cpp:334-346 | The first critical section of init handling changes the table only by forgetting. |
| SessionTable.DecideOnlyForgets | src/session/session.cpp:364-394 | The second critical section changes it only by forgetting, and noting the frame. |
| SessionTable.DecryptKeepsInv | src/session/session.cpp:618-668 | Taking a frame keeps the table invariant, for active and retired sessions. |
| SessionTable.EncryptKeepsInv | src/session/session.cpp:504-536 | Sealing a frame keeps the table invariant; a payload that cannot be framed draws no sequence number. |
| SessionLaws.FoundExactly | src/session/session.cpp:106-119 | An identity finds its active session, else its retired one, and nothing exactly when it has neither. |
| SessionLaws.OpenedExactly | src/session/session.cpp:581-668 | A frame is accepted if and only if its size is its length and prefix rounded up to one of the four buckets and some session the node holds, active or retired, has its identity and key, is the other end, and leaves its number open. |
| SessionLaws.SealsExactly | src/session/session.cpp:504-536 | A frame is sealed if and only if the bucket is supported, the payload at most 4092 bytes and the peer has a session; it takes the next number, and a refusal takes none. |
| SessionLaws.SealedIsAccepted | src/session/session.cpp:504-668 | What one end seals the other end accepts, as long as it holds its end, has not taken the number and has not moved 2048 past it. |
| SessionLaws.StreamIsAccepted | src/session/session.cpp:504-668 | Any stream of payloads sealed at one end and delivered in order is accepted whole at the other. |
| SessionLaws.StartsExactly | src/session/session.cpp:269-318 | A handshake starts if and only if its identity is nonzero and unused, the key is the peer's own and a pending slot is free; then the frame and the pending entry are these. |
| SessionLaws.AdmitsExactly | src/session/session.cpp:334-346 | The first section admits an init if and only if it is of this network, under its own identity, and neither it nor its identity is known. |
| SessionLaws.ReplayIsRefused | src/session/session.cpp:334-375 | A noted init is refused by the first and the second section until its note runs out. |
| SessionLaws.DecidesExactly | src/session/session.cpp:364-394 | The second section goes on if and only if the frame opens, is not noted, the lower identity has no handshake or session of its own, and there is room; it notes the frame and gives up at most the one pending handshake it yields. |
| SessionLaws.CommitsExactly | src/session/session.cpp:396-427 | The third section installs the session and answers if and only if the identity is still unused and there is room. |
| SessionLaws.ResponseTakenExactly | src/session/session.cpp:429-472 | A response is taken if and only if it answers a pending handshake in time, the peer's own session does not take precedence, and there is room; it always uses up the pending entry. |
| SessionRuns.EveryTableConsistent | src/session/session.cpp:51-472 | In every reachable table, with other calls between the three critical sections of init handling, the active maps are inverse, the identities pairwise disjoint and the capacities respected. |
| SessionRuns.TeardownIsComplete | src/session/session.cpp:154-180 | After any run a teardown leaves nothing of the peer and everything of the others. |
| SessionRuns.CreateKeepsSlots | src/session/session.cpp:51-73 | A rekey moves the superseded session, window and counters unchanged, and starts the new one afresh. |
| SessionRuns.SendTouchesOneSlot | src/session/session.cpp:526-536 | Sealing advances one send counter by one and touches no other session. |
| SessionRuns.NoFrameDeliveredTwice | src/session/session.cpp:618-649 | Over any run, rekeys and evictions included, no session takes one sequence number twice. |
| SessionRuns.NoNonceUsedTwice | src/session/session.cpp:536-545 | Over any run no send key seals two frames with one nonce. |
| SessionRuns.AcceptanceIsExact | src/session/session.cpp:581-668 | After any run a frame is accepted if and only if its payload is padded as the format says and some session in the active or the retired map has its identity and key, is the other end, never took its number and has not moved 2048 past it. |
| SessionRuns.ReflectionRefused | src/session/session.cpp:31-39 | No run ever takes a frame the node sealed itself, in that session or any other, as long as nobody else presents an ephemeral the node drew. |
| SessionGrace.RekeyRetires | src/session/session.cpp:51-96 | A rekey moves the superseded session, window and all, to the retired map until the grace window ends. |
| SessionGrace.NextSparesRetired | src/session/session.cpp:75-190 | Only a purge or rekey at or after its expiry, a rekey in a full map of which it is the oldest, or the teardown of its peer can cost a retired session its place. |
| SessionGrace.GraceIsKept | src/session/session.cpp:51-119 | After a rekey with room for retired sessions, in any run without such an operation, an unseen frame of the superseded session within its window is accepted. |
| SessionManagers.SessionManager.PurgeRetired | src/session/session.cpp:182-190 | Keeps the invariant; the loop removes exactly the expired retired sessions. |
| SessionManagers.SessionManager.PurgeIncompleteHandshakes | src/session/session.cpp:212-221 | Keeps the invariant; the loop removes exactly the expired pending handshakes. |
| SessionManagers.SessionManager.PurgeHandshakeReplays | src/session/session.cpp:240-249 | Keeps the invariant; the loop removes exactly the expired replay notes. |
| SessionManagers.SessionManager.RetireSession | src/session/session.cpp:75-96 | In place, retiring is the function `RetireBounded` is about. |
| SessionManagers.SessionManager.CreateAndInstall | src/session/session.cpp:51-73 | In place, installing a session is the table function proved above. |
| SessionManagers.SessionManager.RemoveSession | src/session/session.cpp:154-180 | In place, teardown is the table function proved above and keeps the invariant. |
| SessionManagers.SessionManager.CreateHandshakeInit | src/session/session.cpp:269-318 | In place, starting a handshake is the table function proved above, frame included, and keeps the invariant. |
| SessionManagers.SessionManager.AdmitInit | src/session/session.cpp:334-346 | In place, the first section of init handling is the table function proved above and keeps the invariant. |
| SessionManagers.SessionManager.DecideInit | src/session/session.cpp:364-394 | In place, the second section is the table function proved above and keeps the invariant. |
| SessionManagers.SessionManager.CommitInit | src/session/session.cpp:396-427 | In place, the third section is the table function proved above, response included, and keeps the invariant. |
| SessionManagers.SessionManager.HandleHandshakeResponse | src/session/session.cpp:429-472 | In place, response handling is the table function proved above and keeps the invariant. |
| SessionManagers.SessionManager.EncryptMessage | src/session/session.cpp:504-580 | In place, sealing is the table function proved above, size limits included, and keeps the invariant. |
| SessionManagers.SessionManager.DecryptMessage | src/session/session.cpp:581-668 | In place, opening is the table function proved above, with the padding checks after the window has moved; it accepts exactly the properly padded frames meant for a session it holds, and keeps the invariant. |
| Convergence.StartView | src/session/session.cpp:269-318 | Seen between two peers, a start only sets the waiting flag and sends the frame. |
| Convergence.DecideView | src/session/session.cpp:364-394 | The tie-break yields exactly when the lower identity holds or awaits its own session; the other end gives up waiting. |
| Convergence.CommitView | src/session/session.cpp:396-427 | A commit installs the initiator's identity and the key both ends derive. |
| Convergence.ResponseView | src/session/session.cpp:429-472 | A response installs the initiator's session unless it stopped waiting or must keep the lower end's. |
| HandshakePair.HostFollowsView | src/session/session.cpp:269-472 | Two full session tables and their two-party views take the same steps and send the same messages. |
| HandshakePair.SimultaneousInitiationConverges | src/session/session.cpp:320-472 | However two first handshakes cross, and however messages are delayed, reordered and duplicated, once all are handled both ends hold one session with one key, the lower identity's whenever it started. |
| FileRules.CutsFitHeader | src/file/transfer.cpp:351-362 | Every index below the chunk count starts inside the file and has the full size, or the rest in the last chunk. |
| FileRules.ChunkCountBounded | src/file/transfer.cpp:351-362 | An accepted file never has more chunks than the protocol maximum. |
| FileRules.LastCutEndsFile | src/file/transfer.cpp:351-362 | The last chunk ends where the file ends. |
| FileRules.RegionsApart | src/file/transfer.cpp:379-393 | The regions of different chunks do not overlap. |
| FileRules.PositionHasChunk | src/file/transfer.cpp:351-362 | Every byte position lies in some chunk. |
| FileRules.SenderCutsFit | src/tunnel/tunnel.cpp:2239-2254 | What the sender cuts passes the receiver's check. |
| FileRules.HeaderExactly | src/file/transfer.cpp:351-369 | A header is valid if and only if its sizes are within the limits, its chunks just cover the file and its name is safe. |
| FileRules.FitsExactly | src/file/transfer.cpp:371-393 | A chunk fits a valid header if and only if it is of this transfer, below the count, and as long as its place in the file. |
| ChunkTracker.FileChunkTracker.Reset | src/file/transfer.cpp:43-50 | A reset within bounds starts an empty record. |
| ChunkTracker.FileChunkTracker.Record | src/file/transfer.cpp:52-63 | Records a chunk once, with the count in step; duplicates and bad indices change nothing. |
| ChunkTracker.FileChunkTracker.Remove | src/file/transfer.cpp:65-77 | Takes a recorded chunk back, with the count in step. |
| ChunkTracker.FileChunkTracker.Complete | src/file/transfer.cpp:83-85 | Complete exactly when every chunk is recorded. |
| ChunkTracker.FileChunkTracker.AllRanges | src/file/transfer.cpp:87-120 | Lists maximal received runs in order, all of them up to the limit. |
| ChunkTracker.FileChunkTracker.RangesFor | src/file/transfer.cpp:87-120 | Lists the leading run and the run of the chunk just received, each complete. |
| ChunkTracker.RunsAreEncodable | src/file/transfer.cpp:483-512 | Every list of runs within the limit is one the acknowledgement encoder accepts. |
| ChunkTracker.CountFull | src/file/transfer.cpp:83-85 | A full count means every chunk is there, and only then. |
| SendWindow.PollKeepsInv | src/file/transfer.cpp:147-191 | A poll keeps every chunk acknowledged, in flight or still to come, the window bound and the retry bound. |
| SendWindow.AckKeepsInv | src/file/transfer.cpp:193-220 | An acknowledgement keeps the same invariant and never loses an acknowledged chunk. |
| SendWindow.NeverStalls | src/file/transfer.cpp:147-191 | After a poll with the header received the window is complete, failed, or has a chunk in flight. |
| SendWindow.AckedNeverResent | src/file/transfer.cpp:169-190 | A poll sends no acknowledged chunk and none twice. |
| SendWindow.LastSampleDecides | src/file/transfer.cpp:193-220 | The timeout is twice the time of the last chunk, in the order of the ranges, that was sent once and not acknowledged before, clamped to the limits. |
| SendWindow.NoSampleKeeps | src/file/transfer.cpp:201-220 | Ranges that give no sample leave the timeout as it was. |
| SendWindowLaws.HeaderPollExact | src/file/transfer.cpp:147-166 | Until the header is acknowledged a poll sends it if and only if it was never sent, or is overdue with a retry left, and fails if and only if it is overdue without one. |
| SendWindowLaws.ChunkPollFails | src/file/transfer.cpp:168-179 | With the header acknowledged a poll fails if and only if an overdue chunk is out of retries, and then sends nothing. |
| SendWindowLaws.ChunkPollResends | src/file/transfer.cpp:168-179 | Otherwise every overdue chunk is sent again, with its time and count, and no other chunk in flight. |
| SendWindowLaws.ChunkPollFills | src/file/transfer.cpp:180-190 | New chunks are sent in order, every one not acknowledged, until the window is full or the file is through. |
| SendWindowLaws.PollActs | src/file/transfer.cpp:147-191 | Once everything outstanding is overdue, a poll of a transfer under way sends something or fails. |
| SendWindowLaws.AckExact | src/file/transfer.cpp:193-220 | An acknowledgement marks exactly the chunks in its ranges, takes exactly those out of flight, and completes the transfer exactly when that leaves none. |
| SendRuns.EmissionBounded | src/file/transfer.cpp:147-220 | Over any run at most (1 + retry limit) x (chunks + 1) frames are emitted, and each frame at most 1 + retry limit times. |
| FileSendWindows.FileSendWindow.Reset | src/file/transfer.cpp:125-145 | Starts the window for valid settings and refuses the others unchanged. |
| FileSendWindows.FileSendWindow.Poll | src/file/transfer.cpp:147-191 | In place, a poll takes the step that the exact laws of `SendWindowLaws` are about. |
| FileSendWindows.FileSendWindow.Acknowledge | src/file/transfer.cpp:193-220 | In place, an acknowledgement takes the step the lemmas are about, with exactly the timeout they describe. |
| FileSendWindows.FileSendWindow.ObserveRtt | src/file/transfer.cpp:226-235 | The timeout is twice the sample, clamped. |
| FileProtocol.ReceiveKeepsEntry | src/tunnel/tunnel.cpp:1200-1273 | Whatever the disk and the commit do, the record only grows from step to step, and is complete only once the file is committed. |
| FileProtocol.ReceiveKeepsDisk | src/tunnel/tunnel.cpp:1225-1241 | While no write is silently lost, every recorded chunk is on disk with the sender's bytes. |
| FileProtocol.CompleteDiskIsFile | src/tunnel/tunnel.cpp:1248-1254 | A complete record without lost writes means the part file is the sender's file. |
| FileProtocol.RunKeepsOk | src/tunnel/tunnel.cpp:1105-1308 | Over a channel that loses, duplicates and reorders, every acknowledged chunk is recorded at the receiver, in every reachable state. |
| FileProtocol.CompletionMeansCommitted | src/tunnel/tunnel.cpp:1200-1273 | When the sender sees completion the receiver has recorded every chunk, its commit returned Committed, and the committed bytes are the sender's file; failed commits and un-recorded last chunks included. |
| FileProtocol.IntactFilesVerify | src/file/transfer.cpp:296-314 | While no write is silently lost, size and digest checks never fail, and a commit fails only when the filesystem does. |
| FileProgress.AcknowledgedExactly | src/tunnel/tunnel.cpp:1200-1273 | A chunk is acknowledged if and only if it fits the header and was recorded before or its block was not refused. |
| FileProgress.RecordedExactly | src/tunnel/tunnel.cpp:1225-1254 | A chunk recorded before changes nothing on disk, a new one is written at its offset, a refused one is not recorded, and no other chunk's record changes. |
| FileProgress.CommitExactly | src/file/transfer.cpp:296-314 | A file is committed if and only if size and digest agree and the filesystem does its part; any other result names the first step that failed. |
| FileProgress.DeliveredIsAcknowledged | src/tunnel/tunnel.cpp:1200-1285 | After any run without a lost write, delivering a chunk of the sender with a written block and a smooth commit leaves it recorded and a covering acknowledgement on the wire, first delivery or not. |
| FileProgress.HeaderIsAcknowledged | src/tunnel/tunnel.cpp:1105-1198 | An admitted header is acknowledged every time it comes, and starts an empty record the first time only. |
| FileProgress.SentIsOnWire | src/tunnel/tunnel.cpp:2239-2254 | Everything a poll decides to send goes out, each chunk with the bytes of its region. |
| FileProgress.FullRecordCompletes | src/tunnel/tunnel.cpp:1200-1308 | Once every chunk is recorded, the acknowledgement of any further chunk covers the file and completes the sender's window. |
| IpPrefixes.MaskIsShift | include/aegis/net/ip_address.hpp:200-203 | The mask of the partial byte is the shifted constant. |
| IpPrefixes.Canonicalize | include/aegis/net/ip_address.hpp:195-209 | In place, clears exactly the bits behind the prefix. |
| IpPrefixes.CanonicalBit | include/aegis/net/ip_address.hpp:195-209 | Bit by bit: the canonical prefix keeps the leading bits and zeroes the rest. |
| IpPrefixes.CanonicalIsFixed | include/aegis/net/ip_address.hpp:195-209 | Canonicalising is idempotent. |
| IpPrefixes.CanonicalNamesTheBits | include/aegis/net/ip_address.hpp:195-209 | Two addresses have one canonical prefix exactly when their leading bits agree. |
| IpPrefixes.Contains | include/aegis/net/ip_address.hpp:211-224 | The byte-and-mask comparison decides bitwise containment, both ways. |
| IpPrefixes.CoversIsCanonicalEquality | include/aegis/net/ip_address.hpp:195-224 | Containment is equality of canonical prefixes. |
| Routes.AddKeepsTable | src/routing/routing.cpp:24-96 | An add keeps every stored route acceptable, candidates distinct, at most eight per prefix and the table bound. |
| Routes.AddExactly | src/routing/routing.cpp:62-95 | An accepted add replaces exactly the candidate it refreshes and touches no other. |
| Routes.KeptExactly | src/routing/routing.cpp:98-130 | A removal drops exactly the routes that match. |
| Routes.KeptKeepsTable | src/routing/routing.cpp:98-130 | Removals keep the table invariant. |
| Routes.KeptFreesRoom | src/routing/routing.cpp:105-120 | Removing a candidate of a prefix makes room under that prefix. |
| Routes.ProbedKeepsTable | src/routing/routing.cpp:132-211 | Probe results keep the table invariant. |
| Routes.BestIsFirstBest | src/routing/routing.cpp:218-249 | The scan ends at the first usable candidate that no other beats; `LookupIsLongestMatch` says which one that is. |
| Routes.LookupIsExact | src/routing/routing.cpp:218-267 | In every table in order lookup returns that candidate, and none exactly when there is none: the path re-check never fires. |
| Routes.LookupIsLongestMatch | src/routing/routing.cpp:218-267 | Lookup returns the one candidate with the longest prefix that holds the address and is not suppressed; at equal length a direct one before any relay, of relays the one with the shortest path, and of equals the first; and none exactly when none holds the address. |
| RouteLaws.AcceptedShape | src/routing/routing.cpp:24-60 | What an accepted route looks like, field by field: family, length, lease, metric, and a loop-free path from the next hop to the destination. |
| RouteLaws.AddAccepts | src/routing/routing.cpp:62-95 | An acceptable route is taken if and only if it refreshes a held candidate or there is room, eight to a prefix. |
| RouteLaws.AddStores | src/routing/routing.cpp:62-95 | It is stored as given, with the probe state of the candidate it refreshes exactly at the same sequence number, and every other route is kept. |
| RouteLaws.RemovedLeavesNone | src/routing/routing.cpp:98-103 | Removing a peer leaves no route to or through it, and every other route. |
| RouteLaws.ExpiryExactly | src/routing/routing.cpp:122-130 | Expiry drops exactly the learned routes whose lease, in seconds, has passed since they were validated. |
| RouteLaws.OutdatedExactly | src/routing/routing.cpp:105-120 | The older learned routes of one origin and prefix go, and nothing else. |
| RouteLaws.KeptInOrder | src/routing/routing.cpp:98-130 | What is left keeps its order, so ties are decided as before. |
| RouteLaws.ProbeMeetsOne | src/routing/routing.cpp:132-211 | A probe event changes the probe state of the one candidate it names, as the event says, and nothing else. |
| RoutingEngines.RepeatsNoHop | src/routing/routing.cpp:38-41 | The set-based walk decides whether a path repeats a hop. |
| RoutingEngines.RoutingEngine.AddRoute | src/routing/routing.cpp:24-96 | In place, adds as `AddKeepsTable` and `AddExactly` describe, and says whether it did. |
| RoutingEngines.RoutingEngine.RemoveRoute | src/routing/routing.cpp:98-103 | In place, removes the routes to or through a peer. |
| RoutingEngines.RoutingEngine.RemoveOlderLearnedRoutes | src/routing/routing.cpp:105-120 | In place, removes the older learned routes of one origin and prefix, and counts them. |
| RoutingEngines.RoutingEngine.ExpireLearnedRoutes | src/routing/routing.cpp:122-130 | In place, removes the routes whose lease has run out, and counts them. |
| RoutingEngines.RoutingEngine.RecordProbe | src/routing/routing.cpp:132-211 | In place, applies one probe event to the matching candidate only. |
| RoutingEngines.RoutingEngine.FindRoute | src/routing/routing.cpp:218-267 | The loop computes the lookup that `LookupIsLongestMatch` and `LookupIsExact` are about. |
| RouteRuns.EveryTableFresh | src/peer/peer_table.cpp:238-281 | Over any run of direct installs, removals, expiries, probes and the three locked sections of merges, in any interleaving, the table stays in order and its learned routes carry one sequence number per origin and prefix. |
| RouteRuns.DirectInstalled | src/tunnel/tunnel.cpp:391-406 | With room, a direct install leaves a one-hop route to the peer over the prefix and takes no route of anybody else away. |
| RouteRuns.Uninterrupted | src/peer/peer_table.cpp:238-281 | With nothing in between, snapshot, removal and addition are the merge of one prefix. |
| RouteRuns.SectionsNeverLower | src/peer/peer_table.cpp:238-281 | No section of a merge lowers the number held for any entry, but for the removal and its own entry. |
| RouteRuns.NewerNeverLost | src/peer/peer_table.cpp:238-281 | Whatever other threads do meanwhile, a strictly newer advertisement for a held entry supersedes all that was held; it is installed if and only if the table has room when the addition runs, which it has unless a direct install came after the snapshot, and otherwise the entry is empty. |
| RouteRuns.SlotTaken | src/peer/peer_table.cpp:274-281 | The failing schedule: in a table of one, a direct install between removal and addition takes the slot and the entry is lost. |
| RouteRuns.SameNumberKeepsProbe | src/routing/routing.cpp:68-80 | Adding a route for a held candidate keeps its suppression if and only if it carries the same sequence number. |
| RouteRuns.AddKeepsSuppressed | src/routing/routing.cpp:68-80 | A refresh at the same sequence number keeps a candidate suppressed. |
| RouteRuns.HoldDownLasts | src/routing/routing.cpp:187-211 | For thirty seconds after a failed probe a candidate that stays in the table at its sequence number is not used, however it is refreshed at that number or probed. |
| RouteRuns.SuccessAfterHoldDownLifts | src/routing/routing.cpp:154-185 | After a success a candidate is suppressed exactly when it was and the hold-down has not passed. |
| PeerTable.HighestIsMaximum | src/peer/peer_table.cpp:241-249 | The scan finds the highest sequence number held for an origin and prefix. |
| PeerTable.MergeEffect | src/peer/peer_table.cpp:209-282 | An uninterrupted merge of a prefix leaves the table alone or installs exactly its own candidate in place of what it refreshes or outdates. |
| PeerTable.MergeKeepsFresh | src/peer/peer_table.cpp:238-281 | An uninterrupted merge keeps one sequence number per origin and prefix and never lowers any. |
| PeerTable.SupersededMakeRoom | src/peer/peer_table.cpp:274-281 | Removing the superseded candidates itself frees the room the new one needs. |
| PeerTable.NoRoomChangesNothing | src/peer/peer_table.cpp:274-281 | When an uninterrupted merge finds no room, nothing was removed either. |
| MergeLaws.OutcomeExactly | src/peer/peer_table.cpp:209-282 | What becomes of a record along a good path: refused if malformed, stale if a newer number is held, conflicting or refreshed if the same hop already carries this number with another or the same path and metric, and otherwise installed if and only if an older candidate makes way or there is room. |
| MergeLaws.InstalledAsAdvertised | src/peer/peer_table.cpp:209-236 | What is installed or refreshed is the record itself: its prefix, number and lease, through the sender along its path, one metric farther, validated now. |
| MergeLaws.PrefixIsLearned | src/peer/peer_table.cpp:209-282 | With room for one more, merging a good record along a good path leaves the node at its number or beyond. |
| MergeLaws.NoPathTeachesNothing | src/peer/peer_table.cpp:196-236 | Along a path that does not end at the peer, visits this node or repeats a hop, nothing is learned. |
| PeerMerge.UpsertKeepsIdentities | src/peer/peer.cpp:23-61 | An upsert from gossip never changes a bound key, never changes trust, and adds only identities that hash from their key. |
| PeerMerge.UpsertExactly | src/peer/peer.cpp:23-61 | An upsert is refused exactly over another bound key or for want of room; otherwise the peer is there with its key, its trust only ever added to, and no other peer changes. |
| PeerMerge.MergeIsSafe | src/peer/peer_table.cpp:150-288 | Merging any table, however forged, with nothing between its sections, keeps the routing table in order and fresh, lowers no sequence number, and keeps identities bound; what it teaches is stated by `MergeLearns`. |
| MergeLearns.PeersAreLearned | src/peer/peer_table.cpp:156-188 | After a merge every well-formed entry about somebody else that contradicts no bound key is a known peer under its own key, unless the peer table is full. |
| MergeLearns.RoutesAreLearned | src/peer/peer_table.cpp:190-288 | After a merge with room for the whole table, the number held for every good record of such an entry along a good path is at least the advertised one, whatever the other entries say. |
| MergeLearns.TableUses | src/peer/peer_table.cpp:150-288 | A merge takes at most one place for every record, and under a prefix one for every record that concerns it. |
| MergeStats.RefusedEntry | src/peer/peer_table.cpp:156-184 | A malformed entry, one against a bound key and one that finds the peer table full each change exactly their own counter and nothing else. |
| MergeStats.AcceptedEntry | src/peer/peer_table.cpp:185-288 | Any other entry counts as accepted, as changed exactly when its key is new, as malformed once if its path or one of its records is bad, and each record once under what became of it. |
| PeerTableMerge.PeerManager.UpsertPeer | src/peer/peer.cpp:23-61 | In place, the upsert that `UpsertKeepsIdentities` is about. |
| PeerTableMerge.HighestSequence | src/peer/peer_table.cpp:241-249 | The loop computes the highest held number. |
| PeerTableMerge.CheckPath | src/peer/peer_table.cpp:196-206 | The loop decides whether the path ends at the peer, avoids this node and repeats no hop. |
| PeerTableMerge.MergeAdvertisedPrefix | src/peer/peer_table.cpp:209-282 | In place, one prefix is merged as `MergeEffect` describes, outcome included. |
| PeerTableMerge.MergePeerTable | src/peer/peer_table.cpp:150-288 | In place, the loops over peers and prefixes compute the merge that `MergeIsSafe` and `MergeLearns` are about, with the statistics of `MergeStats`. |
| Mesh.BuildEntry | src/tunnel/tunnel.cpp:1947-1974 | The loop takes the path of the first live route to a peer and the prefixes of all of them. |
| Mesh.BuildAdvertisedPeers | src/tunnel/tunnel.cpp:1922-1978 | The advertisement lists this node first and one entry per other known peer, each drawn from the routing table. |
| Mesh.LiveLeaseIsValid | src/tunnel/tunnel.cpp:1955-1966 | A live route is advertised with its remaining lease, between one second and the maximum, ending less than a second after its own. |
| Advertising.EntryTellsAll | src/tunnel/tunnel.cpp:1947-1974 | The entry for a peer announces every live route to it with the rest of its lease, and nothing else, under the path of the first. |
| Advertising.EveryEntryTellsAll | src/tunnel/tunnel.cpp:1922-1978 | The node's own entry comes first, and every other one is for another peer it knows and tells everything of it. |
| Advertising.EveryPeerHasEntry | src/tunnel/tunnel.cpp:1940-1978 | Every other peer the node knows has an entry. |
| Advertising.NeighbourLearns | src/tunnel/tunnel.cpp:1922-1978 | A neighbour that merges the advertisement learns every live route whose entry is not about itself, contradicts none of its keys and avoids it on its path: with room it ends at the route's number or beyond. |
| Mesh.AdvertisedHonest | src/tunnel/tunnel.cpp:1950-1974 | An entry with prefixes carries a path of the advertiser's own that runs over established sessions. |
| Mesh.ThroughSenderSound | src/peer/peer_table.cpp:196-207 | Prefixing the sender to an honest path that passes the checks gives a sound path. |
| Mesh.SnapshotSound | src/peer/peer_table.cpp:190-281 | Whatever the snapshot section of a merge plans from honest gossip of a session peer runs along a sound path. |
| Mesh.LocalSound | src/tunnel/tunnel.cpp:391-406 | Direct installs, removals, expiries, probes and the later sections of a merge keep every stored and planned path sound. |
| Mesh.MeshIsLoopFree | src/peer/peer_table.cpp:190-236 | In every reachable mesh of nodes running this code, with other threads between the sections of every merge and gossip lost, delayed, duplicated, reordered and split, every stored path repeats no hop, avoids its node, ends at its destination, and runs over sessions that were established. |
| PrefixOrder.LessTotal | include/aegis/peer/peer_table.hpp:42-54 | Records are totally ordered. |
| PrefixOrder.SortUniqueForgetsOrder | src/peer/gossip.cpp:14-20 | The canonical record list depends exactly on which records there are. |
| GossipBatches.PartsRebuild | src/peer/gossip.cpp:130-151 | The parts of an advertisement, end to end, are its prefixes in order, at most sixteen at a time. |
| GossipBatches.PartAt | src/peer/gossip.cpp:138-151 | The slice arithmetic of the loop gives those parts. |
| GossipBatches.BatchesCarryTheStream | src/peer/gossip.cpp:109-180 | The batches, end to end, are every chunk of every fitting advertisement once and in order, and each batch is nonempty, serializable and within the limit. |
| GossipBatches.DoneMeansSent | src/peer/gossip.cpp:163-176 | A revision is marked complete only with the last of its chunks. |
| GossipBatches.FittingCompletes | src/peer/gossip.cpp:163-176 | Every advertisement that fits is completed in some batch. |
| GossipBatches.CutChunks | src/peer/gossip.cpp:130-159 | The loop cuts an advertisement, or finds that a chunk does not fit. |
| GossipBatches.MakeGossipBatches | src/peer/gossip.cpp:109-180 | The loops compute those batches. |
| GossipWire.TableSizeIsEncoded | src/peer/peer_table.cpp:14-26 | The size the batches are packed by is the number of bytes the encoder produces. |
| GossipWire.SerializableIsEncodable | src/peer/peer_table.cpp:9-66 | A table counts as serializable exactly when the serializer accepts it. |
| GossipWire.BatchesEncode | src/tunnel/tunnel.cpp:1990-2001 | The serializer accepts every batch, and its encoding stays within the limit. |
| GossipTrackers.GossipDeltaTracker.Prepare | src/peer/gossip.cpp:23-73 | Unchanged advertisements keep their revision, changed ones get new ones of their own, what is gone is forgotten, and exactly the due ones are listed. |
| GossipTrackers.GossipDeltaTracker.CommitRevisions | src/peer/gossip.cpp:75-84 | Recorded revisions only rise. |
| GossipTrackers.GossipDeltaTracker.RetainRecipients | src/peer/gossip.cpp:86-95 | The erase loop forgets exactly the recipients not given and keeps every revision remembered of the others, so it is one of the forgetting steps of `DeltaIsComplete`. |
| GossipTrackers.GossipDeltaTracker.Reset | src/peer/gossip.cpp:97-102 | Everything is forgotten and numbering starts again. |
| GossipDelta.PrepareKeepsNumbered | src/peer/gossip.cpp:33-48 | A revision stands for one exact content, for ever. |
| GossipDelta.CommitKeepsSent | src/tunnel/tunnel.cpp:1998-2014 | With batches sent in order up to the first failure, a recorded revision has had every chunk handed to the transport. |
| GossipDelta.DeltaIsComplete | src/peer/gossip.cpp:60-72 | After any run, with recipients forgotten at any time, a delta omits a peer only if every chunk of its present advertisement, prefix by prefix and under its path and key, was already handed over for that recipient. |
| GossipDelta.FullSendSettles | src/tunnel/tunnel.cpp:1986-2014 | Once every batch has gone out only advertisements too large to send remain due. |
| GossipLaws.CanonicalExactly | src/peer/gossip.cpp:14-20 | Canonicalising keeps the peer, its path and which records it has, in ascending order once each. |
| GossipLaws.LastEntryIsWanted | src/peer/gossip.cpp:29-31 | Of several entries for one node the last one counts. |
| GossipLaws.PrepareRemembers | src/peer/gossip.cpp:50-58 | What a recipient was sent of a node is remembered if and only if the node is still advertised. |
| GossipLaws.ListedExactly | src/peer/gossip.cpp:60-72 | An update lists every node if forced, and otherwise exactly those whose present revision the recipient was not sent. |
| GossipLaws.QuietWhenSettled | src/peer/gossip.cpp:23-84 | Once every batch has gone out, the next update does not repeat an advertisement that fits and has not changed. |
| Wire.DecodeEncode | include/aegis/protocol/wire.hpp:23-51 | A number that fits its field is read back from its bytes. |
| Wire.EncodeDecode | include/aegis/protocol/wire.hpp:23-51 | The bytes of a field are those of the number read from them: no two read the same. |
| Wire.WireReader.ReadBytes | include/aegis/protocol/wire.hpp:53-60 | A read takes the next bytes, or fails and leaves the cursor. |
| Wire.WireReader.ReadNumber | include/aegis/protocol/wire.hpp:16-51 | A number is read most significant byte first. |
| Wire.WireWriter.WriteBytes | include/aegis/protocol/wire.hpp:111-118 | A write appends and leaves the rest of the buffer alone, or fails and changes nothing. |
| Wire.WireWriter.WriteNumber | include/aegis/protocol/wire.hpp:75-109 | A number is written most significant byte first, or nothing changes. |
| PeerCodec.TableRoundTrip | src/peer/peer_table.cpp:9-148 | Whatever the serializer accepts is decoded to the same peers, paths and records with canonical prefixes, and no byte is left over. |
| PeerCodec.EncodedSizeGrows | src/peer/peer_table.cpp:14-26 | Every peer adds its own size to the encoding. |
| PeerSpelling.TableRead | src/peer/peer_table.cpp:68-148 | Whatever is read as a table is, byte for byte, the spelling of the peers it is read as, in the version its first byte gives, within every limit and with nothing left over. |
| PeerSpelling.TableSpelled | src/peer/peer_table.cpp:68-148 | Every table within the limits is read back from its spelling, in the present version and the legacy one. |
| PeerTableCodec.SerializePeerTable | src/peer/peer_table.cpp:9-66 | The writing loops produce the encoding, and refuse exactly what it refuses. |
| PeerTableCodec.DeserializePeerTable | src/peer/peer_table.cpp:68-148 | The reading loops decode any bytes as the decoding function does, both versions included. |
| SendQueueClass.EnqueueKeepsOk | include/aegis/transport/send_queue.hpp:83-143 | An enqueue keeps the rotation exact, the counters equal to the real sums, and every limit. |
| SendQueueClass.AdmitExactly | include/aegis/transport/send_queue.hpp:83-143 | A datagram is queued if and only if the peer's own datagrams and those of the whole class, counted and measured, leave room for it; a refusal names the first limit in the way. |
| SendQueueClass.QueuedAtTheBack | include/aegis/transport/send_queue.hpp:120-143 | It goes to the back of its peer's lane, and a peer that had nothing queued to the back of the rotation; nobody else's lane changes. |
| SendQueueClass.PopKeepsOk | include/aegis/transport/send_queue.hpp:187-224 | A pop keeps the same, always delivers, and never takes a counter below zero. |
| SendQueueClass.NothingLostOrDuplicated | include/aegis/transport/send_queue.hpp:83-224 | Per peer, what was accepted is what was delivered followed by what is queued, in the same order. |
| SendQueueClass.ServedInTurn | include/aegis/transport/send_queue.hpp:187-224 | A peer at rotation index p is served, with its own next datagram, by exactly the (p+1)-th pop, whatever is queued meanwhile. |
| SendQueue.ClassesAreIndependent | include/aegis/transport/send_queue.hpp:145-151 | In a run of the whole queue each class behaves as if alone, control being popped whenever it has anything. |
| SendQueue.QueueConserves | include/aegis/transport/send_queue.hpp:83-224 | Over any calls, per peer and class, what the whole queue accepted is what its pops returned followed by what is queued, in the same order. |
| SendQueue.ControlInTurn | include/aegis/transport/send_queue.hpp:145-224 | The control peer at rotation index k gets the pop after exactly k pops of the queue, with its own next datagram. |
| SendQueue.DataInTurn | include/aegis/transport/send_queue.hpp:145-224 | The data peer at index k gets the first pop that control leaves to data after exactly k others. |
| SendQueue.BoundedSendQueue.EnqueueDatagram | include/aegis/transport/send_queue.hpp:83-143 | In place, the enqueue of one class, with the limit that refused it. |
| SendQueue.BoundedSendQueue.PopDatagram | include/aegis/transport/send_queue.hpp:145-151 | In place, control first, then data. |
| SendQueue.BoundedSendQueue.PopFrom | include/aegis/transport/send_queue.hpp:187-224 | In place, the pop of one class; a peer with nothing left is forgotten. |
| RelayLimiter.RefillMeets | src/packet/relay_limiter.cpp:38-53 | A refill keeps the bucket in bounds and yields its level at that time. |
| RelayLimiter.AwayFills | src/packet/relay_limiter.cpp:93-106 | A sender let in again with a full bucket would have had one anyway, if what can be owed is earned back in the time it was away. |
| RelayLimiter.ReadmittedLate | src/packet/relay_limiter.cpp:55-106 | A forgotten sender is let in again no sooner than one idle time after it was last seen, and two in a table of one. |
| RelayLimiter.AllowKeepsOk | src/packet/relay_limiter.cpp:66-129 | A call keeps every bucket in bounds and the table within its capacity. |
| RelayLaws.AllowExactly | src/packet/relay_limiter.cpp:66-129 | A packet is forwarded if and only if it is not empty, within both bursts, and both the node's bucket and the sender's hold it by now, a new sender having a full bucket if it finds a place; a refusal names what stood in the way first. |
| RelayLaws.SenderPays | src/packet/relay_limiter.cpp:93-129 | A forwarded packet costs its sender one packet and its bytes, a refused one nothing. |
| RelayLaws.OthersAreLeft | src/packet/relay_limiter.cpp:55-106 | No other sender's bucket changes, and only idle ones are forgotten, only to make a place in a full table. |
| RelayLimiter.IntervalBound | src/packet/relay_limiter.cpp:66-129 | Over any stretch of calls, packets and bytes admitted are at most burst plus rate times its length. |
| RelayLimiter.SenderIntervalBound | src/packet/relay_limiter.cpp:66-129 | The same for each sender, if what it can owe is earned back while it is away: its byte burst; for packets its packet burst, or the smaller burst when bytes are earned no faster than packets. |
| RelayForgetting.ForgottenTooSoon | src/packet/relay_limiter.cpp:55-129 | The condition is needed, for packets and bytes, every per-sender quota and every table size: wherever it fails there are a node-wide quota and a run in which a sender exceeds its bound. |
| RelayForgetting.SenderBoundIsExact | src/packet/relay_limiter.cpp:55-129 | The per-sender bound holds in every run if and only if that condition holds. |
| RelayForgetting.SpellRuins | src/packet/relay_limiter.cpp:108-129 | A sender can run up exactly that debt: at once, or dripping bytes as they come when they come faster than packets. |
| RelayLimiter.RelayForwardLimiter.AllowForward | src/packet/relay_limiter.cpp:66-129 | In place, a call as described; a refused call takes no tokens and every call is counted once. |
| RelayLimiter.RelayForwardLimiter.PurgeIdle | src/packet/relay_limiter.cpp:55-64 | The loop forgets exactly the idle senders. |
| HandshakeCookie.HandshakeCookieManager.RotateIfNeeded | src/transport/handshake_cookie.cpp:24-48 | In place, keeps, replaces with the previous kept, or replaces and clears; a failed draw changes nothing. |
| HandshakeCookie.HandshakeCookieManager.Issue | src/transport/handshake_cookie.cpp:77-85 | Issues under the current secret after rotation. |
| HandshakeCookie.HandshakeCookieManager.Verify | src/transport/handshake_cookie.cpp:87-105 | Accepts exactly the cookies of the current and the previous secret for these inputs. |
| HandshakeCookie.CookieLifetime | src/transport/handshake_cookie.cpp:24-105 | Whatever calls fall between, a cookie is accepted up to one interval after its issue and never from three intervals (less a millisecond) on. |
| HandshakeCookie.CookieIsBound | src/transport/handshake_cookie.cpp:24-105 | Whatever a new manager accepts after any calls is a cookie for the same inputs under a secret that one of its calls, less than three intervals ago, had in use. |
| HandshakeCookie.CanLapseAfterInterval | src/transport/handshake_cookie.cpp:35-42 | The first bound is exact: a millisecond more can be too late. |
| HandshakeCookie.CanLastAlmostThree | src/transport/handshake_cookie.cpp:35-42 | The second bound is exact: two milliseconds less can be in time. |
| Onion.BuildOnion | src/packet/relay.cpp:57-109 | The loop wraps one layer per hop, innermost first, each with its own counter value, and refuses exactly the bad inputs and keys no secret derives from. |
| Onion.LayersLength | src/packet/relay.cpp:97-106 | Every layer adds sixty bytes. |
| Onion.NoncesNeverRepeat | src/packet/relay.cpp:41-53 | No nonce repeats within an onion or between onions of one process. |
| Onion.OnlyTheHopOpens | src/packet/relay.cpp:111-150 | A layer opens for its hop and for nobody else. |
| Onion.RelayExactly | src/tunnel/tunnel.cpp:1694-1797 | A relay frame of a known kind whose layer opens is delivered if it names no next hop, and forwarded with one layer less if and only if the next hop is another known node within reach with a session, the quota admits it and it can be framed; everything else is dropped. |
| Onion.LaunchExactly | src/tunnel/tunnel.cpp:602-657 | A packet is launched if and only if every hop's key is known, there are one to eight hops, and the first is within reach with a session that can frame the whole onion. |
| Onion.HopReveals | src/tunnel/tunnel.cpp:1694-1797 | Each hop learns exactly the next path element and forwards the rest if the session layer can frame it, else drops it; the last one gets the packet. |
| Onion.OnionArrives | src/tunnel/tunnel.cpp:610-660 | Along every repeat-free path of one to eight nonzero cooperating hops the packet arrives if and only if its onion fits a session frame at the source. |
| Frames.PaddingBounds | include/aegis/packet/header.hpp:74-82 | Padding rounds up to a whole number of buckets, by less than one. |
| Frames.FrameWithinOverhead | include/aegis/packet/header.hpp:68-72 | A session frame exceeds its payload by at most the budgeted overhead. |
| Frames.FrameMade | src/session/session.cpp:504-521 | A frame can be made exactly when the bucket is supported and the payload is at most 4092 bytes; padding alone never exceeds the limit. |
| Frames.MadeIsReadable | src/session/session.cpp:582-662 | Every frame that can be made passes every size and padding check of a receiver. |
| Frames.PaddingExactly | src/session/session.cpp:603-662 | A payload passes the checks before and after decryption if and only if its size is its length and prefix rounded up to one of the four buckets, for at most 4092 bytes. |
| Mtu.EveryFrameFits | include/aegis/packet/mtu.hpp:33-64 | On an underlay of at most 4167 bytes and a bucket, a packet within the overlay MTU for its depth is framed on every hop and fits the underlay, outer headers included, in every frame made with a bucket at most sixty bytes per removed layer larger than the source's. |
| Mtu.EveryPacketFramed | src/tunnel/tunnel.cpp:301-305 | Every packet the MTU check passes can be framed if and only if the underlay is at most 4167 bytes and a bucket. |
| Mtu.MtuExactly | include/aegis/packet/mtu.hpp:33-64 | The overlay MTU is the underlay's less 75 and a bucket on a direct route, 108, a bucket and 60 a hop on a relayed one, and exists exactly when that leaves at least 576. |
| Mtu.JumboPacketLost | src/tunnel/tunnel.cpp:69-72 | An underlay of 9000 passes the checks, and the largest packet it admits is never framed. |
| Mtu.LargestDecides | include/aegis/packet/mtu.hpp:53-64 | For any bucket of a relay, every packet within the source's MTU fits its frames if and only if a packet of exactly the MTU does. |
| Mtu.CoarseRelayOverflows | include/aegis/packet/mtu.hpp:53-64 | A relay that pads to 256 bytes outgrows the underlay of a source that pads to 32. |
| Mtu.PacketArrives | src/tunnel/tunnel.cpp:602-660 | Along cooperating nodes a relayed packet arrives if and only if it is within the MTU for its depth and its onion can be framed; on underlays within the limit the first implies the second. |
| Mtu.BudgetIsTight | include/aegis/packet/mtu.hpp:53-64 | On such underlays the budget leaves no slack: a packet of exactly the MTU is framed, and with worst-case padding fills the underlay. |
| Mtu.DeeperIsSmaller | include/aegis/packet/mtu.hpp:53-64 | A packet sized for the deepest permitted route fits every shallower one. |
| IpText.FindBestRun | include/aegis/net/endpoint.hpp:65-72 | The scan finds the first longest run of at least two zero groups (section 4.2 of RFC 5952). |
| IpText.PrintGroup | include/aegis/net/endpoint.hpp:83-90 | The nibble loop prints the shortest lower-case hexadecimal form. |
| IpText.PrintHost | include/aegis/net/endpoint.hpp:52-92 | The loops print dotted decimal, or groups with that run compressed. |
| IpText.ScanFields | include/aegis/net/ip_address.hpp:98-125 | The loop reads separated numbers, and refuses empty, long, bad and surplus fields. |
| IpText.ParseHost | include/aegis/net/ip_address.hpp:60-152 | The loops parse both forms as the parsing function does. |
| IpText.PrintedReads | include/aegis/net/endpoint.hpp:52-97 | Parsing what was printed gives the same address, for every address. |
| IpText.PrintingIsExact | include/aegis/net/endpoint.hpp:52-97 | Two addresses print alike exactly when they are equal. |
| IpTextLaws.NamedIsRead | include/aegis/net/ip_address.hpp:60-152 | Every text of the grammar is read as the address it names: four decimal fields, eight hexadecimal ones, or two sides of fewer than eight around one double colon. |
| IpTextLaws.ReadIsNamed | include/aegis/net/ip_address.hpp:60-152 | And no other text is read at all. |
| Base64.DecodeUndoes | src/invite/invite.cpp:11-50 | Decoding undoes encoding for every byte string (section 5 of RFC 4648, unpadded). |
| Base64Laws.ThreeBytesFourSymbols | src/invite/invite.cpp:11-29 | Three bytes are one 24-bit number written as four base-64 digits, most significant first. |
| Base64Laws.LastBytes | src/invite/invite.cpp:11-29 | One or two bytes at the end are filled up with zero bits to whole symbols. |
| Base64Laws.DecodedExactly | src/invite/invite.cpp:31-50 | A text is decoded exactly when every character is in the alphabet, to three bytes for every four. |
| Base64Laws.IndexExactly | src/invite/invite.cpp:8-33 | Every letter of the alphabet reads as its place in it, and no other character reads at all. |
| Base64.LowBits | src/invite/invite.cpp:18-19 | Wrapping at 32 bits never touches the low bits still needed. |
| Base64.Base64UrlEncode | src/invite/invite.cpp:11-29 | The loop with its wrapping accumulator computes the reference encoding. |
| Base64.Base64UrlDecode | src/invite/invite.cpp:31-50 | The loop with its wrapping accumulator computes the reference decoding, and refuses other characters. |
| Invite.InviteRoundTrip | src/invite/invite.cpp:246-318 | Decoding an encoded invite gives the payload with its name cut to 64 bytes exactly when the endpoint is IPv4 and the prefix length at most 32, and nothing otherwise. |
| Invite.InviteIsCanonical | src/invite/invite.cpp:268-318 | A text is an invite if and only if, blanks and quotes around it aside, it is the encoding of a payload with an IPv4 endpoint, a prefix length of at most 32 and a name of at most 64 bytes, which is then what it says. |

## Left out

- OpenSSL, Noise-C and the signature checks: symbolic constructors stand for them.
- Sockets, threads, the Wintun adapter, discovery, STUN, logging, the command line and the configuration parser.
- File names, cancel frames, transfer admission limits and lease timers: one admitted transfer is followed.
- `handle_file_header_frame`, `handle_file_chunk_frame`, `handle_file_ack_frame` and `handle_relay` are modelled on values; update in place is modelled in the trackers, windows and tables they call.
- Path-probe, endpoint-candidate, handshake and file codecs, the AEGIS2 grant codec and the packet header codec: the same cursor idiom as the peer-table codec.
- The invite codec is modelled on values; its cursor is the one proved in `Wire`.
- PeerMerge.MergeIsSafe: about a merge with nothing between its sections; `RouteRuns` and `Mesh` cover the interleaved sections.
- MergeLearns.RoutesAreLearned: about a merge with nothing between its sections as well; what other threads can take from one that is interrupted is stated by `RouteRuns.NewerNeverLost`.
- `GossipDeltaTracker::reset` is modelled as the start of a run only; a reset between a prepare and its commits is not covered, and the program calls it once, at start.
- Peers' endpoints, states and keep-alives: only identity keys and trust matter to a merge.
- Gossip timing and the convergence time of the mesh, and route metrics as path lengths: the code maintains no such invariant.
- RouteRuns.HoldDownLasts: covers a candidate as long as it stays in the table at its sequence number; one that is removed and learned again, or advertised anew, starts unprobed, as `SameNumberKeepsProbe` states.
- FileProtocol.CompletionMeansCommitted: one receiver entry per transfer, never re-created.
