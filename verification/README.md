# A model of the link clients

The repository holds three clients (Go, Rust, TypeScript) of one end-to-end encrypted relay protocol. This project models
the parts whose correctness is hard to see by reading, and proves what they promise:

| files | what they model |
|---|---|
| `Flow`, `CreditLink`, `HostilePeer` | one session's credit, fragments and reassembly, two sides of it joined by first-in first-out wires, and one side against a peer that sends anything |
| `Delivery`, `DeliveryLive` | the send queue, cutting, rekeying and reassembly over a relay that may drop, repeat, reorder and forge, and over one that does its work |
| `Pump` | the gate and its pump: pacing, windows, re-entry, and what wakes a message left waiting |
| `Drain` | the writer goroutine and the locked member, step by step, around the drain flag and its one waiter |
| `Sends`, `SendRuns`, `SendResults`, `SendOutcomes` | the member's task queue, the offline list, per-peer queues and handshake waiters, up to the result of each send and what it means |
| `SessionTable`, `SessionRuns`, `SessionManager` | the index, the per-peer lists, pending handshakes and what each peer left buffered; every run of them, and the manager's loops as such runs |
| `Noise`, `NoiseAgreement`, `NoiseSession`, `NoiseBinding` | the Noise handshake engine, the agreement of its two sides for any pattern, the way from matching keys to transport messages, and what equal keys and hashes bind |
| `Replay` | stamps of handshake-inits, those retained of ids that left, and the time floor |
| `Limits` | token buckets, the ceiling for strangers, and the list of the 256 strangers most recently seen |
| `Pairing`, `PairingRuns`, `PrimaryState` | the primary's pairing codes, attempts, claims and channels, and what an admission took |
| `Rosters`, `RosterSpread` | roster validity, every step that publishes one, and how rosters spread |
| `JsonText`, `Json`, `JsonRoundTrip`, `JsonFacts`, `JsonSame`, `JsonGrammar`, `JsonNesting`, `JsonMethods` | the strict JSON parser with its own stack, the documents it takes, the canonical printer, and the bracket scan |
| `NumberLayout`, `NumberGrammar` | how a number's digits are laid out and read back, and that layouts are JSON numbers |
| `Limbs` | reduction modulo the order of P-256 in four limbs |
| `Codecs`, `CodecMethods` | strict base64url and base32 |
| `Basics` | options and sequences, shared |

Objects the code updates in place are classes whose methods are proved against functions of the state (`Flow.Session`,
`Pump.Lane`, `Noise.HandshakeState`, `SessionManager.Manager`, `Replay.Stamps`, `Limits.PeerLimits`,
`PrimaryState.Primary`); loops of the code are loops here. Protocols are state machines over atomic steps, and their
theorems hold for every sequence of steps. The clock, the network, randomness, the application and the primitives
(hashes, Diffie-Hellman, AEAD, signatures, the key exchange of pairing) are parameters: arbitrary values, or functions
with the few equations that are needed, collected in predicates named `Lawful`, `NoLowOrder`, `NoCollisions` and
`Authentic`.

Where the code and its comments differ, the code is followed:

- Opening a default code is said to leave the one open before it admitting nobody (client-go/primary.go:271-274). A
  code that has already expired is closed by the prune before that, its channels left as they are, and can still admit:
  `Pairing.ExpiredStillAdmits` is such a run, and `Pairing.OpenedOverAdmitsNobody` gives the exact condition.
- `nextStampAfter` is described as a maximum; it is one except after the stamp 2^64 - 1, where the sum wraps
  (`Replay.StampsIncrease` gives the exact condition).
- `negModN` is described for 0 < s < n; `Limbs.NegModN` states what it gives for every 32-byte s.
- A pattern that mixes a static key before sending it writes but cannot be read back; `NoiseAgreement.HandshakeAgrees`
  gives the exact condition and `NoiseAgreement.EarlyStaticIsUnreadable` such a pattern.

## Model

| member | source | states |
|---|---|---|
| Flow.Session.FlushCredit | client-go/sessions.go:737-761 | Owed credit goes out in one batch of frames, or waits for the timer, exactly as the function Flush of the receiver's state says; an ended session is left alone |
| Flow.Session.OnFragment | client-go/sessions.go:666-733 | A fragment ends the session for the first of five reasons, or is taken: allowance, partial bytes, credit and the completed message are those of Receive |
| Flow.Session.Take | client-go/sessions.go:714-732 | Taking a message returns its un-credited bytes and, when none is held any more, those of the partial message; on an ended session nothing is sent |
| Flow.Session.Credited | client-go/sessions.go:652-659 | However much a credit frame grants, credit and bytes in flight together never shrink and never pass the cap, in flight never goes below zero, and credit for bytes in flight only moves between the two |
| Flow.Session.End | client-go/sessions.go:956-979 | Ending is idempotent and clears the partial message and the credit timer, and nothing of what was sent |
| CreditLink.EveryRun | client-go/sessions.go:652-761 | On every run between two honest sides with any windows, allowance = sender's credit + bytes in flight + credit in flight, the receiver's parts sum to its window, and the session ends only for what the peer left buffered elsewhere: never for credit, emptiness or length |
| CreditLink.FragmentKeeps | client-go/sessions.go:666-731 | Receiving a fragment keeps allowance + owed + un-credited partial and untaken bytes equal to the window, and a small debt always has its timer |
| CreditLink.TakeKeeps | client-go/sessions.go:714-732 | Taking a message keeps the same sum, and with nothing held the partial message is credited in full |
| CreditLink.FlushKeeps | client-go/sessions.go:737-761 | Flushing turns owed credit into allowance and credit frames of the same total |
| CreditLink.MessageFits | client-go/sessions.go:670-676 | A fragment of an honest sender is within the allowance and the 64 MiB message limit when it arrives, whatever else is on the wires |
| CreditLink.CapNeverBites | client-go/sessions.go:653-655 | The 2^53 cap on the sender's credit never changes a sum between honest sides |
| CreditLink.QuietIsWhole | client-go/sessions.go:652-761 | At rest the whole window is back with the sender, nothing counts as in flight, and all that was sent has been delivered |
| CreditLink.WindsDown | client-go/sessions.go:652-761 | From every state, arrivals, timers and takes, in any order and by either side, are at most as many as there is to do: without sends every run comes to rest |
| CreditLink.Settles | client-go/sessions.go:652-761 | From every state a run without sends reaches rest, with no fragment refused, and keeps all that was sent |
| CreditLink.BlockedHasCause | client-go/sessions.go:1167-1170 | A sender out of credit has a frame on a wire, a credit timer or an untaken message to wait for and at least 1 MiB in flight, and a run without sends gives it the whole window back |
| CreditLink.LongMessageCrosses | client-go/sessions.go:687-702 | From every state, any message up to 64 MiB crosses any window in fragments of at most 65517 bytes, credit waiting for its timer, and is delivered whole after all sent before it |
| HostilePeer.Enforced | client-go/sessions.go:666-761 | Against any peer, in every state of every run, the bytes taken are within the credit granted, no buffer and no message is over 64 MiB, and the messages handed over are those the fragments taken say |
| HostilePeer.TakenExactly | client-go/sessions.go:669-686 | After any run a fragment is taken if and only if it is not empty with more to follow, the bytes taken with it stay within all the credit granted so far, its message within 64 MiB, and the peer has room; otherwise the session ends, for emptiness or credit exactly when those are broken |
| HostilePeer.CreditKept | client-go/sessions.go:652-657 | Whatever a peer grants, the credit kept is at most 2^53, and is all that was granted and not spent unless that much was granted |
| Delivery.AtMostOnce | client-go/sessions.go:613-733 | Whatever the relay does, each message delivered is exactly one that was sent, no message is delivered twice, and each session's are the first ones completed on it, in order |
| Delivery.Subsequence | client-go/sessions.go:1036-1104 | Over a relay that keeps order, messages delivered are a subsequence of those sent, across sessions and rekeys |
| Delivery.CutSessions | client-go/sessions.go:1063-1104 | However a message is cut, its session's frames reassemble to the messages completed on it, followed by what is begun |
| Delivery.Opens | client-go/sessions.go:635-641 | A frame the receiver opens is the next one of its session, since place on the wire is the nonce |
| DeliveryLive.EveryMessage | client-go/sessions.go:613-733 | While a session's frames pass in turn and nobody forges or ends it, it lives and its count is the frames passed; once all have passed, every message completed on it has been delivered, in order, whatever other sessions meet with |
| DeliveryLive.OutOfTurnEnds | client-go/sessions.go:635-641 | In every run a frame out of its turn, lost before or repeated, ends its session, and nothing more of it is ever delivered |
| DeliveryLive.QueueGoesOn | client-go/sessions.go:1069-1079 | In every run the message being sent gives up its place once its session is over, so nothing holds up the queue |
| Pump.PacedFragment | client-go/sessions.go:163-168 | The largest fragment lies between 1 KiB and the unshaped maximum at every rate |
| Pump.FragmentBounds | client-go/sessions.go:1063-1068 | A fragment of a non-empty message carries at least a byte, stays within credit, and leaves less than a smallest fragment over the window |
| Pump.FragmentGreatest | client-go/sessions.go:1063-1068 | The fragment cut is the greatest that what is left, the largest fragment, the credit and the room under the window or one smallest fragment allow |
| Pump.PacedMeans | client-go/sessions.go:163-168 | The largest fragment is all a frame holds, or while shaped the most that seven thirty-seconds of the rate carry, but at least 1 KiB |
| Pump.PaceMeans | client-go/sessions.go:1111-1118 | The window is one fragment or a second's credit up to half the rate while shaped, and otherwise 64 KiB or one and a half times that credit |
| Pump.RatesAreExact | client-go/sessions.go:1120-1129 | Over every history of credits the two counters hold exactly what was credited in the second under way and in the one before it |
| Pump.BalanceKept | client-go/sessions.go:653-657 | Credit plus bytes in flight stay at least 1 MiB through credit, capped or not, and through sending |
| Pump.BlockedAwaitsCredit | client-go/sessions.go:1167-1170 | A message passed over has un-credited bytes outstanding, so a credit frame will pump again |
| Pump.Lane.RunFragment | client-go/sessions.go:1063-1104 | The greatest fragment allowed goes out and its successor or completion follows as the one task, exactly if the frame was handed over; otherwise the message is finished |
| Pump.Lane.Visit | client-go/sessions.go:1152-1193 | A message in the gate is taken out, finished only for a cause and with its one follow-up, or passed over exactly for credit or window, or stops the pass because the socket took no more or the last fragment's time is not over, with the waiter or the timer set |
| Pump.Lane.PumpOnce | client-go/sessions.go:1151-1195 | One pass leaves a subsequence of the gate, finishes a message only for an ended session, a closed member or a frame not handed over, and gives each other one taken out its one follow-up; unless it asks to be repeated, everything left has a cause to be pumped |
| Pump.Lane.Pump | client-go/sessions.go:1135-1149 | The pump ends despite re-entry, each message taken out having met with what one pass allows, and then nothing waits in the gate unless it is out of credit or window, the socket took no more and its waiter is set, or the last fragment's time is not over and the timer is set |
| Pump.WaitsForCredit | client-go/sessions.go:1131-1134 | With neither waiter nor timer set, a message left waiting has bytes in flight on a live session |
| Drain.EveryInterleaving | client-go/transport.go:179-307 | In every interleaving, bytes buffered are those queued and in hand and at most 64 MiB, there is one waiter at most, and a registered waiter has the flag set for a writer that will look or a call on its way |
| Drain.DriveProgress | client-go/transport.go:268-307 | Every step of the writer brings a registered waiter nearer to its call |
| Drain.WaiterIsCalled | client-go/relay.go:81-102 | A registered waiter is called after finitely many writer steps, whichever writes fail |
| Drain.BoundedWait | client-go/transport.go:268-307 | Whoever takes the lock in between and whether or not the connection closes, once nothing more is sent a registered waiter is called or released before the writer has taken more steps than there were left |
| Drain.NeverStuck | client-go/transport.go:268-307 | While a waiter is registered and nobody else holds the lock, the writer has a step to take |
| Drain.FirstInFirstOut | client-go/transport.go:179-307 | In every interleaving frames reach the socket in the order they were accepted, none twice and none left out: what was written and what is in hand are the first of those accepted, and on a live channel the queue is the rest |
| Drain.WithoutTheGuard | client-go/sessions.go:1171-1179 | Without the single-waiter guard there is a run that loses a wake-up |
| SendResults.ExactlyOnce | client-go/member.go:511-600 | In every run a send has one result once finished and none before, each control sender is called at most once, and activeSends is the number of unfinished messages bound to the session |
| SendResults.QuietIsDone | client-go/sessions.go:316-370 | With no task, handshake, gate or offline entry left, every send has its result and every control sender has been called: nothing is lost |
| SendOutcomes.SucceedsExactly | client-go/sessions.go:1063-1104 | In every run a send that has its result succeeded if and only if its last fragment was sent, every other one finished for a cause the code knows, and one begun whose last fragment has not gone waits in the gate or is about to |
| SendOutcomes.NobodyLeftWaiting | client-go/member.go:1036-1068 | In every run, while the relay is there those who wait for it are about to be admitted, and once it is gone for good nobody waits |
| SendRuns.CoreNext | client-go/sessions.go:316-370 | Every step keeps each unfinished message in exactly one place it can be finished from, and each queue's head running or about to start |
| SendRuns.HeadKeeps | client-go/sessions.go:316-341 | Starting a queue's head makes it wait for a session once |
| SendRuns.CallKeeps | client-go/sessions.go:328-340 | A handshake's answer binds the message and gates it once, or finishes it |
| SendRuns.TaskKeeps | client-go/member.go:1058-1068 | Every task of the member's queue keeps the one place of every message, the admission of all that waited offline included |
| SendRuns.GateKeeps | client-go/sessions.go:1151-1187 | What the pump does with a message of the gate keeps its one place |
| SendRuns.WithdrawKeeps | client-go/member.go:568-579 | Withdrawing before the first fragment finishes a message wherever it is, once |
| Sends.FinishKeeps | client-go/sessions.go:345-370 | Completion gives the one result, takes the message out of its queue and starts the next |
| Sends.AdmitKeeps | client-go/member.go:583-600 | Admission queues a message once or refuses it with its one result |
| Sends.EndPendingKeeps | client-go/sessions.go:601-610 | The end of a handshake, made or failed, turns each of its waiters into one call |
| SendResults.FinishUnbinds | client-go/sessions.go:349-354 | activeSends falls by one exactly for the session an unfinished message was bound to |
| SessionTable.EndKeeps | client-go/sessions.go:956-979 | Ending a session keeps index, lists and accounts in agreement |
| SessionTable.AdoptKeeps | client-go/sessions.go:841-865 | Adopting makes a session current and live, leaves at most eight with a peer, and keeps index, lists and accounts in agreement |
| SessionTable.AdoptList | client-go/sessions.go:841-865 | The new session comes last in its peer's list, which is otherwise as it was, but without its first when there were eight; no other session starts or ends, and no other peer changes |
| SessionTable.InitiateKeeps | client-go/sessions.go:893-938 | Beginning a handshake, sent or not, keeps index and pending handshakes in agreement, and only for ids on the roster |
| SessionTable.FailKeeps | client-go/sessions.go:941-953 | Failing a handshake takes its index entry with it |
| SessionTable.OnRespKeeps | client-go/sessions.go:580-611 | An answered handshake's index passes to the session it made |
| SessionTable.OnInitKeeps | client-go/sessions.go:561-577 | A good init makes a session only with an id on the roster |
| SessionTable.FragmentKeeps | client-go/sessions.go:666-712 | What a peer left buffered stays the sum of live partial and untaken bytes, and within its limits |
| SessionTable.ReleaseKeeps | client-go/sessions.go:714-732 | A release keeps the accounts, also after its session ended |
| SessionTable.ForgetKeeps | client-go/sessions.go:1026-1029 | Forgetting a peer that holds nothing strands no session, index or release |
| SessionRuns.Exactly | client-go/sessions.go:803-982 | In every run of the table, from empty: index and live sessions, index and pending handshakes, lists and live sessions determine each other; current is live; at most eight a peer; all on the roster or just being ended by a new one; accounts exact and within limits |
| SessionRuns.NextKeeps | client-go/sessions.go:536-733 | Every event, handshakes begun, answered and failed, sessions ended, fragments, takes, new rosters, peers met and forgotten, keeps the table in agreement |
| SessionRuns.HandshakeCompletes | client-go/sessions.go:580-611 | A handshake begun and answered gives its index to a live session with the peer, which is current, and none is pending any more |
| SessionManager.Manager.EndSession | client-go/sessions.go:956-982 | Ends the session and, through the pump, perhaps others with messages in the gate: a run of the table in which nothing new appears but handshakes with members of the roster |
| SessionManager.Manager.Purge | client-go/sessions.go:763-773 | All of a peer's sessions and its handshake end, though ending one may begin or end others; a run of the table |
| SessionManager.Manager.OnReset | client-go/sessions.go:777-787 | Every reset session of the peer ends, of a copy of its list, though ending one may begin or end others; a run of the table |
| SessionManager.Manager.EnsureSession | client-go/sessions.go:869-891 | A session that has not expired is kept, live and current, with nothing changed unless a rekey is due; an expired one ends unless a message crosses it; without one to use, or for a rekey, the last step is a handshake with the peer; a run of the table |
| SessionManager.Manager.DropAll | client-go/sessions.go:416-423 | Off the relay, in any order of peers, no live session and no handshake is left |
| SessionManager.Manager.RosterChanged | client-go/sessions.go:403-413 | After a new roster every live or pending session is with an id on it, though the loop may begin rekeys |
| SessionManager.Manager.Adopt | client-go/sessions.go:841-865 | The trimming loop ends the oldest other session and whatever the pump then ends, leaves at most eight, and the new session is live and current |
| SessionManager.Manager.Sweep | client-go/sessions.go:1006-1030 | Sweeping is a run of the table and forgets only ids off the roster |
| SessionManager.Manager.OnInit | client-go/sessions.go:561-577 | A live, current session is made for a member of the roster, and nothing changes for others; a run of the table |
| SessionManager.Manager.OnResp | client-go/sessions.go:580-611 | Only the peer a handshake is with can answer it; a good answer makes its index that of a live, current session, and any other ends the handshake and frees its index |
| SessionManager.Manager.OnFragment | client-go/sessions.go:666-712 | Accounts move with every fragment, and stay valid when it ends the session |
| SessionManager.Manager.Release | client-go/sessions.go:714-732 | A release takes exactly its message's bytes and count out of its peer's account |
| Noise.HandshakeState.Write | client-rust/src/noise.rs:254-287 | A message is written token by token as the function WriteMessage of the state says, errors and turn included |
| Noise.HandshakeState.Read | client-rust/src/noise.rs:290-325 | A message is read token by token as the function ReadMessage says, errors and turn included |
| NoiseAgreement.DhAgrees | client-rust/src/noise.rs:327-344 | A token one side could mix gives both sides the same key, unless it takes a static key the reader does not have yet: then that side finds it missing |
| NoiseAgreement.MessageAgrees | client-rust/src/noise.rs:254-325 | A written message reads back to its payload and leaves both symmetric states equal, exactly when the reader knows the writer's static key before it is used |
| NoiseAgreement.HandshakeAgrees | client-rust/src/noise.rs:254-325 | For any pattern both sides finish in step and hear every payload, if and only if the pattern is readable |
| NoiseAgreement.BeginAgrees | client-rust/src/noise.rs:217-243 | Matching keys, pattern and prologue put both sides in step |
| NoiseAgreement.TransportsMirror | client-rust/src/noise.rs:346-357 | After the last message one side's send key is the other's receive key, with equal hashes and nonces at zero |
| NoiseAgreement.TransportInOrder | client-rust/src/noise.rs:81-104 | Any sequence of transport messages opens in order with nonces in lockstep, and can be sealed if and only if 2^64 - 1 is not reached |
| NoiseSession.SessionAgrees | client-rust/src/noise.rs:217-357 | Matching keys, pattern and prologue get through exactly when every message can be written with the keys at hand within 65535 bytes and followed by its reader; then payloads are heard, hashes are equal and both directions carry any messages in order |
| NoiseSession.MessageWrites | client-rust/src/noise.rs:254-287 | A message can be written if and only if every key its tokens take is there and it is at most 65535 bytes long |
| NoiseSession.IkGoesThrough | client-rust/src/noise.rs:37-46 | IK goes through exactly while its payloads leave room for 96 and 48 bytes |
| NoiseBinding.HandshakeBinds | client-rust/src/noise.rs:217-357 | Whatever two sides of a pattern were given and whatever came between them: equal handshake hashes mean the same prologue, known static keys and messages, and equal transport keys mean the same secrets were mixed, token by token |
| NoiseBinding.KeysAndHashBind | client-rust/src/noise.rs:134-164 | The same from any two states: keys and hash after a run bind what it began with |
| NoiseBinding.KeyBinds | client-rust/src/noise.rs:134-138 | The key a secret makes is bound to it and to all mixed before it, begins at nonce zero, and is not the chaining key |
| NoiseBinding.OpenedMeans | client-rust/src/noise.rs:147-157 | A part one side sealed opens for another only with the same key, nonce and hash so far, and then to what was sealed |
| NoiseBinding.DirectionsApart | client-rust/src/noise.rs:346-357 | The two directions have different keys, and the initiator sends under the first |
| NoiseBinding.ReadNeeds | client-rust/src/noise.rs:290-300 | A message is read only in the other side's turn, while one is due, and within 65535 bytes; otherwise nothing changes |
| NoiseAgreement.ClientPatternsAreReadable | client-rust/src/noise.rs:37-46 | The patterns IK, NN, KK and XX are readable |
| NoiseAgreement.EarlyStaticIsUnreadable | client-rust/src/noise.rs:290-325 | A pattern that uses a static key before sending it is not |
| Replay.NoReplay | client-go/sessions.go:556-565 | Over any run, accepted stamps of a member strictly increase, across leaving and coming back too, while fewer than 1024 other ids leave in between |
| Replay.RetainedApart | client-go/sessions.go:389-402 | Retained stamps are a duplicate-free queue of at most 1024, of ids neither listed nor stamped |
| Replay.FloorRefuses | client-go/sessions.go:205-210 | Whether or not its stamp was kept, nothing stamped more than W before a member was admitted is accepted while it stays listed and the clocks keep step |
| Replay.AdmittedFloor | client-go/sessions.go:205-227 | The same over whole runs, for a member any roster admits after any run, coming back included |
| Replay.AcceptedExactly | client-go/sessions.go:556-566 | In every run an init is accepted if and only if its sender is listed and its stamp is at most W ahead of the wall clock, above the last one kept and above the floor; it is then the last one kept, and one refused changes nothing |
| Replay.LeavePushes | client-go/sessions.go:238-251 | A retained stamp is pushed out only by 1024 others that left after it |
| Replay.StampsIncrease | client-go/member.go:902-907 | The next stamp exceeds the last if and only if that was not 2^64 - 1, and is never behind the wall clock otherwise |
| Replay.HonestAccepted | client-go/sessions.go:561-565 | An honest sender's next init is accepted when its clock is ahead of the floor and its stamp at most W ahead |
| Replay.Stamps.OnInit | client-go/sessions.go:556-565 | A stamp is accepted exactly when it exceeds what is kept of the member and the floor, and is at most W ahead, and then is kept |
| Replay.Stamps.PutRetained | client-go/sessions.go:238-251 | A stamp goes to the end of the queue, once, and the oldest go beyond 1024 |
| Replay.Stamps.DropRetained | client-go/sessions.go:261-269 | An id leaves queue and map together |
| Replay.Stamps.RosterAdded | client-go/sessions.go:213-227 | An id added takes its retained stamp back, or starts with none |
| Replay.Stamps.AdoptRoster | client-go/member.go:839-850 | Whatever order the map is met in, a new roster keeps every stamp that counts, live or retained |
| Limits.Bounds | client-go/limits.go:48-140 | In any stretch of length d of any run, at most 32 + 16 d inits of a member that stays listed are read, at most 4 + 2 d of them bad, and at most 256 + 128 d of all strangers together |
| Limits.FailsStep | client-go/sessions.go:506-563 | Every bad init that was read spends the token that was there when it was allowed |
| Limits.OthersUntouched | client-go/limits.go:110-140 | No other id and no stranger changes a listed member's budgets |
| Limits.LevelGrows | client-go/limits.go:57-66 | Waiting gains a bucket at most its rate and never costs it a token |
| Limits.LevelLater | client-go/limits.go:57-66 | What a bucket holds later is what it held and the rate for the time between, up to the burst |
| Limits.RefusedMeans | client-go/limits.go:134-140 | In every run an init of a member goes unread only if, since some time d ago, more than 31 + 16 d of its inits were read or more than 3 + 2 d found bad |
| Limits.ReadAfterWait | client-go/limits.go:48-66 | After any run, an init half a second later is read, whoever it is from |
| Limits.StrangerBound | client-go/limits.go:134-140 | In any stretch of any run, at most 8 + 4 d inits of a stranger that stays in the list are read |
| Limits.LruIsRecent | client-go/limits.go:119-131 | In every run, members' inits and new rosters in between, the list and its index are the 256 ids off the roster most recently seen, in order |
| Limits.PeerLimits.Get | client-go/limits.go:110-131 | A member's budgets are its own; a stranger comes to the front and may push the last one out, list and index together |
| Limits.PeerLimits.AllowInit | client-go/limits.go:134-140 | An init is allowed, and its tokens spent, as the budgets say, a failure budget first |
| Limits.PeerLimits.SpendFailure | client-go/limits.go:69-71 | A bad init spends the failure budget of its id |
| Limits.PeerLimits.ForgetMembers | client-go/limits.go:102-108 | Exactly the budgets of those off the roster go, in any order |
| Pairing.Accounting | client-go/primary.go:665-911 | In every run and for every code entry: attempts in flight are its live channels, with failures at most five, one claim at most, one member admitted at most, and five failures burn it with no channel left |
| Pairing.OpenedOverAdmitsNobody | client-go/primary.go:243-274 | A code opened over one still open under its id: the old one admits nobody in any later run if and only if it has not expired or has no channel |
| Pairing.ExpiredStillAdmits | client-go/primary.go:243-274 | A run in which an expired default code admits a member after another was opened over it |
| Pairing.OpenedOver | client-go/primary.go:243-274 | After an opening the old entry is dead exactly under that condition, and otherwise as it was, its channels included |
| Pairing.WithdrawnAdmitsNobody | client-go/primary.go:285-309 | A code cancelled admits nobody, whatever happens after |
| Pairing.DemotedAdmitsNobody | client-go/primary.go:623-631 | No code of a demoted primary admits anybody, whatever happens after |
| Pairing.DeadStays | client-go/primary.go:703-737 | An entry without channels that is not open never gets either again |
| Pairing.OldCodeLeavesNew | client-go/primary.go:744-748 | What happens on a channel of an old code leaves the code opened since under the same id as it is |
| Pairing.FrameKeeps | client-go/primary.go:776-861 | Every message of a newcomer, at every stage and with every verdict, keeps the accounting |
| Pairing.FailAttemptKeeps | client-go/primary.go:870-884 | A failed attempt keeps its slot used and gives back the claim |
| Pairing.EndChannelKeeps | client-go/primary.go:887-899 | An ended channel refunds its slot and its claim |
| Pairing.CompleteKeeps | client-go/primary.go:848-861 | An admission is the first of its entry and leaves it burned and closed |
| Pairing.TrimOk | client-go/primary.go:753-769 | Refusals go on naming open codes, the default id and the last 1024 closed, and no more |
| PairingRuns.AskedExactly | client-go/primary.go:665-734 | In every run a newcomer gets a channel if and only if the code it names is open and has not expired, its budget lets an exchange be set up, no channel of that code is claimed, and its failures and live channels are fewer than five |
| PairingRuns.AdmittedMeans | client-go/primary.go:776-861 | In every run what admits a member is a right message on a channel that heard two right ones and nothing else, opened by a request allowed then, for the code of its entry, before that expired |
| PairingRuns.CountedExactly | client-go/primary.go:776-884 | In every run a message counts as a failure of its code exactly if it is bad, but not when another channel got the code first or the newcomer only cannot be admitted |
| PrimaryState.Primary.Withdraw | client-go/primary.go:301-309 | In whatever order its channels are met, all of them end, and the entry is burned, closed and dead |
| PrimaryState.Primary.OnPairing | client-go/primary.go:665-734 | A channel begins exactly for an open, unexpired, unclaimed code with an attempt left, and takes a slot |
| PrimaryState.Primary.OnPairFrame | client-go/primary.go:776-861 | Each stage's checks in the order of the code give the accounted step, and admit at most one member |
| PrimaryState.Primary.FailAttempt | client-go/primary.go:870-884 | The slot stays used, the fifth failure burns and closes the code |
| PrimaryState.Primary.EndChannel | client-go/primary.go:887-899 | Slot and claim come back |
| PrimaryState.Primary.CloseCode | client-go/primary.go:753-769 | The loop keeps the last 1024 closed ids |
| PrimaryState.Primary.Open | client-go/primary.go:243-277 | Stale codes are pruned, a code still open under the id is withdrawn, and the new one is open; the old one is dead exactly if it had not expired or had no channel |
| PrimaryState.Primary.PruneCodes | client-go/primary.go:656-663 | In whatever order they are met, exactly the stale codes are closed, and no channel ends |
| PrimaryState.Primary.RelayLost | client-go/primary.go:641-648 | Every channel ends with its slot refunded, in any order |
| PrimaryState.Primary.Stop | client-go/primary.go:623-631 | No channel and no open code is left, and every entry is dead |
| Rosters.FindProblem | client-go/roster.go:333-397 | The checks find no problem if and only if the roster is valid: derived ids, strictly sorted members, primary listed, bounds, signature |
| Rosters.CheckMembers | client-go/roster.go:353-377 | The loop over the members accepts exactly strictly sorted members with derived ids, and finds whether the primary is listed |
| Rosters.RevokeGood | client-go/primary.go:312-330 | Revoking succeeds if and only if the id is listed, is not the primary, and size, version and time fit; the result is valid, one version on, with exactly that member gone |
| Rosters.ResignGood | client-go/primary.go:550-573 | The same for a resignation |
| Rosters.PairGood | client-go/primary.go:821-845 | Pairing succeeds if and only if the newcomer is not listed and the bounds fit; exactly that member is added |
| Rosters.ClaimGood | client-go/role.go:43-55 | Claiming succeeds if and only if the claimant is listed, is not the primary, and the bounds fit; the members stay as they are |
| Rosters.PlaceGood | client-go/roster.go:593-644 | Placing succeeds if and only if the roster is valid and unplaced, the seed is its own, and the bounds fit; only version, time and relay change |
| Rosters.TakenByAll | client-go/roster.go:401-412 | A published roster is taken by every member that pins the key and holds an older one |
| RosterSpread.NeverBack | client-go/member.go:831-851 | In every run, whatever arrives, versions held never go back and what is held is valid and by the pinned key |
| RosterSpread.BothHoldGreater | client-go/member.go:863-876 | After a handshake whose two messages carry versions at different times, anything in between, both come to hold the greater version or a newer one once nothing is under way, if the one behind is on the roster of the one ahead |
| RosterSpread.HeardOwes | client-go/member.go:863-876 | Either message of a handshake puts the newer roster on its way to a sender behind |
| RosterSpread.AheadReaches | client-go/member.go:863-876 | A member that hears of a version ahead of its own asks, and once its request has arrived, anything in between, and nothing is under way, holds what the one ahead held, if it is on that roster |
| RosterSpread.OnlyToListed | client-go/member.go:931-934 | In every run members hand a roster only to ids on it |
| JsonRoundTrip.RoundTrip | client-typescript/src/json.ts:31-180 | The parser reads a print back to the tree if and only if it is at most 32 deep, repeats no name, holds no lone surrogate and its numbers are in range |
| JsonFacts.ParseSound | client-typescript/src/json.ts:31-180 | On every text, a tree returned is at most 32 deep, repeats no name and holds no lone surrogate |
| JsonFacts.ParsePrintParse | client-rust/src/json.rs:178-213 | What the parser returns for any text prints to a text it reads back to the same tree |
| JsonGrammar.ParsesExactly | client-typescript/src/json.ts:31-180 | The parser returns a tree if and only if the text is a document of the JSON grammar that says that tree, wherever white space stands and however strings are spelled, and the tree is at most 32 deep, repeats no name, holds no lone surrogate and its numbers are in range |
| JsonGrammar.StringReads | client-typescript/src/json.ts:45-78 | Every spelling of a string, the short escapes and four hexadecimal digits of either case included, is read for its units, unless they hold a lone surrogate |
| JsonGrammar.NumbersExactly | client-typescript/src/json.ts:24-24 | What is taken for a number is exactly a sign or none, a whole part without leading zeros, and a fraction and an exponent or not |
| JsonFacts.PrintOfSet | client-rust/src/json.rs:196-209 | A canonical print depends on an object's members as a set |
| JsonSame.PrintsAlike | client-rust/src/json.rs:178-213 | Trees the parser can return print alike if and only if arrays are alike item by item and objects have the same names with alike values |
| JsonSame.NormSame | client-rust/src/json.rs:196-209 | That relation, defined without sorting, is equality of the sorted forms |
| JsonFacts.SortSorted | client-rust/src/json.rs:198-200 | Distinct names come out in strict UTF-16 order |
| JsonFacts.BeforeMeans | client-rust/src/json.rs:198-200 | One name is before another if and only if it is a proper prefix of it or has the lesser UTF-16 unit where they first differ |
| JsonText.StringRoundTrip | client-rust/src/json.rs:216-238 | A printed string reads back to itself, unless it holds a lone surrogate |
| JsonText.NumberThen | client-typescript/src/json.ts:24-24 | A number is read to its end and no further |
| JsonMethods.ParseJson | client-typescript/src/json.ts:90-179 | The two loops with offset and stack return exactly what the grammar functions say, and only acceptable trees |
| JsonMethods.ReadStr | client-typescript/src/json.ts:45-78 | Runs of plain units and escapes give the string the literal says, or a failure |
| JsonMethods.ReadMemberName | client-typescript/src/json.ts:79-88 | A name not seen before, with its colon |
| JsonMethods.WriteValue | client-rust/src/json.rs:178-213 | The output grows by exactly the print of the value |
| JsonMethods.WriteString | client-rust/src/json.rs:216-238 | The output grows by exactly the printed string |
| JsonNesting.Nesting | client-rust/src/json.rs:150-173 | The one-pass scan of any text the parser accepts is the depth of the tree it returns, at most 32 |
| JsonNesting.NestingOfText | client-rust/src/json.rs:150-173 | So the scan refuses no text the parser accepts |
| JsonNesting.NestingOfPrint | client-rust/src/json.rs:150-173 | The scan of a print is exactly the depth of the tree printed |
| JsonNesting.DepthAllowed | client-typescript/src/json.ts:96-96 | What the parser accepts is at most 32 deep |
| NumberLayout.LayoutBack | client-rust/src/json.rs:241-305 | For every digit string and exponent, the digits and exponent read from the layout are those it was made of |
| NumberLayout.LayoutMeaning | client-rust/src/json.rs:258-284 | Each of the four layouts means 0.digits x 10^n |
| NumberLayout.LayoutForm | client-rust/src/json.rs:258-284 | There is an exponent exactly when the number is 1e21 or more or less than 1e-6, with its sign, and a point exactly when a digit written stands behind it |
| NumberLayout.RyuMeaning | client-rust/src/json.rs:291-305 | The digits and exponent read from any decimal literal give its value, without leading or trailing zeros |
| NumberLayout.WriteNumber | client-rust/src/json.rs:241-287 | The output grows by exactly the layout |
| NumberGrammar.LayoutIsNumber | client-rust/src/json.rs:241-287 | Every layout, signed or not, is one whole number of the JSON grammar |
| NumberGrammar.LaidOutReads | client-rust/src/json.rs:178-213 | A canonical print with laid-out numbers reads back exactly when the tree is acceptable |
| Limbs.ReduceModN | client-go/spake2.go:70-90 | The 32 bytes are the remainder modulo n of a byte string of any length |
| Limbs.TakeBit | client-go/spake2.go:74-87 | One bit doubles the value and takes n off exactly when it is not below n, overflow of 256 bits included |
| Limbs.ShiftIn | client-go/spake2.go:75-77 | The shift loses nothing: limbs and carry together are 2r + bit |
| Limbs.Subtract | client-go/spake2.go:78-82 | Limbs and borrow together are the difference |
| Limbs.MaskIs | client-go/spake2.go:83-83 | The mask of carry and borrow has every bit set if the doubled value overflowed or did not borrow, and none otherwise |
| Limbs.MaskChooses | client-go/spake2.go:84-86 | The bitwise choice with that mask takes all of one word or all of the other |
| Limbs.Select | client-go/spake2.go:83-86 | The loop over the limbs takes all of the difference or keeps all of the value |
| Limbs.NegModN | client-go/spake2.go:93-101 | n - s for every s up to n, a wrap around 2^256 beyond, and the additive inverse for 0 < s < n |
| Limbs.LimbBytes | client-go/spake2.go:60-66 | Bytes and limbs are the same number |
| Limbs.LimbsOf | client-go/spake2.go:52-58 | Limbs and bytes are the same number |
| CodecMethods.TextBack | client-rust/src/bytes.rs:82-131 | Decoding an encoding returns the bytes, for both codecs at any length |
| CodecMethods.OnlyEncodings | client-rust/src/bytes.rs:111-131 | Every text the decoder accepts is the encoding of what it decodes to |
| CodecMethods.Masked | client-rust/src/bytes.rs:120-121 | Masking the accumulator to 16 bits loses none of the pending bits |
| CodecMethods.B64u | client-rust/src/bytes.rs:82-107 | Chunks of three and the remainder give the encoding |
| CodecMethods.FromB64u | client-rust/src/bytes.rs:111-131 | The accumulator loop gives the decoding, or fails exactly where there is none |
| CodecMethods.B32 | client-rust/src/bytes.rs:147-163 | The accumulator loop gives the encoding |
| CodecMethods.FromB32 | client-rust/src/bytes.rs:166-187 | The accumulator loop gives the decoding, or fails exactly where there is none |
| Codecs.EncodeDecode | client-rust/src/bytes.rs:147-187 | For symbols of any width up to eight bits, decoding undoes encoding |
| Codecs.DecodeEncode | client-rust/src/bytes.rs:166-187 | For symbols of any width up to eight bits, encoding undoes decoding |

## Left out

- Relay servers, `client-rust/src/member.rs`, `client-typescript/src/member.ts` and `primary-role.ts`: they repeat the Go state machines or are not part of this model.
- WebSocket, TLS, HTTP, dialling, reconnection and goroutine plumbing: I/O around the state machines.
- The primitives (ChaCha20-Poly1305, SHA-256, HKDF, X25519, Ed25519, P-256, the SPAKE2 exchange): functions with the equations needed, or an oracle.
- Frame and session-message byte layouts: datatypes here; their round trips would only add easy members.
- Shortest-digit generation and IEEE parsing: digits and exponent are given, and whether a JSON number is in range is a parameter.
- Error texts, events, statistics, timers' bookkeeping and the reset budgets with their per-index map: they decide nothing that is proved here.
- The bound of one reset a second per index and one refusal a second per channel: the bounded maps may evict recent entries, so no strict bound holds.
- The sizes of buffers that grow by doubling: only their contents are modelled.
- Sends, SendRuns and SendResults keep the member's state as a value with explicit tasks, not as a class: aliasing of message objects is not captured. The result channel is a count of results.
- Sends: roster checks, current session, and whether a handshake can begin or its frame goes out are chosen by the environment, which allows more runs than the code has.
- Drain and CreditLink are state machines over values: memory order below the level of one atomic or locked access is not captured.
- Rosters keeps rosters as values; ids are naturals in place of 26-character strings with the same order, and members a roster has beyond the protocol's are not modelled.
- RosterSpread does not model the spacing and coalescing of roster sends: a roster message carries what its sender held when it was put under way.
- Limits: a list with an index is a sequence of ids and a map; the pointers between them are not captured.
- SessionManager: a session's own credit fields are in Flow, and the pump inside endSession is any number of rekeys begun and of sessions with messages in the gate ended.
- Delivery.Subsequence: for a relay that keeps order; for any other relay Delivery.AtMostOnce states what is left.
- Replay.FloorRefuses: for a wall clock that keeps step with the monotonic one since the member was admitted, since the floor is computed from both.
- Limits.Bounds: for a member that stays listed; one that leaves and comes back starts with fresh budgets.
- Limits.StrangerBound: for a stranger that stays in the list; one pushed out of it starts with a fresh budget when it comes back.
- NoiseBinding.HandshakeBinds: hash, MAC and sealing are taken as injective, which stands for collisions and forgeries not being found.
- Pairing: the budget for setting up exchanges and the refusals with their own budgets are one choice of the environment.
- JsonNesting.Nesting: over UTF-16 code units; the bytes of characters beyond ASCII are inert in the same way.
- JsonMethods.WriteValue: copies numbers as they are written; laying them out is `NumberLayout.WriteNumber`, and `NumberGrammar.LaidOutReads` is about trees whose numbers are.
- JsonText.NumberThen: the regular expression's match is a function of the text; no loop stands for it.
