# Verification of the virtual FIDO authenticator

Dafny models of the stateful cores of a virtual FIDO2 authenticator that is served over
USB/IP, with proofs of what they guarantee over whole runs.

| file | models |
|---|---|
| `Bytes`, `Machines`, `Wrappers` | byte encodings; runs of deterministic step functions; optional values |
| `Framing`, `Transactions`, `Channels` | CTAPHID packets, reassembly, channels |
| `RequestBuffers`, `Ownership`, `Duties`, `Delivery*`, `EndToEnd` | delivery of responses to interrupt-IN requests under four kinds of lock |
| `Reports`, `Losses`, `LostMessage` | the 64-byte reports that the host reads, timeouts included, and the messages it loses |
| `Rekey` | moving the vault to a TPM-sealed passphrase, with crashes |
| `Pin` | CTAP PIN requests and the retry counter, one request at a time |
| `PinThreads`, `PinLimit` | the same requests overlapping, on any number of threads; what that costs by how many are in flight |
| `Cose`, `Vault`, `Counters`, `Clients`, `Logins` | stored keys, the credential vault, assertions, and the counters read in them over restarts |
| `Claims` | exclusive import of a device by concurrent connections |
| `Suspend` | suspend against the attach watchdog |
| `FrameQueue` | the linked list and bounded frame queue of the mac driver |

Where the source changes state in place there is a class whose methods are proved against
a function of the old state, and the promises are proved as lemmas about that function
over all inputs and all runs. Where threads race there is a transition system whose
actions are the atomic steps of the code, and the lemmas hold for every interleaving.

Run `dafny verify dfyconfig.toml` to check the project.

## What the proofs found

* A response above 7609 bytes cannot be put together (`ReassemblesIff`): the 129th
  packet has sequence number 128, which is taken for a command.
* An interrupt-IN request that times out is replied to with 64 zero bytes. A host that
  puts together all it reads gets errors exactly if some request timed out
  (`ReportsCleanIff`), and loses exactly the messages with a timeout reply between their
  first packet and their last (`MessagesReadAre`), which happens (`TimeoutLosesMessage`).
  A host that skips the reports of channel 0 puts together a prefix of the messages of
  the other channels, without an error (`OffZeroReportsArePrefix`).
* PIN requests on different channels overlap, and the retry counter is read and written
  back without a lock. The limit of eight guesses holds exactly if no two PIN requests are
  ever in flight at once (`LimitIff`); with two it is 44, with k the binomial coefficient
  of 8 + k over 8, less one (`SharpLimit`), and without a bound any number of wrong guesses
  can be made for one retry (`LostDecrements`). The count is right throughout a run exactly
  if no write-back is stale (`AccountingIff`), which one request at a time ensures
  (`OneAtATime`). Two first PINs at once reset the counter and replace each other without a
  comparison (`FirstPINsOverlap`, `UnmatchedResetIff`).
* The PIN handlers test for a blocked PIN after `PINRetries` has panicked on it. With
  requests one at a time the blocked status is never sent and the process ends instead
  (`BlockedIsACrash`); it can be sent exactly if two requests can be in flight
  (`BlockedIff`).
* The comment on `runTPMInit` says that a failure never leaves the vault unreadable. A
  run stopped after the key file is in place and before the vault is replaced does:
  the bridge then uses the sealed passphrase, which does not open the old vault, and
  further runs are refused. `OpensAfterRunsIff` gives the exact condition and
  `WindowIsStuck` the way out. A vault file that cannot be read counts as no vault
  (`CompletedOpensIff`).
* `HowdyClient.SaveData` only logs a failed write, so a failed save followed by a restart
  repeats signature counters (`FailedSaveRepeats`). Over all runs this and the int32
  wrap-around are the only ways (`CountersIncrease`, `WrittenCountersIncrease`), and
  `RestartIff` says exactly when one restart does it.
* Not every key that can be stored is read back as itself (`RoundTripIff`): a TPM key
  with an empty blob comes back as a software key, and an RSA exponent beyond int32 is
  cut.
* A stored key of the format before COSE that is on another curve than P-256 is loaded,
  and then every save panics (`OffCurvePanics`); what a load gives can be saved exactly if
  there is none (`LoadedStorableIff`).
* The comment on `suspendPending` says that the watchdog cannot re-attach between the
  detach and the suspend. An iteration that had already read "not pending" can
  (`AttachAfterDetach`), once at most (`AtMostOneAttach`).
* A resume signal outside a suspend makes the handler forget the inhibitor lock in hand.
  The lock stays open until a garbage collection closes it (`OnlyCollectionCloses`). That,
  and a lock that is refused, are the only ways to lose the rule of one lock outside a
  suspend and none inside (`OneLockOutsideSuspend`).

## Assumptions

* Libraries are opaque function values: hashing, HMAC, AES, ECDH, signatures, TPM seal
  and unseal, vault encryption, CBOR and JSON bytes. Where a lemma needs "open undoes
  seal" it says so (`Sound`). An encoded CBOR struct is a map from label to value.
* Delivery: writes to the socket succeed, the ids of interrupt-IN requests are distinct
  over a run (they key the timers), responses have 1 to 7609 bytes and a command with
  bit 7 set other than CANCEL. The waiter that `Respond` picks is arbitrary. Lock
  sections that only compute are one step.
* Reports: interrupt-IN requests ask for 64 bytes. `ReportsCleanIff` and `MessagesReadAre`
  take messages on channel 0, which are never more than errors about that channel, to be
  of one packet.
* Packets: a capacity beyond a slice's length is that of the packet buffer, which is as
  large as the packet. Go panics while serving a packet end the process.
* PIN: what the module `Pin` says of every run is about requests that do not overlap. In
  `PinThreads` handlers interleave between any two accesses to the client's fields; a
  call of `PINRetries` reads the counter twice, once for its assertion. Each access is
  atomic and seen by all.
* Migration: the paths differ, `os.Rename` is atomic, `os.WriteFile` can stop after any
  number of bytes.
* Counters: SHA-256 gives 32 bytes, ceremonies are handled one at a time, a save writes
  the whole file or nothing, new credential ids have never been used.
* Suspend: `os.NewFile` sets a finalizer that closes a file that nothing refers to, at
  some later garbage collection or never.
* `go.mod` asks for Go 1.22, so the loop variable whose address `Import` stores is a new
  one in every iteration.

## Model

| member | source | states |
|---|---|---|
| Framing.FinalisedIffFrame | src/virtual-fido/ctap_hid/transaction.go:23-95 | On any packet sequence, packet i completes (header, payload) if and only if the packets since some point at which the channel was at rest are one init packet and continuations 0, 1, 2, ... of its channel that first reach the declared length at packet i; the payload is the first declared-length bytes of their bodies |
| Framing.OpenOrigin | src/virtual-fido/ctap_hid/transaction.go:38-94 | Every open transaction was started by one packet on an idle channel, and its header, sequence number and payload are made by the packets since then and no others |
| Framing.FrameCompletes | src/virtual-fido/ctap_hid/transaction.go:23-95 | A frame on an idle channel is finalised at its last packet and not before, and leaves the channel idle |
| Framing.StepEndsOrAdvances | src/virtual-fido/ctap_hid/transaction.go:66-95 | A stored transaction belongs to its channel, holds less than its declared length and has sequence number at most 128; any further packet keeps this and either ends it or raises the number by one, so the uint8 never wraps |
| Framing.FailsIff | src/virtual-fido/ctap_hid/transaction.go:38-94 | A packet fails with the code for an invalid command exactly if it starts a transaction and is no command, for an invalid channel exactly if the open transaction is another channel's, and for an invalid sequence exactly if it is out of it and no CANCEL |
| Framing.TransactionsEnd | src/virtual-fido/ctap_hid/transaction.go:66-95 | Whatever packets follow, an open transaction ends within 129 - sequenceNumber of them |
| Framing.FinalisedBound | src/virtual-fido/ctap_hid/transaction.go:66-95 | With 64-byte packets no message above 57 + 128 * 59 = 7609 bytes is ever finalised |
| Framing.PacketsShape | src/virtual-fido/ctap_hid/ctap_hid.go:82-106 | Every packet of a message is 64 bytes on its channel, numbered in order, and there are 1 + ceil(max(0, len - 57) / 59) of them |
| Framing.ReassemblesIff | src/virtual-fido/ctap_hid/transaction.go:23-95 | Cutting a message into packets and putting them together gives the message back, at the last packet and not before, exactly for payloads of 1 to 7609 bytes under a command with bit 7 set other than CANCEL; the code promises it for every length |
| Framing.ReorderingNeverCorrupts | src/virtual-fido/usb/usb_device.go:87-90 | Packets of one message delivered in any permutation (each is handled on its own goroutine): a message is finalised if and only if they arrive in the order sent, and then it is the message sent |
| Framing.FrameFollows | src/virtual-fido/ctap_hid/transaction.go:60-95 | A frame made of packets of one message alone is all of them, in order |
| Transactions.Transaction.Error | src/virtual-fido/ctap_hid/transaction.go:101-106 | The transaction is done, its result dropped, and reports the code, also when it was cancelled before |
| Transactions.Transaction.Cancel | src/virtual-fido/ctap_hid/transaction.go:108-112 | The transaction is done and cancelled, its result dropped, and reports a cancel unless it has an error |
| Transactions.Transaction.AddMessage | src/virtual-fido/ctap_hid/transaction.go:60-95 | The mutable transaction after a packet is the specification's next state and event; a packet after the end is an error of its own |
| Transactions.NewTransaction | src/virtual-fido/ctap_hid/transaction.go:23-58 | A transaction made from a first packet is the specification's, with a panic exactly for packets too short to parse |
| Transactions.Channel.HandleMessage | src/virtual-fido/ctap_hid/channel.go:26-42 | The channel reports the event and stores the transaction that the specification gives; a transaction that is done is dropped |
| Transactions.CreateResponsePackets | src/virtual-fido/ctap_hid/ctap_hid.go:82-106 | The loop that consumes the payload returns exactly the packets of the message |
| Channels.CTAPHIDServer.constructor | src/virtual-fido/ctap_hid/ctap_hid.go:25-36 | A new server has the broadcast channel, at rest, and no other |
| Channels.CTAPHIDServer.NewChannel | src/virtual-fido/ctap_hid/ctap_hid.go:65-70 | The channel gets the next id, modulo 2^32, and is at rest; the other channels keep their transactions unless the id is theirs |
| Channels.CTAPHIDServer.Deliver | src/virtual-fido/ctap_hid/ctap_hid.go:54-63 | One packet advances the transaction of the channel it names and no other |
| Channels.CTAPHIDServer.Answer | src/virtual-fido/ctap_hid/channel.go:44-109 | A finished transaction is dispatched as specified, and what is sent are the packets of the replies, keepalives included |
| Channels.CTAPHIDServer.AnswerCBOR | src/virtual-fido/ctap_hid/channel.go:93-109 | A CBOR request is answered by the packets of its keepalives and its response, in order; one keepalive can come after the response |
| Channels.CTAPHIDServer.HandleMessage | src/virtual-fido/ctap_hid/ctap_hid.go:54-63 | One packet changes the server as specified, and what is sent are the packets of one error with its code, of the PING, of an INIT answer (the nonce, a channel of the server at rest, the version and capabilities), or of the response to the request with nothing but keepalives around it |
| Channels.InitialIsWellFormed | src/virtual-fido/ctap_hid/ctap_hid.go:25-36 | The channel keys are the broadcast id plus exactly 1..maxChannelID at first |
| Channels.ServeKeepsWellFormed | src/virtual-fido/ctap_hid/ctap_hid.go:54-70 | Until 2^32 - 2 ids are out (a packet that opens a channel finds maxChannelID below 2^32 - 2), every packet keeps the channel keys the broadcast id plus exactly 1..maxChannelID, and each stored transaction its channel's |
| Channels.NewChannelIsFreshIff | src/virtual-fido/ctap_hid/ctap_hid.go:65-70 | An allocated id is no live channel's, exactly while fewer than 2^32 - 2 ids are out; the next id is the broadcast id |
| Channels.NonInterference | src/virtual-fido/ctap_hid/ctap_hid.go:54-70 | For any packets interleaved over many channels, what each existing channel finalises, fails and cancels, and the transaction it is left with, are those of its own packets run alone |
| Channels.AnyOrderNeverCorrupts | src/virtual-fido/usb/usb_device.go:87-90 | With one message in flight on each of many channels, and all their packets delivered in any order (each is handled on its own goroutine): a channel finalises a message if and only if its own packets arrived in the order sent, and then it is the message sent |
| Channels.MessageServed | src/virtual-fido/ctap_hid/channel.go:26-61 | The packets of a message served to a channel at rest dispatch exactly that message at the last packet; an INIT nonce shorter than eight bytes is taken with the padding that follows it |
| Channels.PingEchoes | src/virtual-fido/ctap_hid/channel.go:98-99 | A PING of 1 to 7609 bytes is answered at its last packet and not before, by packets that put together give the PING back |
| Channels.InitAnswered | src/virtual-fido/ctap_hid/channel.go:63-82 | An INIT with any payload is answered at its last packet and not before, by one 17-byte message on the broadcast channel that gives back the first eight bytes of the payload, zeroes for those it lacks, then little-endian the id of a channel that is now at rest and, while fewer than 2^32 - 2 ids are out, did not exist, then 2, 0, 0, 1, 4 |
| Channels.RequestAnswered | src/virtual-fido/ctap_hid/channel.go:86-103 | A U2F or CTAP request on an allocated channel is answered at its last packet and not before, by the application's response to exactly that request on the same channel and command, with nothing but keepalives around it, and none for U2F |
| Channels.ErrorAnswered | src/virtual-fido/ctap_hid/ctap_hid.go:54-63 | A packet that fails is answered by one error with its code on its channel, which is then at rest, and a packet for a channel that does not exist by one error, and nothing changes |
| Channels.DownIff | src/virtual-fido/ctap_hid/channel.go:63-103 | A whole message ends the process exactly if its command is none that its channel takes |
| RequestBuffers.RequestBuffer.Request | src/virtual-fido/util/request_buffer.go:20-32 | A request takes the oldest response, or joins the waiting |
| RequestBuffers.RequestBuffer.CancelRequest | src/virtual-fido/util/request_buffer.go:34-43 | The id no longer waits, and the result says whether it did |
| RequestBuffers.RequestBuffer.Respond | src/virtual-fido/util/request_buffer.go:45-61 | Some waiter is picked and removed, if there is one, and otherwise the response joins the queue at its end |
| EndToEnd.CallbackDataIsPrefix | src/virtual-fido/ctap_hid/ctap_hid.go:42-106 | In every interleaving the non-nil data given to the callbacks of interrupt-IN requests is, in order, a prefix of the packets of the messages in the order they took responsesLock, and reassembles to a prefix of those messages without error or cancel |
| Reports.ReportsCleanIff | src/virtual-fido/usbip/usbip_server.go:206-227 | In every interleaving the reports on the connection, timeouts included, reassemble without error or cancel if and only if no request has timed out, and then to a prefix of the messages; messages on channel 0 are of one packet |
| Reports.OffZeroReportsArePrefix | src/virtual-fido/usbip/usbip_server.go:206-227 | In every interleaving, timeouts or not, the reports but those of channel 0 are a prefix of the packets of the messages of other channels, and reassemble to a prefix of those messages without error or cancel |
| Losses.MessagesReadAre | src/virtual-fido/usbip/usbip_server.go:206-227 | In every interleaving, timeouts or not: the messages that the reports on the connection reassemble to are exactly those written whole with no timeout reply between their first packet and their last, in order; messages on channel 0 are of one packet |
| Losses.GapsIff | src/virtual-fido/usbip/usbip_server.go:206-227 | The gaps by which that is said: none between two replies with data exactly if no timeout reply is between them on the connection |
| LostMessage.TimeoutLosesMessage | src/virtual-fido/usb/usb_device.go:78-86 | For any message of more than one packet on any channel but 0 there is a run in which one request times out after its first packet: all packets are read, and the host reassembles an error for the report of zeroes and for each packet after it, and no message |
| Reports.ZerosFail | src/virtual-fido/usbip/usbip_server.go:206-227 | A report of zeroes fails any open transaction of a channel but 0, and is an invalid command on a channel at rest |
| EndToEnd.PrefixReassembles | src/virtual-fido/ctap_hid/transaction.go:23-95 | Any prefix of the packets of whole messages is put together to a prefix of the messages; all of the packets give all of the messages |
| EndToEnd.Conservation | src/virtual-fido/util/request_buffer.go:20-61 | In every interleaving, whichever waiters are picked: written ++ in flight ++ buffered ++ not yet responded equals the packets of the accepted messages, and there are never both waiting requests and buffered responses |
| EndToEnd.ResolvedOnce | src/virtual-fido/usbip/usbip_server.go:197-249 | A request is resolved at most once by response, timeout or unlink, and is resolved once its timer has run; ECONNRESET means this unlink resolved it, and then no RET_SUBMIT for it is ever written |
| EndToEnd.UnlinkResetIff | src/virtual-fido/usbip/usbip_server.go:230-249 | An unlink will report ECONNRESET exactly if its request was submitted and is unresolved, and then the unlink resolves it |
| EndToEnd.AnsweredOnce | src/virtual-fido/usbip/usbip_server.go:206-249 | No two replies on the wire answer the same request |
| EndToEnd.QuietAnswersAll | src/virtual-fido/usb/usb_device.go:78-86 | When all threads have finished, every request ever submitted is resolved once and its answer is on the wire |
| EndToEnd.QuietDeliversAll | src/virtual-fido/util/request_buffer.go:20-61 | When all threads have finished, every accepted packet has been written or is buffered for requests to come, in order |
| EndToEnd.Reachable | src/virtual-fido/usbip/usbip_server.go:164-255 | Locks, order and answers are as the invariant says in every state of every interleaving |
| EndToEnd.NeverStuck | src/virtual-fido/ctap_hid/channel.go:26-42 | In every interleaving a thread with something to do can step, or waits through lock holders for one that can, never in a ring |
| DeliveryProgress.NoCyclicWait | src/virtual-fido/ctap_hid/ctap_hid.go:42-52 | Threads take the channel lock, responsesLock, the buffer lock and responseMutex only in that order, so no ring of threads waits for itself |
| DeliveryProgress.SomeoneProgresses | src/virtual-fido/usbip/usbip_server.go:251-255 | Following lock holders from any blocked thread leads to a thread whose next step is enabled |
| DeliverySafety.LocksKept | src/virtual-fido/util/request_buffer.go:20-61 | Every step keeps each lock held by exactly the thread whose program counter says so |
| DeliverySafety.OrderKept | src/virtual-fido/ctap_hid/ctap_hid.go:42-52 | Every step keeps the order of the packets from acceptance to the wire |
| DeliveryAnswers.AnswersKept | src/virtual-fido/usb/usb_device.go:71-94 | Every step keeps: unresolved requests are the waiting ones, every resolution is owed or answered once, every request has its timer |
| Rekey.Disk.WriteFile | src/virtual-fido/cmd/howdy-bridge/tpm_linux.go:118-124 | Every state of the disk while os.WriteFile runs is a cut-off write; it succeeds exactly if nothing fails, and success leaves the whole file |
| Rekey.Disk.Rename | src/virtual-fido/cmd/howdy-bridge/tpm_linux.go:123 | The rename happens as a whole or not at all |
| Rekey.Disk.WriteFileAtomic | src/virtual-fido/cmd/howdy-bridge/tpm_linux.go:118-124 | The target changes only by the rename, from its old to its new contents |
| Rekey.Disk.RunTPMInit | src/virtual-fido/cmd/howdy-bridge/tpm_linux.go:53-116 | Every state the disk goes through is one the migration is specified to pass; an error before the first write changes nothing; the run succeeds exactly if its checks pass, the vault, if there is one, can be encrypted, and no disk operation that it comes to fails; success leaves the migrated disk |
| Rekey.LeavesSafe | src/virtual-fido/cmd/howdy-bridge/tpm_linux.go:53-124 | One run stopped anywhere keeps the disk safe |
| Rekey.MigrationSafe | src/virtual-fido/cmd/howdy-bridge/tpm_linux.go:53-124 | Over any sequence of runs each stopped at any point: the vault file holds its original bytes or decrypts to the original state under the passphrase unsealed from the key file; the key file is never torn; with the key in place the backup holds the original unless that run could not read the vault |
| Rekey.OpensAfterRunsIff | src/virtual-fido/cmd/howdy-bridge/tpm_linux.go:46-116 | The promise that a failure never leaves the vault unreadable holds exactly unless the key file is in place and the vault is still the old one |
| Rekey.WindowIsStuck | src/virtual-fido/cmd/howdy-bridge/tpm_linux.go:53-116 | A run stopped between the two renames gets into that state, every further run is refused and changes nothing, and removing the key file by hand opens the vault again |
| Rekey.CompletedOpensIff | src/virtual-fido/cmd/howdy-bridge/tpm_linux.go:28-45 | After a completed run the bridge opens the vault to the same state exactly if the run could read the vault file |
| Rekey.FaultFreeOpens | src/virtual-fido/cmd/howdy-bridge/tpm_linux.go:53-116 | On a disk with a vault and no key file, with the passphrase that opens it, a working TPM and a working encryption, the run proceeds, and without a fault the bridge then opens the vault to the same state, with a backup of the original beside it |
| Rekey.SealedRoundTrip | src/virtual-fido/cmd/howdy-bridge/tpm_linux.go:237-276 | A sealed blob is its two parts, each after its length in four big-endian bytes; it splits back into them, and no proper prefix of it passes for a blob |
| Pin.Unpad | src/virtual-fido/ctap/ctap.go:468-478 | The decrypted PIN ends before the first zero byte, and is empty without one |
| Pin.CTAPServer.constructor | src/virtual-fido/fido_client/fido_client.go:58-81 | A process starts with eight retries and the PIN hash it loaded |
| Pin.CTAPServer.PINRetries | src/virtual-fido/fido_client/fido_client.go:168-171 | Reading the counter panics unless it is 1 to 8 |
| Pin.CTAPServer.DecryptPIN | src/virtual-fido/ctap/ctap.go:468-478 | The loop finds the bytes before the first zero; a partial block panics |
| Pin.CTAPServer.HandleSetPIN | src/virtual-fido/ctap/ctap.go:536-557 | Retries, hash and comparisons after the request are the specification's |
| Pin.CTAPServer.HandleChangePIN | src/virtual-fido/ctap/ctap.go:559-585 | The same for changing the PIN: a retry is spent before the comparison |
| Pin.CTAPServer.HandleGetPINToken | src/virtual-fido/ctap/ctap.go:587-609 | The same for the PIN token |
| Pin.CTAPServer.HandleClientPIN | src/virtual-fido/ctap/ctap.go:480-511 | The same for the dispatch, with its statuses |
| Pin.RetryAccounting | src/virtual-fido/ctap/ctap.go:559-609 | In every run of requests one at a time, wrong comparisons since the last reset plus retries is 8 while the process lives, and no stretch without a reset holds a ninth wrong comparison |
| Pin.ResetNeedsMatch | src/virtual-fido/ctap/ctap.go:536-609 | With requests one at a time, a PIN hash that is set stays set, and every later reset of the counter follows a matching comparison |
| Pin.EightGuesses | src/virtual-fido/ctap/ctap.go:559-609 | Requests one at a time that never carry the PIN hash get eight comparisons at most out of a process, no token and no change of the PIN |
| Pin.TokenIff | src/virtual-fido/ctap/ctap.go:587-609 | Exactly which requests get a PIN token |
| Pin.SetPINIff | src/virtual-fido/ctap/ctap.go:536-557 | A first PIN is accepted exactly if none is set, the parameters are there, the HMAC is right, and the encrypted PIN decrypts to at least four bytes before the first zero |
| Pin.SetPINRefused | src/virtual-fido/ctap/ctap.go:536-557 | A PIN that is set or a wrong HMAC gets PIN_AUTH_INVALID, a PIN that is too short PIN_POLICY_VIOLATION, and nothing changes |
| Pin.ChangePINIff | src/virtual-fido/ctap/ctap.go:559-585 | A PIN is changed exactly if the parameters are there, a retry is left, the HMAC of the encrypted PIN followed by the encrypted hash is right, the hash decrypts to the stored one, and the PIN to at least four bytes before the first zero |
| Pin.NewPINOpens | src/virtual-fido/ctap/ctap.go:548-609 | After an accepted request that set or changed the PIN to p, all eight retries are left, and a request for a token gets it if and only if its hash decrypts to the hash of p; otherwise it gets PIN_INVALID and costs one retry |
| Pin.OnlyComparisonsCost | src/virtual-fido/ctap/ctap.go:480-609 | A request after which the process lives and no comparison or reset was made has changed nothing |
| Pin.WrongIsSaid | src/virtual-fido/ctap/ctap.go:559-609 | PIN_INVALID is reported for a wrong comparison, which has cost one retry, and whatever costs a retry while the process lives is reported so |
| Pin.RetriesReported | src/virtual-fido/ctap/ctap.go:513-520 | The retries that are reported are those that are left |
| Pin.GrantNeedsMatch | src/virtual-fido/ctap/ctap.go:559-609 | A request served alone that gives a token or replaces a PIN compared the stored hash with an equal one and leaves eight retries |
| Pin.BlockedIsACrash | src/virtual-fido/ctap/ctap.go:513-609 | In every run of requests one at a time the blocked status is never reported; with no retry left, a request of sub-command 1, 4 or 5 ends the process exactly if it gets as far as reading the counter, or is a token request without a key |
| PinThreads.AccountingIff | src/virtual-fido/ctap/ctap.go:571-603 | Over every run of any number of overlapping handlers: retries spent since the last reset plus retries left is 8 throughout the run if and only if every write-back of the counter still sees the value its handler read |
| PinThreads.LostDecrements | src/virtual-fido/ctap/ctap.go:591-599 | For any number m there is a run in which m handlers make m wrong comparisons, without a reset, and seven retries are left |
| PinLimit.LimitIff | src/virtual-fido/ctap/ctap.go:559-609 | The limit of eight comparisons holds over every run of requests that never carry the PIN hash if and only if no two PIN requests are ever in flight at once, over all channels |
| PinLimit.SharpLimit | src/virtual-fido/ctap/ctap.go:559-609 | With at most k handlers in flight, such requests get at most n comparisons out of every run if and only if n is at least the binomial coefficient of 8 + k over 8, less one: 8 for one, 44 for two |
| PinLimit.GuessesLimited | src/virtual-fido/ctap/ctap.go:559-609 | In every run with at most k handlers in flight, requests that never carry the PIN hash get that many comparisons at most, no token and no change of the PIN |
| PinLimit.OneAtATime | src/virtual-fido/ctap/ctap.go:559-609 | In every run of any requests with one handler in flight at a time, no write-back is stale or spends a retry that was read as none, and the count of retries is right throughout |
| PinLimit.BalancedIff | src/virtual-fido/ctap/ctap.go:559-609 | The count of retries is right over every run if and only if no two handlers are ever in flight at once |
| PinLimit.BlockedIff | src/virtual-fido/ctap/ctap.go:563-592 | Some run from the start of the process reports the blocked status if and only if two handlers can be in flight at once |
| PinThreads.ResetNeedsMatch | src/virtual-fido/ctap/ctap.go:536-609 | Once a PIN is set and no handler is past its test for a set PIN and before its reset, over every run the PIN stays set and every reset is made by a handler that has matched the stored hash |
| PinThreads.UnmatchedResetIff | src/virtual-fido/ctap/ctap.go:536-557 | With a PIN set, in every matched state (as all reachable ones are), some continuation resets the counter without a match if and only if a handler is past that test and before its reset |
| PinThreads.FreshMatched | src/virtual-fido/ctap/ctap.go:559-609 | In every reachable state, a handler that has given a token, or is about to store a changed PIN or to reset the counter for either, has matched the stored hash; one that sets a first PIN has not |
| PinThreads.FirstPINsOverlap | src/virtual-fido/ctap/ctap.go:536-557 | Two handlers that set a first PIN at once reset the counter twice, and the second replaces the PIN of the first without a comparison |
| PinThreads.FirstPINsMeet | src/virtual-fido/ctap/ctap.go:536-557 | With no PIN set, any two valid requests for a first PIN can get there |
| PinThreads.OverlappingGrants | src/virtual-fido/ctap/ctap.go:559-609 | In every run, a PIN token is given only to a handler that has matched the stored hash, and a step changes the stored hash only for one that has matched it or sets a first PIN |
| PinThreads.AloneServes | src/virtual-fido/ctap/ctap.go:480-609 | A handler that runs with nobody else running does to counter, hash, log and reply exactly what the module Pin says of its request |
| PinThreads.SerialIsPin | src/virtual-fido/ctap/ctap.go:480-609 | Requests served one after the other, each by a handler of its own, end in the state of the module Pin, for any sequence of requests |
| PinThreads.HistoryIsFaithful | src/virtual-fido/ctap/ctap.go:559-609 | The counts of retries spent and comparisons made are those of the log of the run |
| Cose.TPMRoundTrip | src/virtual-fido/cose/cose.go:441-479 | A TPM key with a blob is read back; without one it comes back as a software key |
| Cose.ECDSARoundTrip | src/virtual-fido/cose/cose.go:235-272 | A P-256 key is read back, through the TPM probe |
| Cose.Ed25519RoundTrip | src/virtual-fido/cose/cose.go:299-318 | An Ed25519 key is read back from its seed |
| Cose.RSARoundTrip | src/virtual-fido/cose/cose.go:353-387 | An RSA key is read back with its first two primes and its exponent cut to int32 |
| Cose.RoundTripIff | src/virtual-fido/cose/cose.go:452-498 | A private key that can be stored is read back as itself exactly if one variant is set: a TPM key with a blob, a P-256 key, an Ed25519 key of its seed, or an RSA key with two primes, an int32 exponent and its precomputed values |
| Cose.StoredFields | src/virtual-fido/cose/cose.go:181-400 | The stored forms have key type, algorithm, curve, coordinates, scalar, seed and RSA numbers under the labels of RFC 9053 and RFC 8230 |
| Cose.StorableMarshals | src/virtual-fido/cose/cose.go:452-498 | Such a key never panics when stored |
| Cose.DecodedIsStorable | src/virtual-fido/cose/cose.go:441-498 | Every key that decodes from the COSE format is storable again |
| Bytes.MagnitudeRoundTrip | src/virtual-fido/cose/cose.go:268-271 | Big-endian magnitude bytes decode back to the same number |
| Vault.IdentityVault.NewIdentity | src/virtual-fido/identities/identity_vault.go:46-69 | The new credential is appended with counter 0; without a key from the TPM nothing changes and the result is null |
| Vault.IdentityVault.AddIdentity | src/virtual-fido/identities/identity_vault.go:71-73 | The source is appended |
| Vault.IdentityVault.DeleteIdentity | src/virtual-fido/identities/identity_vault.go:75-84 | The first entry with the id is replaced by the last, and the result says whether there was one |
| Vault.IdentityVault.GetMatchingCredentialSources | src/virtual-fido/identities/identity_vault.go:86-103 | The nested loops return the sources at the matching positions |
| Vault.IdentityVault.IsAllowed | src/virtual-fido/identities/identity_vault.go:91-96 | The inner loop finds whether the allow list names the id |
| Vault.IdentityVault.Export | src/virtual-fido/identities/identity_vault.go:105-120 | The loop saves every entry in order, and panics exactly if some key cannot be stored |
| Vault.IdentityVault.Import | src/virtual-fido/identities/identity_vault.go:122-143 | The loop appends the entries before the first that fails, and reports how it ended |
| Vault.MatchingExact | src/virtual-fido/identities/identity_vault.go:86-103 | The matching positions are those of the relying party's entries that the allow list names, in order |
| Vault.DeletedIsOneLess | src/virtual-fido/identities/identity_vault.go:75-84 | Deleting takes out exactly one entry, as a multiset, and nothing when the id is unknown |
| Vault.DeletedInPlace | src/virtual-fido/identities/identity_vault.go:75-84 | The last entry takes the place of the first one with the id, and all others stay where they are |
| Vault.DeletedKeepsOthers | src/virtual-fido/identities/identity_vault.go:75-84 | With unique ids, deleting leaves all entries with other ids and no others |
| Vault.SaveLoadIff | src/virtual-fido/identities/identity_vault.go:105-143 | Import after Export restores every credential in order with its own relying party, user and counter exactly if every key is storable |
| Vault.LoadedKeeps | src/virtual-fido/identities/identity_vault.go:122-143 | Every loaded entry has the kind, id, relying party, user and counter of the saved one, whatever format its key is in, and loading stops exactly at the first one that fails |
| Vault.LoadsIff | src/virtual-fido/identities/identity_vault.go:122-143 | A saved entry is loaded exactly if its key is one in either format, and ends the process exactly if decoding it panics |
| Vault.StorableExports | src/virtual-fido/identities/identity_vault.go:105-143 | With storable keys, saving succeeds and loading gives the same entries |
| Vault.LoadedStorableIff | src/virtual-fido/identities/identity_vault.go:122-143 | What a load gives can be saved again exactly if no loaded key of the format before COSE is on another curve than P-256 |
| Vault.OffCurvePanics | src/virtual-fido/identities/identity_vault.go:105-143 | With such a key among the loaded ones, saving panics |
| Clients.DefaultFIDOClient.constructor | src/virtual-fido/fido_client/fido_client.go:58-81 | A started client holds what a load gives, a failed import is not noticed, and it is valid exactly if no loaded key of the format before COSE is on another curve than P-256 |
| Clients.DefaultFIDOClient.SaveData | src/virtual-fido/fido_client/fido_client.go:258-261 | The file gets the exported vault if it is written, and is otherwise left as it is; encoding panics exactly if some key cannot be encoded; the vault does not change |
| Clients.DefaultFIDOClient.Save | src/virtual-fido/fido_client/fido_client.go:258-261 | Saving a valid client does not panic, and puts the vault in memory on disk, as a load would give it back, if the file is written |
| Clients.DefaultFIDOClient.Increment | src/virtual-fido/fido_client/fido_client.go:116 | One counter goes up by one, modulo int32, and nothing else changes |
| Clients.DefaultFIDOClient.GetAssertionSource | src/virtual-fido/fido_client/fido_client.go:107-119 | The source is the first credential of the relying party that the allow list, if there is one, names, and null exactly if there is none; its counter is incremented and the vault saved before it is returned |
| Clients.FlagsMean | src/virtual-fido/ctap/ctap.go:356-400 | In an assertion UP is set exactly if the user was asked and agreed, UV exactly if so or if PINs are enabled and the request carries the HMAC of its client data under the PIN token; each refusal is given exactly for its reason: a request that claims to be authenticated and is not, which changes nothing, no credential that matches, a user who refuses |
| Clients.DefaultFIDOClient.Assert | src/virtual-fido/ctap/ctap.go:387-400 | The assertion carries the credential's id, the hash of the relying party's id, the credential's counter, read back from bytes 33 to 36, and a signature over both authenticator data and client data; the log of emitted counters gets that counter |
| Clients.DefaultFIDOClient.Login | src/virtual-fido/ctap/ctap.go:370-400 | The ceremony after the PIN part: the state and the reply are those that AssertionProves and FlagsMean are about |
| Clients.DefaultFIDOClient.HandleGetAssertion | src/virtual-fido/ctap/ctap.go:346-400 | An assertion is made by the first credential that matches and signed by its key over authenticator data and client data; the counter in its bytes 33 to 36 is that credential's, one more than before up to the wrap-around, and is what the log of emitted counters gets; without an assertion nothing is emitted |
| Clients.AssertionProves | src/virtual-fido/ctap/ctap.go:346-400 | The same of the specified reply, from any state, and a request that cannot be decoded is refused and changes nothing |
| Clients.DefaultFIDOClient.NewCredentialSource | src/virtual-fido/fido_client/fido_client.go:87-105 | Null without a supported algorithm, and then nothing happens, or without a key, and then the vault is saved as it is; otherwise the new credential is in the vault with counter 0, and on disk if the file is written |
| Clients.DefaultFIDOClient.IsSupported | src/virtual-fido/fido_client/fido_client.go:92-101 | The loop finds whether ES256 public keys are among the parameters |
| Clients.DefaultFIDOClient.DeleteIdentity | src/virtual-fido/fido_client/fido_client.go:278-284 | The credential is gone from the vault, and from disk if the file is written |
| Clients.AuthDataParses | src/virtual-fido/ctap/ctap.go:165-173 | Flags and counter are read back from their places in the authenticator data |
| Counters.CeremonyIsFourSteps | src/virtual-fido/ctap/ctap.go:370-400 | Handling an assertion is the steps select, save, approve, emit of the state machine |
| Counters.ChangesAreTwoSteps | src/virtual-fido/fido_client/fido_client.go:87-105 | Creating and deleting are a change of the vault and a save |
| Counters.CountersIncrease | src/virtual-fido/fido_client/fido_client.go:107-119 | Over every run with failing saves and restarts anywhere: counters emitted for a credential strictly increase as long as no counter is at its largest when incremented and no restart finds a counter on disk behind an emitted one |
| Counters.WrittenCountersIncrease | src/virtual-fido/fido_client/fido_client.go:107-119 | If every save is written, counters strictly increase over any run with restarts at any point, because the counter is on disk before it is emitted |
| Logins.ReadCountersIncrease | src/virtual-fido/ctap/ctap.go:370-400 | Over every run of logins, new and deleted credentials and restarts, also in the middle of a login, with saves that may fail: the counters that relying parties read in the assertions of one credential strictly increase, as long as no counter is at its largest when incremented and no restart finds a counter on disk behind an emitted one |
| Logins.WrittenReadCountersIncrease | src/virtual-fido/fido_client/fido_client.go:107-119 | If every save is written, the counters that relying parties read strictly increase over any such run, up to the wrap-around |
| Counters.RestartIff | src/virtual-fido/cmd/howdy-bridge/approver.go:99-104 | The guards are exact: after a restart, the next counters still increase exactly if the disk was not behind |
| Counters.FailedSaveRepeats | src/virtual-fido/cmd/howdy-bridge/approver.go:99-104 | A save that failed with only a log line, followed by a restart, emits the same counter twice |
| Claims.USBIPServer.ClaimDevice | src/virtual-fido/usbip/usbip_server.go:34-45 | A claim succeeds exactly if the device is free, and it is claimed afterwards |
| Claims.USBIPServer.ReleaseDevice | src/virtual-fido/usbip/usbip_server.go:48-52 | The device is free again and no other claim changes |
| Claims.USBIPServer.HandleCommands | src/virtual-fido/usbip/usbip_server.go:164-186 | All commands before the first that panics are served, that one ends it, and the device is claimed meanwhile |
| Claims.USBIPServer.ServeImport | src/virtual-fido/usbip/usbip_server.go:150-155 | Whether the reply is written or panics, the deferred release gives the claim back and no other |
| Claims.USBIPServer.Handle | src/virtual-fido/usbip/usbip_server.go:109-162 | A connection on its own serves its messages up to the first whose reply cannot be written, and all of them if there is none; it leaves the claims as it found them, wherever it panics, and gets exactly the devices that exist and are free |
| Claims.ExclusiveImport | src/virtual-fido/usbip/usbip_server.go:34-52 | With any number of connections, in every reachable state the claim set is exactly the devices held inside the import branch, each by one connection; a connection that has ended has released each device as often as it claimed it |
| Claims.ImportIff | src/virtual-fido/usbip/usbip_server.go:141-151 | A connection gets the device it asks for exactly if no other is between claiming and releasing it |
| Claims.PanicReleases | src/virtual-fido/usbip/usbip_server.go:152-156 | However the import branch ends, two steps of its own connection free the device |
| Suspend.Bridge.HandleSleepSignals | src/virtual-fido/cmd/howdy-bridge/sleep_linux.go:105-134 | The signal loop run alone does the handler's steps in order |
| Suspend.SignalEnds | src/virtual-fido/cmd/howdy-bridge/sleep_linux.go:117-134 | A suspend signal ends with the port detached and then the lock closed, if there is one; a resume signal takes a lock, if it gets one, clears the mark and then attaches the port |
| Suspend.AttachedOutsideSuspend | src/virtual-fido/cmd/howdy-bridge/sleep_linux.go:105-134 | Over every run: between signals, outside a suspend, the port is attached |
| Suspend.Bridge.Turn | src/virtual-fido/cmd/howdy-bridge/server_linux.go:51-63 | One turn of the watchdog run alone does its three steps, and attaches exactly if no suspend is pending and no device is attached |
| Suspend.AtMostOneAttach | src/virtual-fido/cmd/howdy-bridge/server_linux.go:51-63 | Over all interleavings, while a suspend is pending the watchdog attaches at most once, and never if no iteration was in flight |
| Suspend.AttachAfterDetachIff | src/virtual-fido/cmd/howdy-bridge/sleep_linux.go:54-62 | The watchdog can attach while a suspend is pending exactly if an iteration was in flight when it was marked |
| Suspend.AttachAfterDetach | src/virtual-fido/cmd/howdy-bridge/sleep_linux.go:54-57 | An iteration in flight puts the port back after the detach and before the lock is closed |
| Suspend.LocksClosedInOrder | src/virtual-fido/cmd/howdy-bridge/sleep_linux.go:117-127 | Over every run, with any signals and with collections at any time: no lock is closed twice, by the handler or a finalizer, and the handler closes a lock only after its own suspend's mark and detach |
| Suspend.OneLockOutsideSuspend | src/virtual-fido/cmd/howdy-bridge/sleep_linux.go:117-134 | Over every run: the lock in hand is the one open lock outside a suspend, and none is open inside, throughout the run if and only if the first lock is granted and every resume signal comes while a suspend is pending and gets its lock |
| Suspend.OnlyCollectionCloses | src/virtual-fido/cmd/howdy-bridge/sleep_linux.go:129-133 | After a resume signal outside a suspend the handler never closes the lock it had in hand; it stays open exactly until a garbage collection closes it, which can happen at any time |
| FrameQueue.LinkedList.constructor | src/virtual-fido/mac/USBDriver/USBDriver/util.cpp:24-30 | A new list is empty |
| FrameQueue.LinkedList.Push | src/virtual-fido/mac/USBDriver/USBDriver/util.cpp:45-57 | The pointers form the old sequence with the new node at its end; only the last node changes |
| FrameQueue.LinkedList.PopFront | src/virtual-fido/mac/USBDriver/USBDriver/util.cpp:59-76 | The first element is taken and its node freed, or none from an empty list |
| FrameQueue.LinkedList.Free | src/virtual-fido/mac/USBDriver/USBDriver/util.cpp:32-43 | Every node of the list is freed and no other; only allocated nodes are read or freed, so none is read after it is freed and none is freed twice |
| FrameQueue.USBUserClient.HandleNotifyFrame | src/virtual-fido/mac/USBDriver/USBDriver/USBUserClient.cpp:169-177 | From then on frames are queued; without a completion the request is refused and nothing changes |
| FrameQueue.USBUserClient.NewHIDFrame | src/virtual-fido/mac/USBDriver/USBDriver/USBUserClient.cpp:179-203 | A frame joins the queue; with 17 waiting the oldest is dropped first; without a listener it is ignored |
| FrameQueue.USBUserClient.HandleGetFrame | src/virtual-fido/mac/USBDriver/USBDriver/USBUserClient.cpp:209-220 | The oldest frame is returned and leaves, or none |
| FrameQueue.QueueConserves | src/virtual-fido/mac/USBDriver/USBDriver/USBUserClient.cpp:169-220 | Under any mix of requests: fetched or dropped frames followed by the waiting ones are the frames that came once somebody had asked to be notified, at most 17 wait, and the frames returned are an in-order subsequence of those |
| FrameQueue.DropsIff | src/virtual-fido/mac/USBDriver/USBDriver/USBUserClient.cpp:187-190 | A frame is dropped exactly when a new one finds 17 waiting, and it is the oldest |

## Left out

- Sockets, listener, loopback check, partial reads of the transfer buffer, process execution and D-Bus calls: I/O; only their effects (attach, detach, write, lock closed) are modelled.
- Cryptography, attestation certificates, AES/GCM and scrypt, go-tpm commands: library code, opaque here.
- CBOR and JSON bytes, and the parser of the key format used before COSE: library code.
- Encoding of COSE public keys: `util.ToBE` on a Go `int` writes nothing, so no public RSA round trip is claimed.
- USB descriptors, control endpoint, setup-packet fields, device list, port-list parsing, logging, demo and tools commands, Swift and IOKit code: finite or plumbing.
- `USBDevice` and the submit/unlink handlers have no class of their own; their steps are actions of `Delivery`, which uses the functions that the class `RequestBuffer` is proved against.
- The copy of a response into a transfer buffer of another length than 64 bytes.
- What a channel handler answers is arbitrary in `Delivery`, keepalives included; `Channels` says what it is, for packets taken one after the other.
- A connection that drops while responses are in flight, and the `responseMutex` it leaves locked.
- A server without a response handler, which drops its packets.
- The data race on the `channels` map between packets handled at once: `HandleMessage` takes packets one after the other; their orders are quantified over.
- A keepalive tick after the final response: possible in the model, and no promise is made about it.
- Channels.CTAPHIDServer.HandleMessage: after a panic nothing is promised about the state, because the process is gone.
- Channels.MessageServed: packets of less than 15 bytes that carry an INIT with a short nonce over several packets are taken to panic; the source then depends on how far `append` rounds up a capacity.
- Rekey.MigrationSafe: errors of `os.Stat` and `os.ReadFile` on the key file are not modelled, nor power loss that undoes a finished rename.
- Pin.RetryAccounting: it is about requests one at a time, and `PinThreads.AccountingIff` is the statement for overlapping ones; retries are per process, since `pinRetries` is not saved; PIN saves and the PIN settings of the user interface are not modelled.
- Pin.EightGuesses: it is about requests one at a time (`PinLimit.SharpLimit` is about overlapping ones); a PIN hash that is not set compares equal to an empty decryption, as in the code; the lemma is about a hash that is set.
- PinLimit.SharpLimit: it is about requests that never carry the PIN hash; one that does resets the counter, and what the others get after that is not bounded.
- Counters.WrittenCountersIncrease: overlapping ceremonies, and a vault file torn by a crash during a save, are outside it.
- U2F counters, which are not saved, and making a credential beyond the vault entry it adds.
- FrameQueue.LinkedList.Free: the frames that the nodes point to are not freed by the source and not modelled.
- Frames longer than the driver's frame buffer.
