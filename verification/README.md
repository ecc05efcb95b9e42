# Protocol kernels of a router firmware, verified

Machine-checked models of four independent parts of the firmware's user-space programs, and proofs
of what they are for.

**SSL 3.0 (MatrixSSL 1.8.1).** The record layer, the handshake state machine, the flights and
their size tests, as functions on a session value (`SslCrypto`, `SslRecord`, `SslState`,
`SslHandshake`, `SslFlight`, `SslDecode`), and as a class that moves through its buffers in place
(`SslSession`), each method proved to do what the functions say. Ciphers, hashes and RSA are any
functions with the right sizes where decryption undoes encryption
(`SslTwoParty.SettingIsPossible` gives some). On top:
`SslTwoParty` (a client and a server over a faithful channel finish the full and the resumed
handshake in step with each other), `SslConversation` (whole conversations arrive as sent),
`SslStream` (how the input is cut into pieces makes no difference), `SslServer` (what holds of a
server after any run of calls with any input), `SslTranscript` (what its transcript is then made
of), `SslFlightSize` (the size tests).

**The DHCPv6 server (dhcp 0.10).** `DhcpHash` is the hash table that grows in place; `DhcpTimers`
the timer list whose callbacks may add, set and mark timers during a pass; `DhcpLeases` the
operations on leases and bindings, `DhcpInvariant` and `DhcpBindings` what each keeps and exactly
does, `DhcpServer` whole runs of requests and timer passes, `DhcpExpiry` what becomes of one lease
over passes; `DhcpStore` the database in place, with two hash tables and the timer queue behind it
and the server's callbacks at work in a pass; `DhcpAddresses` the address allocator.

**The DHCPv6 option codec (RFC 3315 section 22, RFC 3633 sections 9 and 10, RFC 3646).**
`DhcpOptions`: the nested type-length-value encoder and decoder over arrays, and their round trip.

**Two small kernels.** `AcssTables`, `AcssRegisters`, `Acss`: the ACSS stream cipher. `Glob`,
`GlobLanguage`: the csh-style matcher and the language of a pattern.

What the code does differently from what it promises is kept, with the exact condition:

- A record announces its length in 16 bits although the encoder takes payloads of up to 128 KB; a
  payload is delivered exactly if its protected fragment is shorter than 65536 bytes
  (`SslConversation.DeliveredExactly`).
- The size test of a flight that ends in a Finished under a new cipher ignores that cipher's MAC and
  padding; with just the tested room the flight stops after the ChangeCipherSpec
  (`SslFlightSize.FirstFinalFlightExactly`, `SslFlightSize.FinalFlightStopsHalfWay`, and for the
  resumed handshake `SslFlightSize.ResumeFlightExactly` and `ResumeFlightStopsHalfWay`).
- A client that asks for a session the server has forgotten takes the server's new session for its
  own if the ids agree, and then refuses the certificate: the full handshake succeeds exactly if
  the fresh id is another one (`SslTwoParty.FullHandshake`, with a case in
  `SslTwoParty.OwnIdHappens`).
- A request of a client that already has a binding unhooks that binding
  from the table when the new record is undone (`DhcpBindings.AddKeepsExactly`); the server
  avoids it by updating instead.
- Renewing a lease for ever leaves its old timer running, and a lease granted for ever still ends
  with its binding: exactly when is `DhcpExpiry.InfiniteExpiresExactly` and
  `DhcpExpiry.GrantedExpiresExactly`, and two leases that end are `DhcpExpiry.RenewedRunsOut` and
  `DhcpExpiry.PreferredRunsOut`.
- The load test of the hash table multiplies in 32 bits. It is right about every count a table can
  come to exactly up to 47197441 buckets (`DhcpHash.TestIsRightExactly`), and beyond 47197442 it
  never finds a table full (`DhcpHash.CanBeFull`); so a table that has outgrown the bound is
  overfull from the first count above 90 percent on (`DhcpHash.RunLoadsExactly`,
  `DhcpHash.BreaksAtFirstHeavy`). The default table comes to that at 61054157 entries in 67092480
  buckets (`DhcpHash.DefaultBreaks`).
- The lease table's comparison looks at the type in the key only. Among addresses of given types it
  is an equality exactly if prefixes do not come with ordinary or temporary addresses
  (`DhcpLeases.NamedExactly`); these two may come together.
- A warning alert is reported but not taken off the input, although the read cipher and its counter
  have moved on. Handed in again, the bytes are reported again for ever on an unprotected
  connection (`SslServer.PlainWarningRepeats`); on a protected one they are a bad record, unless
  they happen to carry the MAC for the next counter (`SslServer.ProtectedWarningGoesOn`).
- A ClientHello takes the whole rest of its record, but only the part its length field covers goes
  into the transcript (`SslTranscript.SliceIsUsed`).
- The allocator tests the unspecified address like any other when it has gone round; were that in
  use too, it would not end (`DhcpAddresses.NeverEnds`).
- One address that prefers to live longer than it is valid makes the whole message unreadable
  (`DhcpOptions.RoundTrip`), and a DUID's length travels in one byte (`DhcpOptions.DuidExactly`).

`dafny verify dfyconfig.toml` checks everything.

## Model

| member | source | states |
|---|---|---|
| SslTwoParty.FullHandshake | src/apps/matrixssl-1-8-1/sslDecode.c:477-1401 | With the client asking for any suite and possibly for a session the server has forgotten, the exchange comes to its end exactly if the id of the new session is not the one the client would have resumed; then nothing is left in flight and both are done with equal transcripts, equal master secret, mirrored keys and counters of one, and each direction is linked |
| SslTwoParty.OwnIdHappens | src/apps/matrixssl-1-8-1/sslDecode.c:1109-1124 | For any server that remembers nothing there is a session whose resumption fails that way |
| SslTwoParty.TakenForOwn | src/apps/matrixssl-1-8-1/sslDecode.c:522-560 | A client that takes the new id for its own refuses the certificate that follows |
| SslTwoParty.FreshHandshake | src/apps/matrixssl-1-8-1/sslEncode.c:120-341 | The same for a client without a session, with no condition on the session cache; the suite is the one asked for, or 3DES-SHA |
| SslTwoParty.ResumedHandshake | src/apps/matrixssl-1-8-1/sslDecode.c:650-682 | A session the server remembers is resumed: both ends done, resumed, in step, under the session's suite and master secret |
| SslTwoParty.TurnInPieces | src/apps/matrixssl-1-8-1/sslDecode.c:89-178 | A turn of either side does not depend on the pieces in which the channel delivers its bytes |
| SslTwoParty.ServerHears | src/apps/matrixssl-1-8-1/sslDecode.c:611-893 | The server's first pass over a ClientHello of this client, for every suite and session offered |
| SslTwoParty.ClientReads | src/apps/matrixssl-1-8-1/sslDecode.c:1069-1327 | The client's way through ServerHello, certificate chain and ServerHelloDone ends before its key exchange with the transcript of exactly these messages |
| SslTwoParty.KeysMatch | src/apps/matrixssl-1-8-1/sslv3.c:84-221 | After the key exchange both sides hold the same transcript and master secret and mirrored key slices |
| SslTwoParty.ServerHearsKeys | src/apps/matrixssl-1-8-1/sslDecode.c:903-976 | The server recovers the premaster secret the client enciphered and derives the same keys |
| SslTwoParty.ClientHearsResumption | src/apps/matrixssl-1-8-1/sslDecode.c:1098-1181 | A client whose own id comes back in the ServerHello resumes, deriving keys without a key exchange |
| SslClosing.FinishedPass | src/apps/matrixssl-1-8-1/sslDecode.c:982-1047 | A Finished written under the new cipher is accepted by the other side and ends or answers the handshake |
| SslClosing.SecondCloses | src/apps/matrixssl-1-8-1/sslEncode.c:196-216 | The side that hears a Finished first answers with its own ChangeCipherSpec and Finished |
| SslClosing.FirstEnds | src/apps/matrixssl-1-8-1/sslDecode.c:1017-1032 | The side that spoke first ends on hearing the answer and sends nothing more |
| SslClosing.ClosingEstablishes | src/apps/matrixssl-1-8-1/sslv3.c:153-221 | After both closing flights the two ends agree on everything negotiated, in both directions |
| SslReadBack.ClientHelloRead | src/apps/matrixssl-1-8-1/sslEncode.c:880-1027 | Every ClientHello written parses back to the random, session id and suite it carries |
| SslReadBack.ServerHelloRead | src/apps/matrixssl-1-8-1/sslDecode.c:1069-1185 | The ServerHello written by a server parses back in the client |
| SslReadBack.WalkEntries | src/apps/matrixssl-1-8-1/sslDecode.c:1194-1262 | The walk over a written chain returns its certificates in order and uses every byte |
| SslReadBack.CertificateRead | src/apps/matrixssl-1-8-1/sslEncode.c:677-745 | A chain of any length is read back whole and yields the server's public key |
| SslReadBack.KeyExchangeRead | src/apps/matrixssl-1-8-1/sslDecode.c:903-976 | The enciphered premaster secret is read back |
| SslReadBack.DerivedMirror | src/apps/matrixssl-1-8-1/sslv3.c:84-221 | From equal master secret and randoms, each side's write slices are the other's read slices |
| SslCrypto.ExpandLength | src/apps/matrixssl-1-8-1/sslv3.c:164-198 | The key block is 16 bytes a round, whatever the declared buffer size |
| SslRecord.OpenSeal | src/apps/matrixssl-1-8-1/sslEncode.c:388-464 | A sealed record followed by anything opens to exactly its type and data, uses exactly its own bytes and leaves reader and writer in step |
| SslRecord.OpenTruncated | src/apps/matrixssl-1-8-1/sslDecode.c:103-115 | When the fragment does not fit 16 bits the reader does not get the data back |
| SslRecord.OpenIgnoresRest | src/apps/matrixssl-1-8-1/sslDecode.c:89-178 | What lies behind a whole record does not influence how it is opened |
| SslRecord.FragmentLength | src/apps/matrixssl-1-8-1/sslEncode.c:1159-1196 | Data, MAC and padding add up to a whole number of blocks |
| SslRecord.AcceptsExactly | src/apps/matrixssl-1-8-1/sslDecode.c:178-294 | A protected reader accepts a decrypted record exactly if it is data of at most 128 KB, the MAC for the reader's own counter and fitting padding; anything else is a bad_record_mac |
| SslConversation.Conversation | src/apps/matrixssl-1-8-1/sslDecode.c:89-416 | For any sequence of payloads whose fragments fit 16 bits the reader delivers exactly these, in order, skipping empty ones up to the allowed number, and the ends stay linked |
| SslConversation.ConversationCounts | src/apps/matrixssl-1-8-1/sslv3.c:312-320 | After n records the 8-byte counter has advanced by n modulo 2^64 |
| SslConversation.FreshCounter | src/apps/matrixssl-1-8-1/matrixSsl.c:391-445 | A direction starts at zero when its cipher is activated |
| SslConversation.DeliveredExactly | src/apps/matrixssl-1-8-1/sslEncode.c:72-112 | A payload the encoder accepts comes through if and only if it is not empty and its fragment is shorter than 65536 bytes |
| SslStream.ChunkingIndependence | src/apps/matrixssl-1-8-1/sslDecode.c:44-470 | From a waiting session, feeding any pieces gives the same session, reports and left-over input as feeding them joined |
| SslStream.StepIgnoresRest | src/apps/matrixssl-1-8-1/sslDecode.c:89-178 | A pass that does not wait for input is not influenced by what follows |
| SslStream.LoopProgress | src/apps/matrixssl-1-8-1/sslDecode.c:404-415 | A call that makes progress takes at least one byte, so the receive loop ends |
| SslDecode.StepUses | src/apps/matrixssl-1-8-1/sslDecode.c:89-178 | Every pass that loops consumes a whole record and none more than the input |
| SslServer.ReachableServer | src/apps/matrixssl-1-8-1/sslDecode.c:44-470 | After any run of calls with any input a server session is in one of four states; DONE implies a read cipher; an error is either recorded as dead or owed as an alert |
| SslServer.DeadStaysDead | src/apps/matrixssl-1-8-1/sslDecode.c:55-58 | With the error flag set no call changes the session and every decode reports an error |
| SslServer.ClosedStaysClosed | src/apps/matrixssl-1-8-1/sslDecode.c:55-58 | After a close_notify reading is over for good: every decode reports an error, takes nothing and changes nothing |
| SslServer.StepOutcome | src/apps/matrixssl-1-8-1/sslDecode.c:368-416 | Payload is delivered only in DONE and from a protected record |
| SslServer.MessageToDone | src/apps/matrixssl-1-8-1/sslDecode.c:982-1017 | One message ends the handshake only if it is a Finished whose body is the hash of the transcript |
| SslServer.DoneNeedsFinished | src/apps/matrixssl-1-8-1/sslDecode.c:477-606 | If a record of any number of messages ends the handshake, one of them is such a Finished at a position that is reached |
| SslServer.PassToDone | src/apps/matrixssl-1-8-1/sslDecode.c:343-366 | A pass that ends the handshake has opened a handshake record with such a Finished |
| SslServer.RunDelivers | src/apps/matrixssl-1-8-1/sslDecode.c:368-416 | In any run of calls payload comes only from a call on a session that was in DONE with a protected reading side |
| SslServer.RunEnds | src/apps/matrixssl-1-8-1/sslDecode.c:982-1017 | In any run the call that ends the handshake has read, after records that did not end it, a handshake record with a Finished that matches the transcript and master secret it is met in |
| SslServer.WarningStays | src/apps/matrixssl-1-8-1/sslDecode.c:321-341 | A warning other than close_notify is reported and nothing is taken off the input, while the reading side has moved on |
| SslServer.PlainWarningRepeats | src/apps/matrixssl-1-8-1/sslDecode.c:321-341 | Unprotected, any number of calls on the same bytes, with whatever behind them, report the same alert again and leave the session as it is |
| SslServer.ProtectedWarningGoesOn | src/apps/matrixssl-1-8-1/sslDecode.c:178-294 | Protected, the next call opens the same bytes exactly if under the advanced cipher they carry the MAC for the next counter; otherwise it owes or sends a bad_record_mac and takes nothing |
| SslServer.SendingKeepsState | src/apps/matrixssl-1-8-1/sslEncode.c:72-112 | Sending, closing and asking for a handshake do not touch the handshake state |
| SslTranscript.RunTranscript | src/apps/matrixssl-1-8-1/sslDecode.c:547-599 | After any run of calls with any input the transcript is, in order, what the server has heard and said since the last ClientHello: slices of the records read, malformed ones included, and the handshake messages that went out |
| SslTranscript.RunEndsOnTranscript | src/apps/matrixssl-1-8-1/sslDecode.c:982-1017 | In any run the Finished that ends the handshake is the hash of exactly that, continued by the messages in front of it in its own record |
| SslTranscript.HearsIs | src/apps/matrixssl-1-8-1/sslDecode.c:547-599 | A message adds the slice its length field covers, or for SSLv2 its record, whatever its parser then makes of it; a ClientHello begins anew |
| SslTranscript.SaysIs | src/apps/matrixssl-1-8-1/sslEncode.c:446-452 | An answer adds exactly the messages that fitted, in order: no alert, no ChangeCipherSpec, and nothing of what ran out of room |
| SslTranscript.SliceIsUsed | src/apps/matrixssl-1-8-1/sslDecode.c:611-893 | A server's parser goes on behind the slice, except that a ClientHello takes the whole rest of its record; the two agree exactly if it is another message or fills the record |
| SslFlightSize.HelloFlightFits | src/apps/matrixssl-1-8-1/sslEncode.c:156-187 | Once the test of the server-hello flight passes, no writer of it runs out of room, for every chain, protected or not |
| SslFlightSize.HelloTestDecides | src/apps/matrixssl-1-8-1/sslEncode.c:156-187 | The flight is refused for lack of room if and only if the test fails, and then nothing is written |
| SslFlightSize.KeyFlightFits | src/apps/matrixssl-1-8-1/sslEncode.c:239-335 | The same for the client's key flight, for every key size and real suite |
| SslFlightSize.KeyTestDecides | src/apps/matrixssl-1-8-1/sslEncode.c:239-335 | Refused if and only if the test fails |
| SslFlightSize.FinalFlightFits | src/apps/matrixssl-1-8-1/sslEncode.c:196-216 | With the pending suite's MAC and block to spare the closing flight fits |
| SslFlightSize.FirstFinalFlightExactly | src/apps/matrixssl-1-8-1/sslEncode.c:196-216 | On an unprotected connection the tested flight runs out of room exactly below the tested size plus the pending suite's overhead |
| SslFlightSize.FinalFlightStopsHalfWay | src/apps/matrixssl-1-8-1/sslEncode.c:196-216 | With just the tested room the flight is left half-written under the new cipher |
| SslFlightSize.ResumeFlightFits | src/apps/matrixssl-1-8-1/sslEncode.c:216-238 | The resumed server's flight fits with the same margin |
| SslFlightSize.ResumeFlightExactly | src/apps/matrixssl-1-8-1/sslEncode.c:216-238 | On an unprotected connection it fits exactly with the tested size, less what a shorter id saves, plus the pending suite's overhead |
| SslFlightSize.ResumeFlightStopsHalfWay | src/apps/matrixssl-1-8-1/sslEncode.c:216-238 | With a whole id and just the tested room it is left half-written under the new cipher |
| SslSession.Session.PutRecord | src/apps/matrixssl-1-8-1/sslEncode.c:388-464 | A record is written and encrypted in place behind the buffer's contents, or nothing is written for lack of room |
| SslSession.Session.WriteRecordHeader | src/apps/matrixssl-1-8-1/sslEncode.c:388-437 | Sizes and header bytes of a record, at the moving pointer |
| SslSession.Session.EncryptRecord | src/apps/matrixssl-1-8-1/sslEncode.c:446-464 | MAC, padding and encryption in place over the message bytes |
| SslSession.Session.Derive | src/apps/matrixssl-1-8-1/sslv3.c:84-221 | Master secret and key slices in place |
| SslSession.Session.PutServerHello | src/apps/matrixssl-1-8-1/sslEncode.c:471-570 | The ServerHello and the session it registers |
| SslSession.Session.PutCertificate | src/apps/matrixssl-1-8-1/sslEncode.c:677-745 | The chain, entry by entry |
| SslSession.Session.PutFinished | src/apps/matrixssl-1-8-1/sslEncode.c:796-842 | The Finished over the transcript so far |
| SslSession.Session.PutChangeCipherSpec | src/apps/matrixssl-1-8-1/sslEncode.c:753-790 | The record, then the switch of the write cipher |
| SslSession.Session.PutClientKeyExchange | src/apps/matrixssl-1-8-1/sslEncode.c:1033-1105 | The enciphered premaster secret and the derived keys |
| SslSession.Session.PutHelloFlight | src/apps/matrixssl-1-8-1/sslEncode.c:156-187 | Size test, then three records |
| SslSession.Session.PutFinal | src/apps/matrixssl-1-8-1/sslEncode.c:196-216 | Size test, then two records |
| SslSession.Session.PutResumeFlight | src/apps/matrixssl-1-8-1/sslEncode.c:216-238 | Size test, then three records |
| SslSession.Session.PutKeyFlight | src/apps/matrixssl-1-8-1/sslEncode.c:239-335 | Size test, then three records |
| SslSession.Session.PutResponse | src/apps/matrixssl-1-8-1/sslEncode.c:120-341 | The alert or the flight of the state, with the error flag after an alert |
| SslSession.Session.PutClientHello | src/apps/matrixssl-1-8-1/sslEncode.c:880-1027 | The ClientHello for one suite or all |
| SslSession.Session.EncodeData | src/apps/matrixssl-1-8-1/sslEncode.c:72-112 | One application record behind what the buffer holds |
| SslSession.Session.CloseAlert | src/apps/matrixssl-1-8-1/sslEncode.c:370-386 | The close_notify |
| SslSession.Session.ParseHandshake | src/apps/matrixssl-1-8-1/sslDecode.c:477-1401 | The loop over the messages of a record does what the parser functions say |
| SslSession.Session.TakeRecord | src/apps/matrixssl-1-8-1/sslDecode.c:89-416 | One pass moves the input past one record and leaves payload or answer in the out buffer |
| SslSession.Session.TakeRecords | src/apps/matrixssl-1-8-1/sslDecode.c:89-416 | Passes until one returns |
| SslSession.Session.DecodeInput | src/apps/matrixssl-1-8-1/sslDecode.c:44-470 | One call of the decoder: new session, bytes taken, report and bytes produced are those of the function Decode |
| SslSession.Session.Server | src/apps/matrixssl-1-8-1/matrixSsl.c:129-218 | A new server session |
| SslSession.Session.Client | src/apps/matrixssl-1-8-1/matrixSsl.c:129-218 | A new client session, with or without one to resume |
| SslSession.WritePad | src/apps/matrixssl-1-8-1/sslEncode.c:1184-1192 | padLen bytes of padLen-1 at the pointer, the rest of the array untouched |
| SslSession.CountRounds | src/apps/matrixssl-1-8-1/sslv3.c:164-181 | The number of rounds is the least that covers the key material |
| SslSession.FillBlock | src/apps/matrixssl-1-8-1/sslv3.c:183-198 | The loop fills the block with the rounds' digests in order |
| DhcpHash.HashTable.constructor | src/apps/dhcp-0.10/hash.c:48-71 | An empty table |
| DhcpHash.HashTable.Search | src/apps/dhcp-0.10/hash.c:121-134 | Finds exactly what the map has under the key |
| DhcpHash.HashTable.Add | src/apps/dhcp-0.10/hash.c:73-95 | A new key is added to the map, a known one is refused; the table grows as the load test says, and the load before insertion is at most 90 percent exactly if the table had at most 47197441 buckets or was not above it |
| DhcpHash.HashTable.Delete | src/apps/dhcp-0.10/hash.c:97-119 | Removes exactly the key, or reports that it is not there; the number of buckets stays |
| DhcpHash.HashTable.Grow | src/apps/dhcp-0.10/hash.c:142-172 | Twice the buckets, every entry once in its right bucket, the same map and count |
| DhcpHash.FullIsLoad | src/apps/dhcp-0.10/hash.c:136-140 | The load test is the quotient in percent as long as the product fits 32 bits |
| DhcpHash.CanBeFull | src/apps/dhcp-0.10/hash.c:136-140 | Some count makes the test find a table of this size full exactly if 91 times the size is at most 2^32 - 4 |
| DhcpHash.TestIsRightExactly | src/apps/dhcp-0.10/hash.c:136-140 | The test tells a load above 90 percent for every count such a table can come to exactly up to 47197441 buckets |
| DhcpHash.LightAfterGrowth | src/apps/dhcp-0.10/hash.c:73-95 | One growth brings the load to at most 90 percent exactly if the table has at most that many buckets or was not above it |
| DhcpHash.RunLoadsExactly | src/apps/dhcp-0.10/hash.c:73-119 | After any run of additions and deletions from an empty table of any size: up to the bound the count stays below 0.91 of the buckets plus one, and the next addition finds a load of at most 90 percent exactly if the size is within the bound or the load is |
| DhcpHash.BreaksAtFirstHeavy | src/apps/dhcp-0.10/hash.c:73-95 | A table created bigger than the bound is overfull and does not grow at the first count above 90 percent |
| DhcpHash.DefaultBreaks | src/apps/dhcp-0.10/hash.h:37-37 | From 4095 buckets a run of new entries leads to 61054157 entries in 67092480 buckets, a load of 91 percent that the next addition does not see |
| DhcpTimers.AddIsSum | src/apps/dhcp-0.10/timer.c:59-73 | Adding times is adding microseconds, and keeps them normal |
| DhcpTimers.SubIsDifference | src/apps/dhcp-0.10/timer.c:78-91 | Subtracting them, for the later minus the earlier |
| DhcpTimers.OrderIsNumeric | src/apps/dhcp-0.10/timer.c:153-190 | Field-wise comparison is numeric order |
| DhcpTimers.NeverOversleeps | src/apps/dhcp-0.10/timer.c:153-190 | After a pass with arbitrary callbacks, sampled time plus wait is not after the deadline of any unmarked timer, except one whose callback stopped and which nothing has given another deadline; endless only if there is none |
| DhcpTimers.PassFinishes | src/apps/dhcp-0.10/timer.c:153-190 | In one pass a timer is unlinked at most once and then gone; marked before its turn, it does not fire; marked before the pass, it is unlinked in it |
| DhcpTimers.MarkedNeverFires | src/apps/dhcp-0.10/timer.c:125-179 | Over any run of messages and passes a marked timer never fires and is unlinked at most once |
| DhcpTimers.TimerQueue.Add | src/apps/dhcp-0.10/timer.c:100-124 | A name never used before at the head of the list, without a deadline; the other timers and the finished ones stay as they were |
| DhcpTimers.TimerQueue.Set | src/apps/dhcp-0.10/timer.c:131-146 | The deadline is the clock plus the interval in microseconds, the next pass comes no later, and no other timer changes |
| DhcpTimers.TimerQueue.Remove | src/apps/dhcp-0.10/timer.c:125-129 | The timer stays on the list, and no run of messages and passes from here on fires it |
| DhcpTimers.TimerQueue.CheckTimers | src/apps/dhcp-0.10/timer.c:153-190 | The loop over the list with callbacks does what Check says, and its wait is in time for every waiting timer |
| DhcpLeases.MixedTypesHaveNoName | src/apps/dhcp-0.10/lease.c:290-306 | When prefixes come with ordinary or temporary addresses, the comparison of 16-byte addresses is the equality of no canonical form whatever |
| DhcpLeases.NamedExactly | src/apps/dhcp-0.10/lease.c:290-306 | For any set of IA types the comparison is the equality of some canonical form exactly if the set does not hold prefixes together with other addresses |
| DhcpInvariant.NoAddressTwice | src/apps/dhcp-0.10/server6_addr.c:336-415 | No address is leased to two bindings |
| DhcpInvariant.AddLeaseKeeps | src/apps/dhcp-0.10/server6_addr.c:336-415 | A lease is entered in the table, on its binding's list and in the timer list together, and nothing else changes |
| DhcpInvariant.AddLeaseHolds | src/apps/dhcp-0.10/server6_addr.c:336-415 | Exactly the new address changes hands, and only if it was free and good |
| DhcpInvariant.RemoveLeaseKeeps | src/apps/dhcp-0.10/server6_addr.c:211-233 | A lease leaves the table, the list and the timers together |
| DhcpInvariant.RemoveLeaseFrees | src/apps/dhcp-0.10/server6_addr.c:211-233 | Exactly its address becomes free |
| DhcpInvariant.UpdateLeaseKeeps | src/apps/dhcp-0.10/server6_addr.c:416-463 | Renewing keeps the invariant; a bad status or zero lifetime removes the lease |
| DhcpInvariant.UpdateLeaseHolds | src/apps/dhcp-0.10/server6_addr.c:416-463 | Exactly this address is held anew or freed |
| DhcpBindings.UpdateExactly | src/apps/dhcp-0.10/server6_addr.c:235-318 | After a renewal the binding holds exactly the reply's good addresses that nobody else holds, after a release exactly the old ones not listed; it is gone exactly if it holds nothing, and otherwise lasts for the longest valid lifetime; nobody else is touched |
| DhcpBindings.AddExactly | src/apps/dhcp-0.10/server6_addr.c:97-160 | A request of an unknown client adds exactly the free good addresses, and a binding exactly if there is one |
| DhcpBindings.AddKeepsExactly | src/apps/dhcp-0.10/server6_addr.c:97-160 | A request keeps the invariant if and only if the client is unknown or nothing is granted |
| DhcpBindings.AddCollides | src/apps/dhcp-0.10/server6_addr.c:97-160 | Otherwise the existing binding stays but is no longer in the table |
| DhcpBindings.RemoveBindingKeeps | src/apps/dhcp-0.10/server6_addr.c:162-192 | Removing a binding frees all it held and leaves no trace |
| DhcpBindings.MaxValidIsMax | src/apps/dhcp-0.10/lease.c:427-440 | The value found is the maximum of the valid lifetimes on the list |
| DhcpBindings.ArmBindingLasts | src/apps/dhcp-0.10/server6_addr.c:235-318 | The binding's timer is due after the longest valid lifetime |
| DhcpServer.ReachableServer | src/apps/dhcp-0.10/dhcp6s.c:869-905 | After any run of requests, renewals, releases and timer passes from the empty server: a lease is in the table exactly if it is on one binding's list, bindings are registered under their own key, every unmarked timer belongs to a live record, and no callback ever ran on a freed one |
| DhcpServer.OneSortRuns | src/apps/dhcp-0.10/lease.c:290-306 | As long as nothing is asked for both as a prefix and as an address, the comparison of the lease table is what the database of any run goes by; ordinary and temporary addresses may be mixed |
| DhcpServer.OwnerLives | src/apps/dhcp-0.10/server6_addr.c:491-537 | In such a state an unmarked timer's owner is live and has this timer |
| DhcpServer.MarkedTimersRest | src/apps/dhcp-0.10/timer.c:125-179 | In such runs a marked timer never fires and is unlinked at most once |
| DhcpServer.FireKeeps | src/apps/dhcp-0.10/server6_addr.c:491-537 | Either expiry keeps the invariant |
| DhcpExpiry.InfiniteExpiresExactly | src/apps/dhcp-0.10/server6_addr.c:416-463 | After a renewal for ever and any passes with no request in between, the lease is still held exactly if no pass came to the deadline of its binding, and none to the second deadline of the timer it had before, if it had one, after one had come to the first |
| DhcpExpiry.GrantedExpiresExactly | src/apps/dhcp-0.10/server6_addr.c:97-160 | A lease granted for ever to a new client lasts exactly until a pass comes to its binding's deadline, the longest valid lifetime granted with it |
| DhcpExpiry.RunDecides | src/apps/dhcp-0.10/server6_addr.c:491-537 | Whether any lease outlives any passes is decided by its age, its own deadline and its binding's before them |
| DhcpExpiry.CheckDecides | src/apps/dhcp-0.10/timer.c:153-190 | What one pass over all timers, with other leases and bindings expiring in it, makes of one lease |
| DhcpExpiry.LastsExactly | src/apps/dhcp-0.10/server6_addr.c:508-537 | The closed form of that: which deadlines are reached, and in which order |
| DhcpExpiry.RenewedForEver | src/apps/dhcp-0.10/server6_addr.c:235-318 | A renewal for ever makes the lease young and leaves its own deadline; its binding's is the longest valid lifetime held |
| DhcpExpiry.RenewedRunsOut | src/apps/dhcp-0.10/server6_addr.c:416-463 | From the empty server: granted for 200 seconds at 0, renewed for ever at 50, gone after passes at 100 and 101 |
| DhcpExpiry.PreferredRunsOut | src/apps/dhcp-0.10/server6_addr.c:373-377 | Granted with an endless preferred lifetime, and gone at the end of its valid one though it has no timer |
| DhcpStore.LeaseStore.constructor | src/apps/dhcp-0.10/lease.c:198-226 | Empty tables of a given size, an empty timer queue, and the invariant |
| DhcpStore.LeaseStore.Insert | src/apps/dhcp-0.10/server6_addr.c:336-415 | Into the hash table, onto the list and under a timer: the address goes to the binding exactly if it was good and nobody had it, and other bindings stay as they were |
| DhcpStore.LeaseStore.Delete | src/apps/dhcp-0.10/server6_addr.c:211-233 | Out of the hash table and off the list: exactly its address becomes free, and its timer is marked |
| DhcpStore.LeaseStore.Replace | src/apps/dhcp-0.10/server6_addr.c:416-463 | The address is held as the reply says, or free if the reply is not good; no other address is touched |
| DhcpStore.LeaseStore.Find | src/apps/dhcp-0.10/server6_addr.c:465-489 | The walk over the list finds the lease exactly if the binding holds the address |
| DhcpStore.LeaseStore.Longest | src/apps/dhcp-0.10/lease.c:427-440 | The loop returns a valid lifetime that no lease the binding holds exceeds |
| DhcpStore.LeaseStore.DeleteBinding | src/apps/dhcp-0.10/server6_addr.c:162-192 | The binding is gone and everything it held is free; nobody else lost anything |
| DhcpStore.LeaseStore.Request | src/apps/dhcp-0.10/server6_addr.c:97-160 | A new client gets exactly what is free and good, a binding if that is anything, and a timer for the longest lifetime; the invariant holds afterwards exactly if the client was new or nothing was granted |
| DhcpStore.LeaseStore.Change | src/apps/dhcp-0.10/server6_addr.c:235-318 | The invariant is kept; a known client holds exactly what the renewal or release leaves it, its binding stands exactly while it holds something and is timed by the longest lifetime; an unknown one changes nothing |
| DhcpStore.LeaseStore.ExpireLease | src/apps/dhcp-0.10/server6_addr.c:508-537 | The invariant is kept; a young lease grows old, nobody's holding changes and its timer is set to the rest of the valid lifetime; an old one is freed |
| DhcpStore.LeaseStore.ExpireBinding | src/apps/dhcp-0.10/server6_addr.c:491-506 | The invariant is kept; the binding is gone with all it held, and its timer does not go on |
| DhcpStore.LeaseStore.RunCallback | src/apps/dhcp-0.10/timer.c:172-175 | The callback of an unmarked timer meets a live record that has this timer |
| DhcpStore.LeaseStore.CheckTimers | src/apps/dhcp-0.10/timer.c:153-190 | A pass in place, with the callbacks removing records and marking timers as it goes, keeps the invariant and ends where the pass over the timer list does |
| Bytes.NextIsSuccessor | src/apps/dhcp-0.10/server6_conf.c:68-78 | The byte-wise increment is +1 modulo 256 to the length |
| Bytes.NumberInjective | src/apps/dhcp-0.10/server6_conf.c:54-66 | Equal numbers of equal length are equal bytes |
| Bytes.Increment | src/apps/matrixssl-1-8-1/sslv3.c:312-320 | The in-place carry loop does that increment |
| DhcpAddresses.Compare | src/apps/dhcp-0.10/server6_conf.c:54-66 | Byte comparison has the sign of the numeric difference |
| DhcpAddresses.SuccessorIs | src/apps/dhcp-0.10/server6_addr.c:751-792 | The cursor goes one up, and from the end to the start |
| DhcpAddresses.ScanSound | src/apps/dhcp-0.10/server6_addr.c:751-792 | What is found is in the segment and unused |
| DhcpAddresses.ScanComplete | src/apps/dhcp-0.10/server6_addr.c:751-792 | Nothing is found exactly if every address of the segment is in use, wherever the cursor stands |
| DhcpAddresses.NeverEnds | src/apps/dhcp-0.10/server6_addr.c:751-792 | If the unspecified address were in use too, no number of passes would be enough |
| DhcpAddresses.Pool.NewAddress | src/apps/dhcp-0.10/server6_addr.c:751-792 | The loop returns that address and moves the cursor behind it, in at most one pass more than the segment has addresses; otherwise the unspecified address and the cursor back where it was |
| DhcpAddresses.Pool.Advance | src/apps/dhcp-0.10/server6_addr.c:751-792 | One move of the cursor in place |
| DhcpOptions.RoundTrip | src/apps/dhcp-0.10/common.c:894-1642 | Decoding what was encoded returns every carried field unchanged if no address prefers to live longer than it is valid, and nothing otherwise; a server adds exactly one status for an empty association |
| DhcpOptions.DecodeConcat | src/apps/dhcp-0.10/common.c:894-1140 | The decoder takes a concatenation of framed options one by one and in order |
| DhcpOptions.AddrsRead | src/apps/dhcp-0.10/common.c:1142-1316 | Every address or prefix of an association comes back in order with its status, or none does |
| DhcpOptions.DuidExactly | src/apps/dhcp-0.10/common.c:929-952 | A DUID comes back if and only if it has at most 255 bytes |
| DhcpOptions.AssociationSize | src/apps/dhcp-0.10/common.c:1376-1466 | The byte count of an association: its fixed part, and 28 or 29 bytes an address, 6 more with a status |
| DhcpOptions.NestedLengths | src/apps/dhcp-0.10/common.c:1376-1466 | Each nested length field, of the association, an address and its status, is the size of what is behind it |
| DhcpOptions.StatusesRead | src/apps/dhcp-0.10/common.c:961-980 | Status codes come back in order |
| DhcpOptions.NumbersRead | src/apps/dhcp-0.10/common.c:981-1011 | Distinct requested options come back in order |
| DhcpOptions.IpsRead | src/apps/dhcp-0.10/common.c:1065-1087 | Distinct name servers come back in order |
| DhcpOptions.SetOptions | src/apps/dhcp-0.10/common.c:1333-1642 | The moving pointer writes exactly the encoding and returns its length, or -1 exactly if it does not fit |
| DhcpOptions.BuildIa | src/apps/dhcp-0.10/common.c:1376-1466 | Fixed part and addresses one after the other in a buffer allocated for the largest case, handed on with the bytes written |
| DhcpOptions.CopyOption | src/apps/dhcp-0.10/common.c:1318-1331 | One option behind those written, or a report that it does not fit |
| DhcpOptions.GetOptions | src/apps/dhcp-0.10/common.c:894-1140 | The decoder's loop does what Decode says |
| DhcpOptions.GetAddrs | src/apps/dhcp-0.10/common.c:1142-1316 | The inner loop does what ReadAddrs says |
| AcssTables.SboxesInverse | src/apps/openssh-4.5p1/acss.c:29-98 | The two S-boxes are inverse permutations |
| AcssTables.ReverseInvolution | src/apps/openssh-4.5p1/acss.c:100-133 | The third table mirrors the bits of a byte, and so undoes itself |
| AcssRegisters.Step17IsEightBits | src/apps/openssh-4.5p1/acss.c:172-177 | A byte step of the 17-bit register is eight single-bit shift-and-feedback steps |
| AcssRegisters.Step25IsEightBits | src/apps/openssh-4.5p1/acss.c:179-185 | The same for the 25-bit register |
| AcssRegisters.Step17Bijective | src/apps/openssh-4.5p1/acss.c:172-177 | The step is a bijection of the registers |
| AcssRegisters.Step25Bijective | src/apps/openssh-4.5p1/acss.c:179-185 | The step is a bijection of the registers |
| Acss.LongAddition | src/apps/openssh-4.5p1/acss.c:162-217 | For every mode and length the keystream digits plus the last carry are the sum of the two register streams, read as one long number; the carry never exceeds 1 |
| Acss.CryptUsesKeyStream | src/apps/openssh-4.5p1/acss.c:206-214 | Each output byte is the input byte under the corresponding keystream digit and the S-box |
| Acss.CallsAreOneCall | src/apps/openssh-4.5p1/acss.c:162-217 | Any sequence of calls is one call on the joined input |
| Acss.RoundTrip | src/apps/openssh-4.5p1/acss.c:162-217 | Decrypting in any call lengths what was encrypted in any other returns the plaintext and the same registers |
| Acss.SeedBijective | src/apps/openssh-4.5p1/acss.c:219-244 | Seeding reaches exactly the registers with the two injected bits, each from one seed, and never a zero one |
| Acss.SeedsInjective | src/apps/openssh-4.5p1/acss.c:219-257 | Different keys seed different registers |
| Acss.NeverZero | src/apps/openssh-4.5p1/acss.c:162-217 | No register of a seeded key ever becomes zero |
| Acss.Key.Reseed | src/apps/openssh-4.5p1/acss.c:219-244 | The seeding loop and the registers it leaves |
| Acss.Key.SetKey | src/apps/openssh-4.5p1/acss.c:246-258 | The whole new key state; a direction of -1 keeps the old one |
| Acss.Key.SetSubkey | src/apps/openssh-4.5p1/acss.c:260-266 | The whole new key state |
| Acss.Key.Process | src/apps/openssh-4.5p1/acss.c:162-217 | The loop over the bytes does what Crypt says; output may be the input; an unknown mode fails on the first byte after the registers have moved |
| Glob.AMatch | src/apps/ftp_client/glob.c:415-504 | The loop over the pattern decides the text matching relation |
| Glob.ReadClass | src/apps/ftp_client/glob.c:431-453 | The loop over a character class |
| Glob.FindClose | src/apps/ftp_client/glob.c:319-336 | The scan finds the brace that closes the first level |
| Glob.ExecBrc | src/apps/ftp_client/glob.c:308-393 | The scan from comma to comma tries every alternative in front of the rest of the pattern |
| GlobLanguage.ClassRead | src/apps/ftp_client/glob.c:431-453 | A class of characters and ordered ranges accepts exactly its characters, although the upper end of a range is read as a character when the lower end is above the text |
| GlobLanguage.CloseFound | src/apps/ftp_client/glob.c:319-336 | The closing brace is found behind any nesting of braces and classes |
| GlobLanguage.CutFound | src/apps/ftp_client/glob.c:338-392 | Cutting at the commas gives the alternatives |
| GlobLanguage.CatLang | src/apps/ftp_client/glob.c:364-367 | A pattern put in front of another stands for the strings that split between them |
| GlobLanguage.AmatchIsLang | src/apps/ftp_client/glob.c:415-504 | The matcher accepts a string if and only if it is in the language of the pattern |

## Left out

- SslFlightSize.KeyFlightFits: without client authentication; CertificateRequest and CertificateVerify are not part of this model.
- SslFlightSize.KeyTestDecides: likewise without the client-authentication terms of the tested size.
- SslTwoParty.FullHandshake: SSLv2 hellos and re-handshakes are modelled in the parser but not run between two parties (a stale RESUMED flag survives a failed resumption on a re-handshake).
- SslTwoParty.ResumedHandshake: of the session cache only its answer is used; eviction, sharing and timeouts are not modelled.
- SslTranscript.RunTranscript: the transcript is the bytes hashed; the running MD5 and SHA-1 contexts of the source are not modelled. What a client session hashes is followed in the two-party run only.
- SslServer.RunEnds: leaves open what the transcript is that the Finished is checked against; `SslTranscript.RunEndsOnTranscript` says it.
- SslServer.ProtectedWarningGoesOn: ciphers and hashes are any functions, so that no old record carries the MAC for the next counter is not provable here; the condition is stated instead.
- SslSession.Session.TakeRecord: ciphers, MACs, hashes and RSA are abstract; opening a record (decryption, padding and MAC check) is a function of its bytes instead of work in the out buffer, the record being decoded is a local value rather than the field `ssl->rec`, and memory is not cleared after use.
- SslReadBack.CertificateRead: parsing and accepting certificates are parameters; where the walk over a malformed chain would read past the message the model answers with an illegal_parameter alert.
- SslSession.Session.PutCertificate: an empty certificate in the chain fails the writer, whose error state is not followed further.
- Allocation failures and platform calls of the SSL library; entropy is a parameter.
- DhcpTimers.NeverOversleeps: times are unbounded integers, not 32-bit or 64-bit `long`.
- DhcpStore.LeaseStore.Insert: no address may be asked of a store both as a prefix and as an ordinary or temporary address, because the lease table's comparison is then no equality; records are named by numbers in maps instead of pointers, so the memory a forgotten record leaks (a new binding without leases, or a lease refused by the table) is simply not named any more; writing the lease file and allocation always succeed.
- DhcpStore.LeaseStore.CheckTimers: what the clock says at each callback is a parameter.
- DhcpHash.HashTable.Search: buckets are sequences of a chain's data rather than linked cells; the hash is any function of the address or DUID bytes (the word-wise XOR of the source, with its doubled last word, is one for addresses and for DUIDs of at least four bytes; of a shorter DUID it takes in bytes that were never set). The count and the number of buckets are unbounded, which the load test does not notice: it keeps a table from growing beyond 94394884 buckets.
- DhcpBindings.UpdateExactly: holders are told apart by address, and by length among prefixes; where an address is asked for both as a prefix and as an ordinary one the lease table is no map.
- DhcpServer.ReachableServer: the lease table is keyed by address and, for prefixes, length, which is what the source's comparison does as long as no address is asked for both as a prefix and as an ordinary or temporary address (`DhcpServer.OneSortRuns`); runs that do so are not the source's. The replies' addresses are any addresses; host reservations, anycast and lookups during allocation appear only as the predicate of what is in use, and confirm messages, which change nothing, are not a move.
- DhcpExpiry.InfiniteExpiresExactly: the reading of the clock that the second deadline counts from is any reading taken in the pass in which the timer first fires.
- DhcpAddresses.Pool.NewAddress: the random addresses of temporary associations and prefix allocation are not modelled.
- DhcpOptions.GetOptions: domain lists, the authentication option and relay options are not modelled; malformed lengths on which the source would read past the message end in refusal. The elapsed time is written and ignored on reading, as in the source.
- DhcpOptions.GetAddrs: a status placed directly inside an association is refused; the source records it and then enters whatever its address record holds at that moment. The encoder never writes one.
- Glob.AMatch: a slash does not match; the directory lookups it starts, and `~`, sorting, quoting with the eighth bit, the `globbed` flag and the size of the scratch buffer are not modelled.
- Glob.ReadClass: a class whose text ends in '-' ends there, where the source reads on past the pattern.
- Glob.ExecBrc: a brace that is never closed, where the source reads past its pattern, matches nothing here.
- DHCPv6 client and relay, configuration parser, netlink code, the FTP commands, and all socket and file handling.
