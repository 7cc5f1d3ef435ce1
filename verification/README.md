# Exarch protocol models

Dafny models of the parts of Exarch whose correctness is not visible from a single function, and proofs about them. Exarch
pairs a phone with a laptop daemon, carries their traffic over an opaque relay, and records conversations with providers.

| file | what it models |
|---|---|
| `Radix.dfy`, `Base58.dfy`, `Alphabets.dfy` | positional numbers, the Base58 codec with its in-place carry loops, and the letters of Base58 and base64url |
| `Utf16.dfy`, `KeySort.dfy`, `DecimalText.dfy`, `DecimalValue.dfy`, `DecimalForm.dfy`, `CanonicalJson.dfy` | the native canonical JSON writer: key order, number rendering, escaping |
| `JsonReader.dfy`, `Utf8.dfy`, `JsonUnambiguous.dfy` | a reader for its output, and unambiguity of text and bytes |
| `TsCanonicalJson.dfy` | the laptop's writer, and when both agree |
| `Frames.dfy`, `NoiseRecords.dfy`, `RelayPath.dfy` | length-prefixed frames, encrypted records, and the whole path between them |
| `LineProcess.dfy`, `AsyncQueue.dfy` | line splitting of provider output, and the bounded promise queue |
| `SlidingWindow.dfy`, `KeyedWindow.dfy`, `ChallengeRateLimiter.dfy`, `TicketBudget.dfy` | fixed windows, and two limiters built on them |
| `ReplayCache.dfy`, `RelayTickets.dfy`, `RelayAccess.dfy` | what a replay cache remembers, one-use tickets, access tokens with revocation |
| `Base64Url.dfy`, `DeviceAuth.dfy`, `DeviceAuthOutcomes.dfy`, `DeviceAuthHistory.dfy` | challenges as texts, signed device requests, what each is answered, and challenges and counters used a second time |
| `RelayState.dfy`, `RelayInvariants.dfy`, `RelayRate.dfy`, `RelayOutcomes.dfy`, `RelayServer.dfy` | the relay server as a state machine, its invariants, its rate limit, what each event does, and its handlers |
| `PairingProtocol.dfy`, `PairingSafety.dfy`, `PairingOutcomes.dfy`, `PairingConsumed.dfy`, `PairingParties.dfy`, `PairingPayloads.dfy` | pairing: interleaved sessions, safety, what each step does, consumed invitations, the two programs, the signed bytes |
| `Setup.dfy`, `SetupRuns.dfy` | durable writes of setup, pairing and removal, and whole runs with crashes |
| `TurnLog.dfy`, `TurnOutcomes.dfy`, `Fallback.dfy` | one turn's events, what it answers and logs, and automatic fallback between providers |
| `TurnRaces.dfy`, `TurnRepeats.dfy`, `SwitchRaces.dfy` | submissions and switches as they interleave: leases and marks, messages logged again, providers that change meanwhile |

Code that changes state step by step is modelled by classes and methods. Each method is proved against a function on a value
that stands for the object's state (`State()`, `View()` or `Now()`), and the lemmas are about these functions, single steps and
whole runs. Ghost fields record histories: accepted requests, durable states, forwarded frames.

Conventions that recur:

- A clock reading, a random value, the answer of a person, the outcome of a foreign call is a parameter, and so is which writes
  of a turn work. A clock is *steady* in a run when no reading is below an earlier one; what holds only then says so.
- What a step does is also told apart from the function that computes it, from the fields of the state, the request and the
  source's own numbers: in the files named `Outcomes`, in `DecimalForm` and `Alphabets`, and in lemmas named `Exactly`.
- Signatures are ideal: a signature is good for the key and payload it was made with, and honest keys' signatures cannot be
  forged. The transcript hash is injective. Encryption is a reversible map per sequence number that adds 16 bytes. What is
  assumed of parameters is shown to be possible (`DeviceAuth.WellbehavedExist`, `PairingPayloads.InjectiveExists`,
  `NoiseRecords.IdealExists`, `CanonicalJson.DescribingExists`).
- Parsing of JSON, dates and base64url inside tickets, tokens and frames is a parameter of the model; the base64url of
  challenges is not.

Where code and comments part, the code is followed:

- `Base58BTC.decode("")` throws although `encode` of empty data is the empty text (`LibP2PIdentity.swift:69,97`).
- The comment in `CanonicalJSON.swift:5-17` says both writers match; they differ on objects with several array-index keys
  (`TsCanonicalJson.IndexKeysDisagree`).
- A `push` that throws discards the frames it had parsed in that call (`application-protocol.ts:108-128`;
  `Frames.OneChunkLosesFrame`); `Frames.AllDeliveredExactly` says when nothing is lost.
- A second request for an invitation that another session holds marks it consumed, yet the first session may still register
  (`pairing-host.ts:98-101,184`; `PairingConsumed.ConsumedInvitationRegisters`);
  `PairingConsumed.RegistersExactlyIfConfirmable` and `PairingConsumed.RegistersExactlyIfHeld` say when, and one registration
  remains the most.
- Registering a revoked device again restarts its counter (`canonical-store.ts:566-605`; `DeviceAuthHistory.CountersFall`), so
  counters rise within one registration, which the model numbers by an epoch
  (`DeviceAuthHistory.FallMeansNewRegistration`, `DeviceAuthHistory.UsedCounterPassesExactly`).
- A nonce is remembered as text and read as bytes (`device-auth.ts:90,139,151`), and 43 base64url letters have two bits to
  spare, so one challenge can be accepted under up to four spellings (`DeviceAuthHistory.OneChallengeTwoAnswers`,
  `DeviceAuthHistory.AtMostFourAnswers`); `DeviceAuthHistory.SecondAnswerExactly` says when, and
  `DeviceAuthHistory.CanonicalAnswersOnce` that devices which spell challenges as issued are accepted once.
- A replay cache that pruned before the clock stepped back accepts a ticket again (`relay-ticket.ts:91-98`;
  `RelayTickets.StepBackReplays`); `RelayTickets.TakenAgainExactly` says when.
- The host access token expires like any other, even for revocation (`relay-access.ts:138`), and is never renewed: after that
  the pairing can neither be removed nor replaced (`SetupRuns.ExpiredPairingStays`, `SetupRuns.AnyRun`).
- A pairing that fails after the phone was registered leaves it active (`setup.ts:222-281`;
  `SetupRuns.FailedPairingLeavesPhoneActive`); `Setup.Laptop.BootstrapPairing` says when.
- The failed report on a send closes the route by its id, also when its own connection is gone and another has the place
  (`relay-server.ts:408-411`; `RelayInvariants.FailedReportClosesNewcomer`); `RelayInvariants.ReportUnfilesExactly` says when.
- The stored answer to a message is looked up before the workspace lease is taken, and not again (`coordinator.ts:184-204`), so
  a message submitted twice at once can be logged twice (`TurnRepeats.MessageSaidTwice`); and a turn that fails stores no answer
  (`coordinator.ts:440-497`), so its message is logged again when it is sent again (`TurnRepeats.FailedMessageSaidAgain`).
  `TurnRepeats.SaidAgainExactly` says exactly when.
- A turn can run with a provider that its conversation has been switched away from. A switch looks for leases before it
  observes the policy, and not again (`coordinator.ts:518-534`), so a turn may begin in between
  (`SwitchRaces.SwitchedDuringTurn`); `SwitchRaces.TurnUnderWayExactly` gives the check that would tell. And a submission
  compares providers before its first await, and not again (`coordinator.ts:152-210`), so a whole switch fits in between
  (`SwitchRaces.SwitchedBeforeTurn`). `SwitchRaces.ProviderMatchesExactly` says exactly when the providers agree.

## Model

| member | source | states |
|---|---|---|
| Base58.EncodeBufferSuffices | native/Sources/ExarchFoundation/LibP2PIdentity.swift:72 | `n*138/100+1` base-58 places hold every n-byte number |
| Base58.DecodeBufferSuffices | native/Sources/ExarchFoundation/LibP2PIdentity.swift:100 | `n*733/1000+1` bytes hold every number of n base-58 places |
| Base58.Rewrite | native/Sources/ExarchFoundation/LibP2PIdentity.swift:75-83 | the carry loop over the used suffix: done part, carry and untouched part together still denote the new number, and the top digit is non-zero when nothing is carried out |
| Base58.Spill | native/Sources/ExarchFoundation/LibP2PIdentity.swift:84-90 | the loop that writes out the last carry stays inside the array and ends with no leading zero |
| Base58.Accumulate | native/Sources/ExarchFoundation/LibP2PIdentity.swift:74-91 | one outer step: the suffix of the returned length holds exactly `scale * v + add`, without leading zeros and with zeros before it |
| Base58.Convert | native/Sources/ExarchFoundation/LibP2PIdentity.swift:102-119 | a whole run of the outer loop yields the digits of the number in the other radix |
| Base58.Encode | native/Sources/ExarchFoundation/LibP2PIdentity.swift:68-94 | the in-place encoder computes the specified text, leading zero bytes as leading `1`s |
| Base58.Decode | native/Sources/ExarchFoundation/LibP2PIdentity.swift:96-122 | the in-place decoder computes the specified bytes, or refuses the empty text and foreign letters |
| Base58.DecodeEncode | native/Sources/ExarchFoundation/LibP2PIdentity.swift:68-122 | decoding an encoded byte string gives it back, except that the empty one encodes to a text that does not decode |
| Base58.EncodeDecode | native/Sources/ExarchFoundation/LibP2PIdentity.swift:68-122 | encoding what a text decodes to gives the text back |
| Base58.DecodableTexts | native/Sources/ExarchFoundation/LibP2PIdentity.swift:97 | exactly the non-empty texts over the alphabet decode |
| Base58.EncodedExactly | native/Sources/ExarchFoundation/LibP2PIdentity.swift:68-94 | the encoding is the one text with the same number in base 58 and as many leading `1`s as there are zero bytes |
| Alphabets.Base58Exactly | native/Sources/ExarchFoundation/LibP2PIdentity.swift:63-66 | the Bitcoin alphabet in full, and the index of each letter |
| Base58.PeerIdForRawPublicKey | native/Sources/ExarchFoundation/LibP2PIdentity.swift:37-40 | the peer id of a raw key, or an error unless it has 32 bytes |
| Base58.PublicKeyFromPeerId | native/Sources/ExarchFoundation/LibP2PIdentity.swift:28-35 | the key named by a peer id, or an error unless prefix and length fit |
| Base58.PeerIdsNameKeys | native/Sources/ExarchFoundation/LibP2PIdentity.swift:28-40 | a text is the peer id of a key exactly when the key is read from it |
| Base58.PeerIdSpells | native/Sources/ExarchFoundation/LibP2PIdentity.swift:5-40 | a peer id spells the identity multihash 0x00 0x24 of 0x08 0x01 0x12 0x20 and the key |
| Utf16.EncodeInjective | native/Sources/ExarchFoundation/CanonicalJSON.swift:65-71 | two strings with the same UTF-16 code units are the same |
| Utf16.PrecedesInUtf16Order | native/Sources/ExarchFoundation/CanonicalJSON.swift:68-80 | the iterator loop decides lexicographic order of code units |
| Utf16.KeyBeforeIsStrictTotalOrder | native/Sources/ExarchFoundation/CanonicalJSON.swift:65-80 | the key order is irreflexive, transitive and total |
| KeySort.SortedIsUnique | native/Sources/ExarchFoundation/CanonicalJSON.swift:53 | under a strict total order there is one sorted listing of a key set, so insertion order does not matter |
| DecimalText.LeadingDigits | native/Sources/ExarchFoundation/CanonicalJSON.swift:108-122 | significant digits and their exponent, for plain and scientific input alike |
| DecimalText.RenderDigits | native/Sources/ExarchFoundation/CanonicalJSON.swift:125-143 | the branch on k, n, 21 and -6 computes the specified form of a digit string, whose shape `DecimalForm` fixes from its value |
| DecimalText.EcmaScriptNumber | native/Sources/ExarchFoundation/CanonicalJSON.swift:96-145 | from any well-formed digit text, the rendering of the decimal it denotes, whose form is that of section 6.1.6.1.20 of ECMA-262 by `DecimalForm.FormFollowsValue` |
| DecimalText.EcmaTextReads | native/Sources/ExarchFoundation/CanonicalJSON.swift:96-145 | a rendering reads back as the same decimal |
| DecimalValue.EcmaTextValue | native/Sources/ExarchFoundation/CanonicalJSON.swift:96-145 | a rendering denotes, as a rational, exactly the decimal's value |
| DecimalValue.RerenderingIsExact | native/Sources/ExarchFoundation/CanonicalJSON.swift:92-145 | re-rendering keeps the exact rational value of the input text |
| DecimalValue.ValueDetermines | native/Sources/ExarchFoundation/CanonicalJSON.swift:108-122 | significant digits, exponent and sign are determined by the rational they denote |
| DecimalValue.RenderingIsCanonical | native/Sources/ExarchFoundation/CanonicalJSON.swift:92-145 | two platform numbers render alike exactly when their texts denote the same rational |
| DecimalForm.FormFollowsValue | native/Sources/ExarchFoundation/CanonicalJSON.swift:125-145 | the form from the value alone: with an exponent exactly from 10^21 on and below 10^-6, then with one non-zero digit before the point, no zero at the end of the mantissa, a sign and no leading zero; otherwise the integer part as such and, after a point, a fraction that does not end with a zero |
| DecimalForm.ExponentExactly | native/Sources/ExarchFoundation/CanonicalJSON.swift:125-143 | the text has an `e` exactly when the magnitude is at least 10^21, or below 10^-6 and not zero |
| DecimalForm.PointExactly | native/Sources/ExarchFoundation/CanonicalJSON.swift:127-133 | without an `e` it has a `.` exactly when the value is not an integer |
| DecimalForm.NoLeadingZero | native/Sources/ExarchFoundation/CanonicalJSON.swift:127-133 | the digits of a natural number begin with a zero only for zero itself, so the integer part of `FormFollowsValue` has no superfluous one |
| DecimalForm.NaturalsPrintPlainly | native/Sources/ExarchFoundation/CanonicalJSON.swift:127-128 | every natural number below 10^21 prints as its decimal digits |
| CanonicalJson.CanonicalNumber | native/Sources/ExarchFoundation/CanonicalJSON.swift:82-90 | numbers print as ECMAScript does, zero of either sign as `0` |
| CanonicalJson.WriteString | native/Sources/ExarchFoundation/CanonicalJSON.swift:147-167 | the escaping loop appends the quoted string |
| CanonicalJson.EscapesExactly | native/Sources/ExarchFoundation/CanonicalJSON.swift:147-167 | only the quote, the backslash and control characters are escaped: seven by a short escape, the others by four hexadecimal digits of lower case |
| CanonicalJson.SortKeys | native/Sources/ExarchFoundation/CanonicalJSON.swift:53 | keys come out in the one order of UTF-16 code units |
| CanonicalJson.Write | native/Sources/ExarchFoundation/CanonicalJSON.swift:36-63 | the writer appends the canonical text of any value |
| CanonicalJson.DescribingExists | native/Sources/ExarchFoundation/CanonicalJSON.swift:92-107 | some way of printing magnitudes satisfies what the writer assumes of the platform's |
| JsonReader.PrintReads | native/Sources/ExarchFoundation/CanonicalJSON.swift:36-63 | a reader defined beside the writer reads back every printed tree, nested arrays, objects and escapes included |
| JsonUnambiguous.EcmaTextIsToken | native/Sources/ExarchFoundation/CanonicalJSON.swift:96-145 | a rendered number is one number token, so it cannot run into what follows |
| JsonUnambiguous.PrintedReadsBack | native/Sources/ExarchFoundation/CanonicalJSON.swift:36-63 | reading a printed value gives the value, whatever order its keys were listed in |
| JsonUnambiguous.CanonicalTextIsUnambiguous | native/Sources/ExarchFoundation/CanonicalJSON.swift:18-63 | a text reads back as its value; equal texts mean equal values, and conversely |
| Utf8.EncodeInjective | native/Sources/ExarchFoundation/CanonicalJSON.swift:18-34 | strings with the same UTF-8 bytes are the same |
| Utf8.PointBytesSpell | native/Sources/ExarchFoundation/CanonicalJSON.swift:25 | one to four bytes, as few as a code point needs, spell it six bits at a time (section 3 of RFC 3629) |
| JsonUnambiguous.CanonicalBytesAreUnambiguous | native/Sources/ExarchFoundation/CanonicalJSON.swift:18-34 | so the canonical bytes, which are what is signed and hashed, mean one value only |
| TsCanonicalJson.ArrayIndexesAreNumbers | packages/protocol/src/canonical-json.ts:12-16 | array-index keys are determined by their number |
| TsCanonicalJson.ArrayIndexesExactly | packages/protocol/src/canonical-json.ts:12-16 | array-index keys are exactly the decimal texts of the numbers below 2^32 - 1 (section 6.1.7 of ECMA-262) |
| TsCanonicalJson.NumericBeforeIsStrictTotalOrder | packages/protocol/src/canonical-json.ts:12-16 | array indexes by number, then other keys by code units, is a strict total order |
| TsCanonicalJson.ScriptOrderSorts | packages/protocol/src/canonical-json.ts:12-16 | sorting keys and re-inserting them enumerates them in that order (section 10.1.11.1 of ECMA-262) |
| TsCanonicalJson.PrintersAgree | packages/protocol/src/canonical-json.ts:1-3 | `JSON.stringify` over code units prints every tree as the native writer does |
| TsCanonicalJson.WritersAgree | packages/protocol/src/canonical-json.ts:1-28 | both writers give the same text for a value exactly when the two key orders agree throughout it |
| TsCanonicalJson.NoIndexKeysIsSafe | packages/protocol/src/canonical-json.ts:10-17 | they agree for every value none of whose keys is an array index |
| TsCanonicalJson.IndexKeysDisagree | packages/protocol/src/canonical-json.ts:12-16 | an object with keys `9` and `10` prints differently on the two sides |
| TsCanonicalJson.ScriptTextIsUnambiguous | packages/protocol/src/canonical-json.ts:1-28 | the laptop's text, too, determines the value |
| Utf8.OfUnitsEncodes | packages/protocol/src/pairing.ts:91-104 | encoding the laptop's code units as UTF-8 gives the bytes of the string they spell |
| TsCanonicalJson.ScriptBytesAreUnambiguous | packages/protocol/src/canonical-json.ts:1-28 | the laptop's bytes determine the value |
| TsCanonicalJson.WritersAgreeOnBytes | packages/protocol/src/canonical-json.ts:1-28 | both sides produce the same bytes for a value exactly when the two key orders agree throughout it |
| Frames.LengthReads | packages/relay/src/application-protocol.ts:89-91 | the four length bytes read back as the length |
| Frames.FrameAnnounces | packages/relay/src/application-protocol.ts:88-92 | a frame is four bytes, which spell the length most significant first, and the payload |
| Frames.EncodeFrame | packages/relay/src/application-protocol.ts:83-93 | length prefix and payload, or a refusal above 1.5 MiB (and, natively, below two bytes) |
| Frames.Slices | packages/relay/src/application-protocol.ts:95-100 | slices of 61,440 bytes, all full but the last, that concatenate to the frame |
| Frames.TakeStable | packages/relay/src/application-protocol.ts:109-124 | more bytes never change a decision already taken |
| Frames.ParseAppend | packages/relay/src/application-protocol.ts:105-129 | parsing in two parts is parsing the rest with what follows |
| Frames.RestIsIncomplete | packages/relay/src/application-protocol.ts:125-127 | what is left over is an incomplete frame and within the buffer limit, so that check never fires |
| Frames.Drain | packages/relay/src/application-protocol.ts:109-124 | the decoding loop computes the one-shot parse of the buffer |
| Frames.ApplicationFrameDecoder.Push | packages/relay/src/application-protocol.ts:105-129 | one push: frames, new buffer and error are those of the one-shot parse; a throwing call delivers nothing; the buffer limit is never reported |
| Frames.ApplicationFrameDecoder.Finish | packages/relay/src/application-protocol.ts:131-133 | the end is an error exactly inside a frame |
| Frames.RelayApplicationCodec.Append | native/Sources/ExarchFoundation/RelayApplicationCodec.swift:57-71 | one append of the native decoder, likewise |
| Frames.RelayApplicationCodec.Finish | native/Sources/ExarchFoundation/RelayApplicationCodec.swift:73-75 | the native end check |
| Frames.PushesRefineParse | packages/relay/src/application-protocol.ts:105-129 | for every chunking, some push throws exactly when the one-shot parse fails, with its error; without one, frames and leftover are equal; with one, the parse has beyond what was delivered exactly what the throwing push dropped |
| Frames.AllDeliveredExactly | packages/relay/src/application-protocol.ts:105-129 | all frames of the one-shot parse are delivered exactly when no push throws or the bad frame comes first in the buffer of the one that does |
| Frames.OneChunkLosesFrame | packages/relay/src/application-protocol.ts:108-128 | a frame and a bad length in one chunk lose the frame; in two chunks they do not |
| Frames.FramesParse | packages/relay/src/application-protocol.ts:83-124 | framed payloads parse back to the payloads with nothing left |
| Frames.ParsedExactly | packages/relay/src/application-protocol.ts:105-129 | a stream is parsed into exactly those frames and that rest that make it up: payloads of 2 to 1,572,864 bytes that are accepted, then an unfinished frame, or with an error the length or the payload that is refused |
| NoiseRecords.BufferLimitUnreachable | native/Sources/ExarchFoundation/NativeNoiseConnection.swift:165-173 | with messages of 1 to 70 KiB the 140 KiB guard never fires |
| NoiseRecords.IdealExists | native/Sources/ExarchFoundation/NativeNoiseConnection.swift:67-84 | cipher states as assumed exist |
| NoiseRecords.ReadsNextRecord | native/Sources/ExarchFoundation/NativeNoiseConnection.swift:154-190 | whatever way the wire is chunked, the next record is read whole and the rest stays |
| NoiseRecords.ReadExactly | native/Sources/ExarchFoundation/NativeNoiseConnection.swift:154-190 | how many messages a reader takes and why it stops: as long as the bytes are short of a record, then a whole record, a length of zero, a message that is text or not of 1 to 71,680 bytes, or the end of the messages |
| NoiseRecords.ReceivedExactly | native/Sources/ExarchFoundation/NativeNoiseConnection.swift:76-84 | a message is received exactly from a record that opens to 1 to 61,440 bytes on a connection that is not closed |
| NoiseRecords.NoiseConnection.Send | native/Sources/ExarchFoundation/NativeNoiseConnection.swift:67-74 | one record with the next sequence number, or the matching error and no change |
| NoiseRecords.NoiseConnection.ReadRecord | native/Sources/ExarchFoundation/NativeNoiseConnection.swift:154-184 | the reading loop computes the specified read, error cases included |
| NoiseRecords.NoiseConnection.Receive | native/Sources/ExarchFoundation/NativeNoiseConnection.swift:76-84 | one decrypted record in order, or the matching error; the counter moves exactly when a record opened, whether or not its plaintext was taken |
| RelayPath.ReceivesNext | native/Sources/ExarchFoundation/NativeNoiseConnection.swift:76-84 | a receive yields the next plaintext and leaves the rest of the wire |
| RelayPath.ReceiverSeesStream | native/Sources/ExarchFoundation/NativeRelayTransport.swift:45-57 | repeated receive and append delivers the frames of the concatenated plaintexts, for every chunking of the wire |
| RelayPath.EndToEnd | native/Sources/ExarchFoundation/NativeRelayTransport.swift:41-57 | encode, slice, encrypt, record, re-chunk, receive, append: exactly the payloads in order, no size guard fires, nothing is left |
| RelayPath.SendPieces | native/Sources/ExarchFoundation/NativeRelayTransport.swift:41-44 | slices go out as consecutive records |
| RelayPath.SendPayload | native/Sources/ExarchFoundation/NativeRelayTransport.swift:38-44 | one payload goes out as records of its frame |
| RelayPath.SendPayloads | native/Sources/ExarchFoundation/NativeRelayTransport.swift:38-44 | payloads go out as records of their frames, in order |
| RelayPath.ReceivePayloads | native/Sources/ExarchFoundation/NativeRelayTransport.swift:45-57 | the receive loop computes the specified delivery |
| LineProcess.ScanAppend | services/daemon/src/process/managed-line-process.ts:152-177 | scanning in two parts is scanning the pending bytes with what follows |
| LineProcess.ManagedLineProcess.ConsumeStdout | services/daemon/src/process/managed-line-process.ts:152-189 | one chunk: emitted lines, pending bytes and errors are those of the scan; over the limit the process stays failed |
| LineProcess.ConsumeAll | services/daemon/src/process/managed-line-process.ts:152-177 | for every chunking the emitted lines are those of one scan of the whole stream |
| LineProcess.EmitsLinesWithinLimit | services/daemon/src/process/managed-line-process.ts:152-177 | the emitted lines are exactly the complete lines before the first one over the limit, each less one trailing CR |
| LineProcess.CutRejoins | services/daemon/src/process/managed-line-process.ts:155-176 | cutting at line feeds loses nothing and leaves none inside a line |
| LineProcess.TrimmedExactly | services/daemon/src/process/managed-line-process.ts:171 | exactly one carriage return at the end of a line goes, if there is one |
| AsyncQueue.AfterSound | services/daemon/src/process/async-queue.ts:26-77 | every operation keeps: values and waiters never both non-empty, `bufferedBytes` the sum of sizes, both limits, delivered values a prefix of accepted ones, no waiter open after the end |
| AsyncQueue.AcceptedArePushed | services/daemon/src/process/async-queue.ts:26-47 | the accepted values are the first pushed ones, all of them until the queue ends |
| AsyncQueue.EveryRunIsFaithful | services/daemon/src/process/async-queue.ts:26-77 | in every run the delivered values are a prefix of the pushes in the order of the next-calls, and nobody waits after end or fail |
| AsyncQueue.StepExactly | services/daemon/src/process/async-queue.ts:26-75 | only `next` makes a promise; a settled one stays; the queue ends with the first `end`, `fail` or push that may not be buffered, and a failure keeps the reason of the first |
| AsyncQueue.EveryRunSettles | services/daemon/src/process/async-queue.ts:49-75 | in every run a promise without a value is open until the queue ends, and then rejected with the reason of the failure or, without one, done; those made before the end and those made after it alike |
| AsyncQueue.AsyncQueue.PushValue | services/daemon/src/process/async-queue.ts:26-47 | push takes the specified step |
| AsyncQueue.AsyncQueue.EndQueue | services/daemon/src/process/async-queue.ts:49-53 | end takes the specified step |
| AsyncQueue.AsyncQueue.FailWith | services/daemon/src/process/async-queue.ts:55-62 | fail takes the specified step |
| AsyncQueue.AsyncQueue.TakeNext | services/daemon/src/process/async-queue.ts:66-75 | next takes the specified step and hands out the newest promise |
| SlidingWindow.AtMostTwice | services/daemon/src/challenge-rate-limiter.ts:32-45 | non-overlapping windows of at most `limit` requests put at most twice as many into any interval of one window length |
| KeyedWindow.NewWindow | services/daemon/src/challenge-rate-limiter.ts:34-38 | starting a window keeps the ledger of accepted requests |
| KeyedWindow.OneMoreGrant | services/daemon/src/challenge-rate-limiter.ts:39-44 | accepting one request within both limits keeps the ledger |
| KeyedWindow.SumBumped | services/daemon/src/challenge-rate-limiter.ts:42-43 | the counts per key keep summing to the total |
| ChallengeRateLimiter.Limiter.constructor | services/daemon/src/challenge-rate-limiter.ts:16-30 | a new limiter, its window starting now |
| ChallengeRateLimiter.Limiter.Roll | services/daemon/src/challenge-rate-limiter.ts:33-38 | the window restarts when it is over or the clock stepped back |
| ChallengeRateLimiter.Limiter.Consume | services/daemon/src/challenge-rate-limiter.ts:32-45 | when a request is granted, and the whole new state; per-device counts sum to the total |
| ChallengeRateLimiter.Limiter.SlidingBound | services/daemon/src/challenge-rate-limiter.ts:32-45 | with a steady clock no window-long interval exceeds twice either limit |
| TicketBudget.LiveKeepsLedger | services/relay/src/relay-access.ts:80-83 | dropping finished windows loses nothing the bound needs |
| TicketBudget.GrantKeepsLedger | services/relay/src/relay-access.ts:75-88 | charging a ticket within budget keeps the ledger |
| TicketBudget.Budget.Prune | services/relay/src/relay-access.ts:80-85 | finished windows are dropped only to make room for a new token |
| TicketBudget.Budget.Consume | services/relay/src/relay-access.ts:74-89 | when a ticket is refused and why, and the whole new state; a refused charge still counts |
| TicketBudget.Budget.DeniedExactly | services/relay/src/relay-access.ts:76-87 | no room exactly for a new token beside ten thousand with a window under way, no rate exactly after twenty charges in a window that began less than ten seconds ago |
| TicketBudget.ChargedExactly | services/relay/src/relay-access.ts:76-88 | what a charge leaves: one more in the token's window or a new window, and all other buckets, but for finished ones when ten thousand are found |
| TicketBudget.Budget.SlidingBound | services/relay/src/relay-access.ts:74-89 | with a steady clock no ten seconds hold more than forty tickets of one token |
| RelayTickets.PartsRejoin | services/relay/src/relay-ticket.ts:57-60 | cutting at full stops loses nothing |
| RelayTickets.InspectionPasses | services/relay/src/relay-ticket.ts:55-75 | the checks before the clock pass exactly authentic tickets of this very connection |
| RelayTickets.InspectionRefuses | services/relay/src/relay-ticket.ts:61-75 | which error a ticket with one full stop gets: its signature, its payload, its scope |
| RelayTickets.InspectionRefusesForm | services/relay/src/relay-ticket.ts:56-60 | a routing id is refused unless it is 43 characters of the base64url alphabet, and a ticket unless it is two texts with one full stop between |
| RelayTickets.IssuedExactly | services/relay/src/relay-ticket.ts:39-53 | a ticket is issued exactly for such a routing id and a lifetime of one second to five minutes, and what it is |
| RelayTickets.AttemptOutcome | services/relay/src/relay-ticket.ts:76-98 | expired, already used, no room or taken, told from the expiries that are left once those due were dropped |
| RelayTickets.EveryRunIsOnTime | services/relay/src/relay-ticket.ts:91-98 | in every run expired entries are dropped exactly when an interval has passed since they last were |
| RelayTickets.AdmitKeepsSound | services/relay/src/relay-ticket.ts:76-98 | every attempt keeps the cache equal to what the log of uses and prunes leaves in it, and within its cap |
| ReplayCache.TrackedExactly | services/relay/src/relay-ticket.ts:78-98 | after any log of uses and prunes, a nonce is remembered exactly unless a prune since its last use read at least its expiry |
| ReplayCache.ReuseFollowsPruning | services/relay/src/relay-ticket.ts:78-98 | whatever the clock does, between two uses of a nonce a prune read at least the expiry of an earlier one |
| ReplayCache.NoReuse | services/relay/src/relay-ticket.ts:78-98 | with a steady clock and one expiry per nonce no nonce is used twice |
| RelayTickets.TakenAgainExactly | services/relay/src/relay-ticket.ts:76-98 | whatever the clock does: a nonce accepted before is accepted again exactly when the ticket has not expired, a prune since the last acceptance read at least its expiry, and there is room |
| RelayTickets.FirstTakenExactly | services/relay/src/relay-ticket.ts:76-98 | a nonce never accepted is accepted exactly when the ticket has not expired and there is room |
| RelayTickets.EveryRunIsSound | services/relay/src/relay-ticket.ts:55-98 | in every run, whatever the clock does, the cache is what the log leaves in it and within its cap |
| RelayTickets.ReplayCheckIsExact | services/relay/src/relay-ticket.ts:78 | an unexpired ticket is refused as used exactly when its nonce was accepted before, although the cache prunes itself |
| RelayTickets.NoNonceTwice | services/relay/src/relay-ticket.ts:55-98 | in every run with a steady clock and one expiry per nonce, no nonce is accepted twice |
| RelayTickets.StepBackReplays | services/relay/src/relay-ticket.ts:76-98 | with a clock that steps back after pruning, the same ticket is accepted twice |
| RelayTickets.RelayTicketAuthority.PruneConsumed | services/relay/src/relay-ticket.ts:91-98 | expired entries go, at most once per interval |
| RelayTickets.IssuedTicketIsTaken | services/relay/src/relay-ticket.ts:39-84 | an issued ticket is taken once by its own connection before it expires, and refused as used after that |
| RelayTickets.RelayTicketAuthority.Take | services/relay/src/relay-ticket.ts:76-83 | age, replay and capacity, in order, with the whole new state |
| RelayTickets.RelayTicketAuthority.Consume | services/relay/src/relay-ticket.ts:55-84 | each error and the whole new state of one attempt, and that it succeeds exactly for an authentic ticket of this connection, in time, unused, with room |
| RelayAccess.RelayAccessAuthority.TokenPasses | services/relay/src/relay-access.ts:116-141 | an access token passes exactly when authentic, in time and, unless revoked routes are allowed, its route stands |
| RelayAccess.RelayAccessAuthority.TokenRefused | services/relay/src/relay-access.ts:116-141 | which error a token gets: its form, its signature, its payload, its age, its route |
| RelayAccess.RelayAccessAuthority.IssueTicket | services/relay/src/relay-access.ts:64-72 | a ticket is sold exactly to a passing token whose budget is neither full nor used up, with each error and the whole new budget; after a revocation never for that route |
| RelayAccess.RelayAccessAuthority.RevokeRoute | services/relay/src/relay-access.ts:91-97 | exactly the matching host token revokes, and it can do so again; each error otherwise |
| DeviceAuth.Big64Reads | packages/core/src/security/device-auth.ts:61-62 | eight big-endian bytes read back as the expiry |
| DeviceAuth.IssuedChallengeReads | packages/core/src/security/device-auth.ts:56-69 | an issued challenge, written as base64url, reads back with its expiry for its own device, and for another exactly when the tags collide |
| DeviceAuth.WellbehavedExist | packages/core/src/security/device-auth.ts:162-170 | primitives as assumed exist |
| Base64Url.WriteReads | packages/core/src/security/device-auth.ts:66 | 32 bytes written as 43 letters read back |
| Base64Url.ReadAlike | packages/core/src/security/device-auth.ts:150-151 | two texts of 43 letters read as the same bytes exactly when they differ in the two spare bits of the last letter only |
| Base64Url.RewritesExactly | packages/core/src/security/device-auth.ts:150-151 | writing what was read gives the text back exactly when its spare bits are clear |
| Base64Url.RespelledReads | packages/core/src/security/device-auth.ts:150-151 | every challenge has four spellings |
| Alphabets.Base64UrlExactly | packages/core/src/security/device-auth.ts:150-151 | the base64url alphabet in full (table 2 of RFC 4648), and the number of each letter |
| DeviceAuth.VerifyKeepsSound | packages/core/src/security/device-auth.ts:78-147 | every request keeps the cache exact, accepted requests genuine and counters rising |
| DeviceAuth.AcceptanceIsExact | packages/core/src/security/device-auth.ts:78-147 | with a steady clock a request is accepted exactly when it is genuine, in time, from an active device with a higher counter, and the text of its nonce was never accepted |
| DeviceAuth.EveryRunIsSound | packages/core/src/security/device-auth.ts:71-147 | in every run: the cache is what the log of uses and sweeps leaves in it, no text of a nonce is accepted twice under a steady clock, counters of one registration strictly increase, all accepted requests are signed over their challenge |
| DeviceAuthHistory.TextAcceptedAgainExactly | packages/core/src/security/device-auth.ts:78-147 | whatever the clock does: a text accepted before is accepted again exactly when a sweep since then read at least its expiry and all other checks pass |
| DeviceAuthHistory.SecondAnswerExactly | packages/core/src/security/device-auth.ts:89-151 | a second answer to an accepted challenge passes exactly when its text was not accepted before, the challenge has not expired, and window, counter and signature are good |
| DeviceAuthHistory.AnswersDifferInSpareBits | packages/core/src/security/device-auth.ts:89-151 | with a steady clock accepted answers to one challenge differ in their spare bits |
| DeviceAuthHistory.AtMostFourAnswers | packages/core/src/security/device-auth.ts:89-151 | so at most four of them are accepted |
| DeviceAuthHistory.CanonicalAnswersOnce | packages/core/src/security/device-auth.ts:89-151 | if devices spell challenges as they were issued, no challenge is accepted twice |
| DeviceAuthHistory.OneChallengeTwoAnswers | packages/core/src/security/device-auth.ts:89-151 | a run with a steady clock that accepts one challenge twice, spelled differently |
| DeviceAuthHistory.UsedCounterPassesExactly | packages/core/src/store/canonical-store.ts:575-607 | after an attempt to register a device anew, a counter it used passes exactly when the device was revoked |
| DeviceAuthHistory.CountersFall | packages/core/src/store/canonical-store.ts:566-680 | a run whose accepted counters of one device fall |
| DeviceAuth.StoreOperationsOnlyAdvance | packages/core/src/store/canonical-store.ts:566-690 | what the store does to devices never lowers a counter within one registration |
| DeviceAuth.DeviceStore.AdvanceDeviceCounter | packages/core/src/store/canonical-store.ts:654-667 | exactly a higher counter of an active device, positive and safe, is taken; otherwise nothing changes |
| DeviceAuth.DeviceAuthenticator.SweepConsumed | packages/core/src/security/device-auth.ts:71-76 | expired nonces go |
| DeviceAuth.DeviceAuthenticator.Reject | packages/core/src/security/device-auth.ts:206-209 | a refusal is audited and changes nothing else |
| DeviceAuth.DeviceAuthenticator.CheckDevice | packages/core/src/security/device-auth.ts:97-131 | the checks on window, device, counter and signature, in order; each is told from the request in `DeviceAuthOutcomes.RefusedExactly` |
| DeviceAuth.DeviceAuthenticator.Consume | packages/core/src/security/device-auth.ts:139-146 | remembering the nonce, sweeping and auditing |
| DeviceAuth.DeviceAuthenticator.CheckRequest | packages/core/src/security/device-auth.ts:89-146 | the checks after the challenge, in order, with the whole new state |
| DeviceAuth.DeviceAuthenticator.VerifyRequest | packages/core/src/security/device-auth.ts:78-147 | one request: outcome, whole new state and invariant |
| DeviceAuthOutcomes.ChallengeReadsExactly | packages/core/src/security/device-auth.ts:149-160 | a challenge reads as an expiry exactly when it is 43 letters of 32 bytes, tagged for the device, with a safe expiry in the first eight |
| DeviceAuthOutcomes.RefusedExactly | packages/core/src/security/device-auth.ts:89-136 | each reason is given exactly when its check is the first to fail, and the request is accepted exactly when none does; the window is `now - skew <= signedAt <= now + skew` |
| DeviceAuthOutcomes.NoChallengeNoRequest | packages/core/src/security/device-auth.ts:79-88 | a request without a challenge of its device is refused for that first |
| DeviceAuthOutcomes.WindowEdges | packages/core/src/security/device-auth.ts:97-100 | both edges of the window are accepted and a millisecond beyond either is refused |
| DeviceAuthOutcomes.RefusedLeaves | packages/core/src/security/device-auth.ts:78-136 | a refused request leaves devices and history as they were, and forgets only what has expired |
| DeviceAuthOutcomes.AcceptedLeaves | packages/core/src/security/device-auth.ts:132-147 | an accepted request moves the counter of its device to its own and no other, and is remembered until its challenge expires |
| RelayInvariants.StepKeepsPhases | services/relay/src/relay-server.ts:228-310 | a registered connection keeps its routing id and role for good |
| RelayInvariants.StepKeepsTable | services/relay/src/relay-server.ts:228-341 | an entry's connection has the routing id and role it is filed under and has not closed, no route is empty, and every registered open socket is the one in the table |
| RelayInvariants.ClosingSparesOthers | services/relay/src/relay-server.ts:305-334 | the close event of one connection removes nobody else from the table |
| RelayInvariants.ReportUnfilesExactly | services/relay/src/relay-server.ts:408-411 | the report on a send unfiles whoever has a place by then, and closes its socket, exactly when it is a failure and the place belongs to the route the send's connection registered under |
| RelayInvariants.FailedReportClosesNewcomer | services/relay/src/relay-server.ts:325-341 | so a connection that took the place of a closed one is unfiled and closed by the failed report on an older send |
| RelayInvariants.NewcomerIsReachable | services/relay/src/relay-server.ts:240-304 | and a server in which that is about to happen is reachable |
| RelayInvariants.CloseRouteKeepsTable | services/relay/src/relay-server.ts:336-341 | closing a route removes both ends and closes their sockets |
| RelayInvariants.ReleaseKeepsPending | services/relay/src/relay-server.ts:121-136 | a place is given back once; the clamp never takes effect |
| RelayInvariants.StepKeepsPending | services/relay/src/relay-server.ts:115-137 | `pendingConnections` counts the admitted connections that have not given back their place, within the limit |
| RelayInvariants.StepReturnsPlaces | services/relay/src/relay-server.ts:228-310 | a connection that registered or closed holds no pending place |
| RelayInvariants.QueueKeepsAccounts | services/relay/src/relay-server.ts:389-399 | what passes the backpressure check keeps both counters exact and within their limits |
| RelayInvariants.ReleaseKeepsAccounts | services/relay/src/relay-server.ts:400-406 | a send is released once, by exactly its bytes; the clamps never take effect |
| RelayInvariants.StepKeepsAccounts | services/relay/src/relay-server.ts:389-416 | each peer's counter is the sum of its unreleased sends, the global one the sum over all peers, departed ones too, all within limits |
| RelayInvariants.FrameGoesToCounterpart | services/relay/src/relay-server.ts:288-303 | a step forwards at most one frame, from a registered sender to the open socket filed in the opposite role under its routing id |
| RelayInvariants.StepKeepsDelivered | services/relay/src/relay-server.ts:288-303 | every frame ever forwarded went to the opposite role of its sender's routing id |
| RelayInvariants.UpgradeKeepsAdmissions | services/relay/src/relay-server.ts:355-380 | the upgrade window keeps its ledger and its counts per source sum to its total |
| RelayInvariants.AdmissionSlidingBound | services/relay/src/relay-server.ts:355-380 | with a steady clock no window-long interval admits more than twice the limits, in total and per source |
| RelayInvariants.StepKeepsGood | services/relay/src/relay-server.ts:115-416 | every event keeps all of the above together |
| RelayInvariants.EveryRunIsGood | services/relay/src/relay-server.ts:115-416 | all of the above in every run without stop |
| RelayInvariants.StopKeepsTotal | services/relay/src/relay-server.ts:153-158 | after stop the accounts balance exactly when nothing was outstanding |
| RelayRate.StepRate | services/relay/src/relay-server.ts:343-353 | a step changes the rate counters of a connection by its own counted message or its registration, and by nothing else |
| RelayRate.PassedFits | services/relay/src/relay-server.ts:343-353 | in every run of the server, what the messages of a connection passed, in frames and in bytes, fits its counters and the limit of each window |
| RelayRate.PeerSlidingBound | services/relay/src/relay-server.ts:343-353 | in every run in which the readings taken for a connection do not step back, no ten seconds let more than twice either limit pass from it |
| RelayRate.ForwardedOnlyIfPassed | services/relay/src/relay-server.ts:279-303 | a message is forwarded only if it is a binary one that passed |
| RelayOutcomes.ForwardedExactly | services/relay/src/relay-server.ts:279-303 | a message is forwarded to a connection exactly when it is binary, from a registered connection that has not closed, within 200 frames and 4 MiB of its ten seconds once counted, and that connection is the open one in the opposite place of its routing id with room in both queues; it stays queued exactly when the send does not throw |
| RelayOutcomes.FrameIsRefused | services/relay/src/relay-server.ts:279-291 | a text message, one over the rate and one without counterpart close the sender and nothing else |
| RelayOutcomes.FrameIsTooMuch | services/relay/src/relay-server.ts:389-397 | a message without room at its counterpart closes both ends of the route and queues nothing |
| RelayOutcomes.FrameIsSentOn | services/relay/src/relay-server.ts:398-416 | a message with room adds its bytes to the counterpart and to the server; when the send throws they are given back and the route is closed |
| RelayOutcomes.RegisteredExactly | services/relay/src/relay-server.ts:242-270 | a connection registers exactly with a text of at most 2 KiB that parses, for a place nobody has and an accepted ticket, with its counters at zero |
| RelayOutcomes.RegistrationRefused | services/relay/src/relay-server.ts:242-278 | any other first message closes the connection; only one that is binary or too long leaves its pending place taken until the close |
| RelayOutcomes.OthersAreSilent | services/relay/src/relay-server.ts:240-241 | messages of connections that were refused or have closed do nothing |
| RelayOutcomes.UpgradeRefusedExactly | services/relay/src/relay-server.ts:355-377 | each refusal of an upgrade exactly when its check is the first to fail |
| RelayOutcomes.UpgradeAdmitted | services/relay/src/relay-server.ts:115-121 | an admitted upgrade adds one connection, one pending place and one to both counts of the window |
| RelayOutcomes.TimeoutRefusesExactly | services/relay/src/relay-server.ts:234-239 | the timer closes exactly those that have not registered |
| RelayOutcomes.CloseLeavesExactly | services/relay/src/relay-server.ts:305-309 | a close frees the place of the connection if it still has it, and gives back its pending place |
| RelayOutcomes.EndsExactly | services/relay/src/relay-server.ts:128-136 | a failed handshake gives back its pending place, once |
| RelayOutcomes.ReportSettlesExactly | services/relay/src/relay-server.ts:400-411 | a report gives back the bytes of its send once, and a failure closes the route of its connection |
| RelayOutcomes.RevocationShuts | services/relay/src/relay-server.ts:336-341 | a revocation closes both ends of its route and frees both places |
| RelayServer.OpaqueRelayServer.Admit | services/relay/src/relay-server.ts:355-380 | admission: outcome and new window |
| RelayServer.OpaqueRelayServer.GiveUpPending | services/relay/src/relay-server.ts:122-127 | releasing a pending place |
| RelayServer.OpaqueRelayServer.File | services/relay/src/relay-server.ts:312-316 | filing a connection under its routing id and role |
| RelayServer.OpaqueRelayServer.Unfile | services/relay/src/relay-server.ts:325-334 | unfiling a connection that is still the filed one |
| RelayServer.OpaqueRelayServer.ShutRoute | services/relay/src/relay-server.ts:336-341 | closing a route |
| RelayServer.OpaqueRelayServer.ReleaseSend | services/relay/src/relay-server.ts:401-406 | releasing one send |
| RelayServer.OpaqueRelayServer.Settle | services/relay/src/relay-server.ts:408-411 | the report on one send; a failure closes the route |
| RelayServer.OpaqueRelayServer.Enqueue | services/relay/src/relay-server.ts:398-408 | queueing one frame |
| RelayServer.OpaqueRelayServer.SendOn | services/relay/src/relay-server.ts:389-416 | forwarding one frame, or closing the route under backpressure |
| RelayServer.OpaqueRelayServer.TakeTicket | services/relay/src/relay-server.ts:249-256 | a ticket is consumed only for an unrevoked, free place, and admitted exactly when it is authentic, in scope, in time, unused, and there is room |
| RelayServer.OpaqueRelayServer.HandleRegistration | services/relay/src/relay-server.ts:242-278 | a registration message: refused, rejected or filed |
| RelayServer.OpaqueRelayServer.HandleFrame | services/relay/src/relay-server.ts:279-303 | a message of a registered connection takes its step, of which `RelayOutcomes.ForwardedExactly` says when it forwards |
| RelayServer.OpaqueRelayServer.HandleUpgrade | services/relay/src/relay-server.ts:104-121 | an upgrade request takes its step and keeps every invariant |
| RelayServer.OpaqueRelayServer.HandleHandshakeEnd | services/relay/src/relay-server.ts:128-136 | a failed handshake takes its step and keeps every invariant |
| RelayServer.OpaqueRelayServer.HandleTimeout | services/relay/src/relay-server.ts:234-239 | the registration timer takes its step and keeps every invariant |
| RelayServer.OpaqueRelayServer.HandleClose | services/relay/src/relay-server.ts:305-309 | a closed socket takes its step and keeps every invariant |
| RelayServer.OpaqueRelayServer.HandleSent | services/relay/src/relay-server.ts:408-411 | a send report takes its step and keeps every invariant |
| RelayServer.OpaqueRelayServer.HandleRevocation | services/relay/src/relay-server.ts:209-220 | the delayed closing after a revocation takes its step and keeps every invariant |
| RelayServer.OpaqueRelayServer.HandleMessage | services/relay/src/relay-server.ts:240-304 | a message takes its step and keeps every invariant; a connection becomes registered exactly by using up an authentic ticket of its own for a free place |
| PairingSafety.FailKeepsSound | services/daemon/src/pairing-host.ts:183-195 | the failure path consumes whatever invitation was looked up and breaks nothing |
| PairingSafety.RequestKeepsSound | services/daemon/src/pairing-host.ts:96-119 | checking a request claims only an available invitation, for one session |
| PairingSafety.RegistrationIsNew | services/daemon/src/pairing-host.ts:140-166 | a confirmed session registers once |
| PairingSafety.HostStepKeepsSound | services/daemon/src/pairing-host.ts:56-197 | every stretch between two awaits keeps the laptop's invariants and never revives an invitation |
| PairingSafety.OneDevicePerInvitation | services/daemon/src/pairing-host.ts:98-102 | sound laptop states register at most one device per invitation |
| PairingSafety.InvitationsAreOneUse | services/daemon/src/pairing-host.ts:92-197 | in every interleaving of any number of accept calls, one invitation registers at most one device |
| PairingSafety.AttemptsBurnInvitations | services/daemon/src/pairing-host.ts:166-184 | in every interleaving, an attempt that ended, well or badly, leaves the invitation it looked up consumed |
| PairingSafety.EveryRunIsSound | services/daemon/src/pairing-host.ts:92-197 | in every interleaving honest signatures are earned: confirmations by accepted codes, completions by registrations |
| PairingSafety.PairedMeansRegistered | packages/relay/src/pairing-client.ts:35-110 | a device that succeeds was registered by the laptop with the same id, keys, invitation and transcript, both codes accepted, and holds that invitation's token |
| PairingSafety.RegisteredMeansAccepted | services/daemon/src/pairing-host.ts:140-166 | every registration of an honest key follows acceptance on both sides of the code of that very request and transcript |
| PairingSafety.HonestPairingSucceeds | packages/relay/src/pairing-client.ts:46-109 | without interference an accepted pairing completes on both sides |
| PairingOutcomes.RequestTakenExactly | services/daemon/src/pairing-host.ts:96-130 | a waiting session goes on to sign its challenge exactly for a request of a stored, available invitation, received before it expires, from the session's own peer and signed with its own key; for any other it fails with the code of the first check that does |
| PairingOutcomes.RequestTaken | services/daemon/src/pairing-host.ts:96-119 | what the session then holds, and that the invitation is claimed |
| PairingOutcomes.RequestRefused | services/daemon/src/pairing-host.ts:96-119 | what a refused request leaves: the invitation it names is consumed, nothing is registered |
| PairingOutcomes.RegistersExactly | services/daemon/src/pairing-host.ts:140-166 | a session that awaits its confirmation registers exactly for its own transcript signed with the requested key, if the store takes the device; and the code it fails with otherwise |
| PairingOutcomes.SigningOutcome | services/daemon/src/pairing-host.ts:122-130 | where a signature that succeeds or fails leaves the session and the invitation |
| PairingOutcomes.AnswerOutcome | services/daemon/src/pairing-host.ts:131-139 | where an accepted, a declined and a missing answer leave them |
| PairingOutcomes.LaptopSigns | services/daemon/src/pairing-host.ts:122-175 | what the laptop signs: the challenge with the code of the transcript, the completion with the invitation's token |
| PairingOutcomes.StartsExactly | packages/relay/src/pairing-client.ts:41-55 | a device starts exactly before the expiry and over a channel to the invited laptop |
| PairingOutcomes.DeviceSignsExactly | packages/relay/src/pairing-client.ts:56-61 | what a device signs, and what it then waits for |
| PairingOutcomes.ChallengeTakenExactly | packages/relay/src/pairing-client.ts:62-78 | a device shows the code exactly for the invited laptop's signed challenge on its own transcript with that code |
| PairingOutcomes.CodeAnswered | packages/relay/src/pairing-client.ts:79-88 | only an accepted code goes on to be confirmed |
| PairingOutcomes.PairedExactly | packages/relay/src/pairing-client.ts:89-110 | a device is paired exactly by the invited laptop's signed completion for its own id and transcript |
| PairingOutcomes.RegisteredInTime | services/daemon/src/pairing-host.ts:92-166 | in every interleaving each registration stems from a request its session received before the invitation expired, from its own peer and signed with the registered key |
| PairingConsumed.ConsumedInvitationRegisters | services/daemon/src/pairing-host.ts:98-101 | a second request marks the invitation consumed, and yet the first session registers its device |
| PairingConsumed.RegistersExactlyIfConfirmable | services/daemon/src/pairing-host.ts:92-197 | in every run: an invitation that is no longer available can register a device, as long as no honest device starts anew, exactly when a session under way holds the claim on it and its confirmation is signed, or can be signed by the device that asked for it, or needs no honest key |
| PairingConsumed.RegistersExactlyIfHeld | services/daemon/src/pairing-host.ts:92-197 | in every run, when honest devices may start anew: exactly when a session under way holds the claim on it |
| PairingConsumed.DeclinedHoldsInVain | packages/relay/src/pairing-client.ts:79-82 | a run in which the device declines the code: its session holds the claim, and nothing can confirm it |
| PairingParties.PairingHost.Invite | services/daemon/src/pairing-host.ts:56-90 | a new available invitation, or a refusal of its lifetime or token |
| PairingParties.PairingHost.Accept | services/daemon/src/pairing-host.ts:92-96 | a new session that waits for its request |
| PairingParties.PairingHost.GiveUp | services/daemon/src/pairing-host.ts:183-195 | the catch block |
| PairingParties.PairingHost.CheckRequest | services/daemon/src/pairing-host.ts:96-119 | the request checks, in order, with the whole new state; `PairingOutcomes.RequestTakenExactly` tells them from the request |
| PairingParties.PairingHost.CheckConfirmation | services/daemon/src/pairing-host.ts:140-166 | the confirmation checks and the registration |
| PairingParties.PairingHost.Receive | services/daemon/src/pairing-host.ts:96-166 | a received frame takes its step and keeps the invariants |
| PairingParties.PairingHost.Signed | services/daemon/src/pairing-host.ts:122-130 | a settled signature takes its step and keeps the invariants |
| PairingParties.PairingHost.Answered | services/daemon/src/pairing-host.ts:131-139 | a settled confirmation takes its step and keeps the invariants |
| PairingParties.StartDevice | packages/relay/src/pairing-client.ts:41-55 | a run starts exactly before expiry and over a channel to the invited laptop |
| PairingParties.PairingDevice.Signed | packages/relay/src/pairing-client.ts:56-61 | what the device signs, and when |
| PairingParties.PairingDevice.Receive | packages/relay/src/pairing-client.ts:62-103 | the checks on the laptop's challenge and completion |
| PairingParties.PairingDevice.Answered | packages/relay/src/pairing-client.ts:79-88 | only an accepted code is confirmed |
| PairingPayloads.SignedBytesAreUnambiguous | packages/protocol/src/pairing.ts:91-155 | equal signed bytes mean the same payload of the same kind |
| PairingPayloads.TranscriptsAreUnambiguous | packages/protocol/src/pairing.ts:105-118 | equal hashed bytes mean the same invitation fields and request |
| PairingPayloads.InjectiveExists | packages/protocol/src/pairing.ts:105-118 | transcript functions as assumed exist |
| PairingPayloads.TranscriptsAreNotSigned | packages/protocol/src/pairing.ts:105-155 | bytes that are hashed are never bytes that are signed |
| PairingPayloads.RequestsAreNotPairing | packages/protocol/src/auth.ts:42-56 | the bytes of an ordinary request are never those of a pairing payload |
| PairingPayloads.BothSidesSignTheSame | packages/protocol/src/pairing.ts:91-155 | the native and the laptop writer give every pairing payload the same bytes |
| PairingPayloads.CodeSpellsPrefix | packages/protocol/src/pairing.ts:120-125 | the code has eighteen digits and spells the digest's first eight bytes modulo 10^18; codes agree exactly when these do |
| Setup.HistoryGrows | services/daemon/src/setup.ts:84-281 | a sound and allowed write keeps the durable history sound |
| Setup.HistoryCut | services/daemon/src/setup.ts:84-362 | a crash after any write leaves a sound history |
| Setup.UnpairedMeansRevoked | services/daemon/src/setup.ts:348-362 | a pairing stops being stored only after its route was revoked |
| Setup.TombstoneComesFirst | services/daemon/src/setup.ts:334-343 | a phone withdrawn while its pairing is stored had the tombstone written first |
| Setup.RemovalSticks | services/daemon/src/setup.ts:319-345 | with the tombstone stored and no phone active, none becomes active until the pairing is gone, across crashes and restarts |
| Setup.Laptop.PutSecret | services/daemon/src/setup.ts:243-246 | a secret is written, also by a call that fails after it took effect |
| Setup.Laptop.WritePrivateConfig | services/daemon/src/setup.ts:383-395 | the config changes at the final rename or not at all |
| Setup.Laptop.PutAll | services/daemon/src/setup.ts:129-133 | secrets are written in order up to the first failure, whose own secret may have landed; which were written for sure is reported |
| Setup.Laptop.DeleteAll | services/daemon/src/setup.ts:139 | of the given secrets exactly those whose deletion took effect are gone, and nothing else changes |
| Setup.CleanupRestores | services/daemon/src/setup.ts:122-141 | when no failed write took effect and every deletion does, the cleanup leaves the secrets that were there before |
| Setup.Laptop.StoreConfig | services/daemon/src/setup.ts:129-142 | the guarded part: secrets, then the config; after a failure the secrets written for sure are deleted, then the store |
| Setup.Laptop.InitializeLocalRuntime | services/daemon/src/setup.ts:84-143 | exactly when it succeeds; config only after its secrets and database; idempotent; a leftover database is refused |
| Setup.StoredPairingIsSound | services/daemon/src/setup.ts:228-262 | with its secrets stored the pairing may be stored, and can be removed |
| Setup.Laptop.StorePairing | services/daemon/src/setup.ts:228-268 | secrets before the config that needs them, exactly when it succeeds, and after a failure exactly which secrets are left |
| Setup.Laptop.PairAndStore | services/daemon/src/setup.ts:195-280 | the guarded part: exactly when it succeeds, and which phones are active after a failure |
| Setup.Laptop.BootstrapPairing | services/daemon/src/setup.ts:145-281 | exactly when it succeeds, and then exactly this phone is newly active; refuses a second pairing; after a failure the config is unchanged and a phone is newly active exactly when it was registered and either a config existed or the store could not be removed |
| Setup.Laptop.RevokePhones | services/daemon/src/setup.ts:340-344 | exactly the active phones are withdrawn, unless one cannot be, and no other device changes |
| Setup.Laptop.PreparePairingRevocation | services/daemon/src/setup.ts:324-345 | tombstone, then no active phone; refuses a device that is not active; otherwise fails exactly when the tombstone or a withdrawal cannot be written |
| Setup.Laptop.RevokeRelayRoute | services/relay/src/relay-access.ts:91-97 | the relay revokes exactly for an unexpired host token of that very route |
| Setup.Laptop.CompletePairingRevocation | services/daemon/src/setup.ts:348-362 | route revoked, pairing forgotten, secret deleted, in this order; with a stored pairing it succeeds exactly without faults and before the host token ends, and after that changes nothing |
| Setup.Laptop.RevokePairing | services/daemon/src/setup.ts:313-317 | the whole removal: with a stored pairing it succeeds exactly when nothing fails and the host token has not ended; it withdraws exactly the active phones; after the token ended the pairing stays |
| Setup.Laptop.StartDaemon | services/daemon/src/main.ts:45-73 | exactly when the API starts, and that no phone is active then if the tombstone is stored |
| Setup.Laptop.FinishPairingRevocation | services/daemon/src/main.ts:115-150 | up to three attempts; one without faults before the host token ends removes the pairing, and after that none changes anything |
| Setup.Laptop.Crash | services/daemon/src/setup.ts:84-362 | a crash at any point of the history |
| SetupRuns.ServeRequests | services/daemon/src/main.ts:68-166 | the daemon from its start on, resuming a removal or taking requests, keeps the history sound; a pairing whose host token ended stays |
| SetupRuns.AnyRun | services/daemon/src/setup.ts:84-362 | every script of setup, pairing, removal and restart, each cut by a crash after any of its writes, keeps the history sound; and no script removes a stored pairing once its host token has ended |
| SetupRuns.ExpiredPairingStays | services/daemon/src/setup.ts:152-155 | a pairing removed too late: nothing fails, the phone is withdrawn, but removal errs, the pairing stays and a new one is refused |
| SetupRuns.FailedPairingLeavesPhoneActive | services/daemon/src/setup.ts:222-226 | a pairing that fails after registration leaves the phone active without a stored pairing, and the same phone cannot retry |
| SetupRuns.RemovedPhonePairsAgain | services/daemon/src/setup.ts:145-362 | a phone whose pairing was removed in time is withdrawn, and can be paired once more over a new route |
| TurnLog.OrderlyGrows | services/daemon/src/coordinator.ts:217-232 | logging in this order keeps one user message at most, before provider activity |
| TurnLog.Turn.AppendUserMessage | services/daemon/src/coordinator.ts:217-232 | the message is logged once |
| TurnLog.Turn.LogProviderEvent | services/daemon/src/coordinator.ts:367-394 | one provider event under its kind and then its redaction, within the event limit; after a failure which prefix of its writes was done |
| TurnLog.Turn.Handle | services/daemon/src/coordinator.ts:293-394 | one streamed event: what it adds to the log, exactly if its writes work (`TurnOutcomes.EventLogged`) and a prefix of that otherwise; anything but session binding brings the user message into the log first |
| TurnLog.Turn.Follow | services/daemon/src/coordinator.ts:272-395 | the stream loop: exactly the writes of the events that come through are done, up to the first that fails; the message precedes all activity but session binding, and limits hold |
| TurnLog.Turn.Complete | services/daemon/src/coordinator.ts:396-439 | a completed turn has exactly one user message |
| TurnLog.Turn.Fail | services/daemon/src/coordinator.ts:440-497 | a capacity failure reports `retrySafe` exactly when no user message was logged |
| TurnLog.ConversationCoordinator.RunTurn | services/daemon/src/coordinator.ts:242-507 | one turn: answer and log are those of `TurnResult`, which `TurnOutcomes` tells from the stream; order and counts of its events |
| TurnLog.ConversationCoordinator.SubmitMessage | services/daemon/src/coordinator.ts:145-507 | one call at a time: the answer is that of `Answer`, admission checks in order and then the turn; at most one new turn, and the idempotent answer |
| TurnLog.ConversationCoordinator.SwitchProvider | services/daemon/src/coordinator.ts:509-542 | one call at a time: exactly when the active provider changes |
| TurnOutcomes.EventLogged | services/daemon/src/coordinator.ts:290-394 | one event logs the user's message if that is due, then itself under its kind, then its redaction if it was redacted |
| TurnOutcomes.ThroughExactly | services/daemon/src/coordinator.ts:283-289 | a stream comes through exactly when it stays within both limits and no approval of it lacks fields |
| TurnOutcomes.TurnTells | services/daemon/src/coordinator.ts:242-507 | however a turn ends, the provider kinds of its log are those of the first events of its stream, in order; of all that came through if the writes up to the end of the stream work |
| TurnOutcomes.SucceedsExactly | services/daemon/src/coordinator.ts:242-439 | a turn succeeds exactly when its context is made, its stream finishes within the limits, the workspace is given back and each of its writes works; and what its log then is |
| TurnOutcomes.SuccessTells | services/daemon/src/coordinator.ts:242-439 | the log of a successful turn holds the whole stream, in order, between its fixed beginning and end |
| TurnOutcomes.LimitEndsTurn | services/daemon/src/coordinator.ts:283-289 | an event over either limit ends the turn: it fails, and nothing of the stream from that event on is logged, all before it if the writes work |
| TurnOutcomes.CapacityReportedExactly | services/daemon/src/coordinator.ts:440-497 | a turn whose provider runs out of capacity reports it exactly when the writes of the failure work, and as safe to retry exactly when it streamed nothing but session bindings |
| TurnOutcomes.CapacityOnlyThen | services/daemon/src/coordinator.ts:440-497 | capacity is reported in no other case |
| TurnOutcomes.AdmittedExactly | services/daemon/src/coordinator.ts:145-210 | which submissions start a turn, which are answered from the store, and why the others are refused |
| TurnRaces.StepKeepsSound | services/daemon/src/coordinator.ts:145-542 | every stretch between two awaits keeps: whoever is under way holds the lease of its project, who got or gave back a lease goes on in that order, marks are exactly those of turns that began and have not closed, each call says its message once, answers are of calls that ended |
| TurnRaces.OneTurnPerProject | services/daemon/src/git-workspace-manager.ts:93-119 | in every interleaving of submissions and switches at most one turn of a project is under way |
| TurnRaces.MarkedExactly | services/daemon/src/coordinator.ts:210-500 | in every interleaving a conversation is marked active exactly when a turn of it began and has not closed |
| TurnRepeats.SaidAgainExactly | services/daemon/src/coordinator.ts:178-210 | whatever the message, logged before or not: it can be logged once more exactly when a call for it is past its checks and can still get the workspace, or when it has no stored answer and a new call can get it |
| TurnRepeats.MessageSaidTwice | services/daemon/src/coordinator.ts:182-210 | two calls for one message, both past their checks before either is answered, log it twice |
| TurnRepeats.FailedMessageSaidAgain | services/daemon/src/coordinator.ts:440-497 | a turn that fails after logging its message stores no answer, and the message is logged again when it is sent again |
| SwitchRaces.ProviderMatchesExactly | services/daemon/src/coordinator.ts:152-156 | in every run a call has the provider of its conversation exactly when no switch took effect since it was submitted, or the last one that did chose that provider |
| SwitchRaces.TurnUnderWayExactly | services/daemon/src/coordinator.ts:516-534 | in every run, at any moment, also that of a switch taking effect: a turn of the project is under way exactly when its lease is held by one, which is what the switch checked before its last await |
| SwitchRaces.SwitchStartsIdle | services/daemon/src/coordinator.ts:510-520 | a switch passes its checks only while no turn of the project is under way |
| SwitchRaces.TurnInSwitchCameLater | services/daemon/src/coordinator.ts:518-534 | whatever happens after a switch passed its checks, a turn of its project then under way got its lease since |
| SwitchRaces.SwitchedDuringTurn | services/daemon/src/coordinator.ts:527-534 | the provider changes under a running turn of the old one that got its lease while the switch observed the policy |
| SwitchRaces.SwitchedBeforeTurn | services/daemon/src/coordinator.ts:152-204 | a switch that begins and ends after a call compared providers lets its turn run with the old one, with no lease taken in between |
| Fallback.FirstIndexIsFirst | native/Sources/ExarchFoundation/Models.swift:191-195 | the index used is the first one of the provider |
| Fallback.FallbackIsNext | native/Sources/ExarchFoundation/Models.swift:191-195 | the fallback is whoever follows the first place of the provider in the route |
| Fallback.RisesIffDistinct | services/daemon/src/api-server.ts:52-59 | each fallback moves forward in the route exactly when the route repeats no provider |
| Fallback.ChainNeverRepeats | native/Apps/macOS/DesktopClientModel.swift:1100-1105 | a chain of fallbacks tries no provider twice |
| Fallback.SubmitOnce | native/Apps/macOS/DesktopClientModel.swift:1042-1073 | one submission, with one retry after a changed policy, logs at most one user message |
| Fallback.Send | native/Apps/macOS/DesktopClientModel.swift:1081-1129 | each provider tried answers as the coordinator does; the next one is tried exactly when this one ran out of capacity before it took the message, the client does not find its message in the log, and the route has a next one that is offered and can be switched to; the chain ends, moves forward, and logs at most one user message, exactly one on success |

## Left out

- Noise, key agreement, hashing, signing, the Keychain, SQLite, Git and child processes: foreign calls, taken as parameters.
- User interfaces, voice, the iOS model, command-line parsing, URL and permission checks: single-branch validation or plumbing.
- Redaction patterns, history import and provider adapters: field copying; adapters are taken never to emit `user.message` and
  to report their own name when capacity runs out.
- `JSONSerialization.isValidJSONObject` at the top of the native writer, and Swift's canonical equivalence of dictionary keys:
  values are modelled with keys already distinct as code point sequences.
- Strings with lone surrogates and non-finite numbers: neither exists as a value of the JSON model.
- Decimal exponents outside 64 bits, which Swift would read as 0 and no double prints.
- Doubles themselves: a number enters as the shortest digit text that Swift prints for it.
- Base58 encode and decode share one pair of carry loops in the model, with base and radix as parameters; the byte masks and
  shifts of decode are division and remainder by 256.
- `JSON.stringify` of the laptop's frames and the schemas of frames: a predicate on payload bytes decides acceptance.
- The text messages of the relay (`registered`, `ready`, `counterpart.offline`) and the frame observer: they carry no state.
- `encodeBody` and `decodeBody` of the relay's HTTP envelopes: base64url of one body.
- AsyncQueue.AsyncQueue.constructor: option limits below one, which the source rejects when a queue is made, are not excluded;
  the properties hold for them as well.
- Relay peers and sockets are entries of a sequence numbered by connection, not shared objects; `stop()` is a function used only
  to show what it does to the counters.
- `issueRoute`: two signed texts and two tickets with fresh random values.
- `verifyApprovalDecision`: one signature check without state of its own.
- Challenge expiries beyond the last date JavaScript can print, which issuing already rejects.
- DeviceAuth.EveryRunIsSound: speaks of texts of nonces and of counters within one registration, because more is false; see
  `DeviceAuthHistory` for what holds beyond.
- RelayTickets.NoNonceTwice: needs a steady clock and one expiry per nonce, because pruned entries are forgotten;
  `RelayTickets.TakenAgainExactly` has no such condition.
- A buffered `undefined`, which `next` takes for an empty buffer and drops (`async-queue.ts:67-68`): queue elements are never
  undefined in the model.
- TurnLog.ConversationCoordinator.SubmitMessage: runs to its end before the next call, so on a coordinator that began without
  active turns `AlreadyActive` cannot occur; how calls interleave is in `TurnRaces` and `TurnRepeats`, without the rest of
  what a turn logs.
- TurnLog.ConversationCoordinator.SwitchProvider: runs in one go, with the lease check, the policy observation and the two
  handoff events folded into one answer; the awaits between them are in `TurnRaces` and `SwitchRaces`.
- Answers to messages expire after a day (`canonical-store.ts:1559`): in the model they stay.
- JavaScript's queue of jobs, except that calls whose lease was taken or given back go on in that order in `TurnRaces`.
- Workspace leases conflict by project in `TurnRaces`; overlapping paths of different projects, heartbeats and the
  reconciliation of stale leases are not modelled.
- Fallback.Send: drives a coordinator alone; another client's submissions for the same conversation do not come in between.
- `turn.interrupt.requested`, approvals after their request and provider bindings: they write no user message.
- A failed config write that took effect nevertheless: the rename is the last step of `writePrivateConfig`.
- Other commands that change devices (local client enrolment, single-device revocation) while a removal is under way: one setup
  process runs at a time.
- `workspace-scope.ts` and `ContextCapabilityIssuer`: file-system checks, and the shape of the ticket cache once more.
- `FileRelayRevocationStore`: adding a route is one durable step that may fail.
