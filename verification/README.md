# zwaved, modelled and verified in Dafny

zwaved is a Z-Wave controller daemon: it talks to a serial controller, includes nodes, secures them with
Security 0 and Security 2, interviews and configures them, and keeps what it learns in SQLite. This project
models the parts of it that carry state from one event to the next or have to agree with something simpler,
and proves what they guarantee over every input and every run.

Verify everything with `dafny verify dfyconfig.toml`.

How the models are built:

- A component that reacts to bus messages is a class whose handlers update its fields, next to a pure `Step`
  function over a snapshot of those fields. The snapshot ends in a log of every input and every output, so a
  statement about a log is a statement about a whole run. Each handler's contract says that it performs one
  `Step`; the theorems are about all sequences of steps.
- Loops of the source are loops here: the byte parser, the retry loop, the codecs, the merge, the aggregates,
  the drain, the checkpoint, the capture reader.
- The reference a theorem compares with is written without the mechanism it is checking: a whole-stream
  scanner for the byte-fed parser, a specification automaton for the handshake, a stable sort for the queue,
  aggregates of the whole report history for the thermostat cache, the history of operations for the registry and
  the policies, the octets and class numbers as literals for what each input causes, "write everything" for the checkpoint.
- Cryptography, clocks, entropy and SQLite are inputs: an event carries what decryption or key agreement
  yielded, and tables are maps or row sequences.

| files | what they model |
|---|---|
| `Bytes`, `Sequences`, `Decimal` | octets, projections of logs, decimal text |
| `DataFrame`, `FrameParser`, `FrameTransport`, `FrameDelivery` | serial data frames, the byte-fed parser, pumping and sending, what the line delivers |
| `Policy`, `PolicyCodec`, `PolicyRegister`, `PolicyBlob` | policies: merge, blob codec, store, the terminal's editor |
| `Kex`, `S2Encapsulation`, `SpanManager`, `SpanLockstep` | Security 2 frames and the nonce runtime |
| `S2Bootstrap`, `S2Handshake`, `S2Reactions`, `S2Completion`, `S2KeyInstall` | the Security 2 inclusion handshake: what it never does, what it always does, that it completes, several installs at once |
| `OutboundQueue`, `S0Outbound`, `S0Exchange`, `S2Outbound` | encrypt-on-send for both transports |
| `PendingQueue`, `PostInclusion`, `PostInclusionRuns`, `InclusionSetup`, `PolicyHistory`, `SleepingNodes` | queue for sleeping nodes, interview, policy step, wake-up, the policy in force |
| `NodeRegistry`, `NodeHistory`, `SpanStore` | caches over tables |
| `Thermostat`, `ThermostatRuns`, `Recorder` | logical thermostats, decimal rendering |
| `Logger`, `Capture` | the log queue and the captured streams |

Properties that the code does not have are stated as such, each with an input that breaks it and the exact
condition under which it holds:

- Merging policies is associative in the middle argument exactly if that policy names no slot twice
  (`Policy.DuplicateBreaksAssociativity`, `Policy.MergeAssociativeIffUnique`), and the effective policy is the
  merge of both sides exactly if there is a device default or the override is slot-unique
  (`Policy.LoneDuplicateIsNotMerged`, `Policy.EffectiveIsMerge`).
- A changed Length octet can turn one accepted frame into another (`DataFrame.LengthByteErrorCanPass`), exactly
  if it announces a shorter frame and the octets cut off fold to the difference of the lengths
  (`DataFrame.LengthByteErrorPassesIff`); every other single-byte change is rejected.
- A data frame that arrives behind an ACK in the same read is lost (`FrameTransport.FrameBehindAckIsLost`), and
  so is one whose first half arrives before a timeout and whose rest arrives in the retry
  (`FrameDelivery.HalfFrameIsLostInRetry`). A wait for an answer loses nothing, whatever follows, exactly if the
  octets it skips (what is left of the settling read and what a retry flushes) complete no frame and leave the
  parser where reception resumes, which for a retry is a frame boundary (`FrameDelivery.WaitLosesNothingIff`,
  spelled out by `FrameDelivery.SkipsNothingIff`). If that holds of each attempt, a whole send loses nothing
  (`FrameDelivery.SendLosesNothing`).
- Two nodes installing class keys share one runtime, and the second stalls the first for good
  (`S2KeyInstall.SecondInstallStallsFirst`, `S2KeyInstall.StuckUntilIncluded`). A node that waits to prove its
  key is stuck exactly if another node's class NONCE_GET was answered after its own
  (`S2KeyInstall.StuckIffOvertaken`).
- A sleeping node's queued interview can miss its wake-up (`SleepingNodes.InterviewWithoutHomeIsLost`). It goes
  out at a wake-up exactly if a network was bound when it was queued, the same one is bound at the wake-up, and
  nothing took the node's commands under it in between (`SleepingNodes.InterviewSelectedIff`).
- Security 2 sends are not globally first in, first out (`S2Outbound.FastPathOvertakes`). They are throughout a
  run exactly if no request in it is encryptable while something different waits
  (`S2Outbound.AlwaysInOrderIff`).
- Including a known node again makes the registry's map and table disagree
  (`NodeRegistry.SecondInclusionDiverges`); throughout a run they agree exactly if every `add` brings the
  columns the row already has (`NodeRegistry.AlwaysInSyncIff`).
- Binding the same network again takes SPANs back to the last checkpoint (`SpanStore.RebindRewinds`); a bind
  leaves them alone exactly if every stored one equals the live one (`SpanStore.BindKeepsLiveIff`). SPANs of a
  previous network are stored under the next one (`SpanStore.SwitchCarriesSpans`), exactly unless it knows all
  of them already (`SpanStore.BindAndCheckpointIff`).
- A resynchronisation request has no effect while the daemon holds a SPAN (`SpanLockstep.ResyncIsIgnored`),
  although the comments in the source expect the next frame to carry a fresh SPAN extension. Between two
  runtimes of this kind the next message is decryptable exactly if both directions lost equally many
  (`SpanLockstep.UnderstoodIffLossesBalance`).

## Model

| member | source | states |
|---|---|---|
| `DataFrame.DecodeIffEncodedPrefix` | src/zwave-protocol/ZwaveDataFrame.cpp:7-100 | a buffer parses to a frame if and only if it starts with that frame's encoding and the payload is at most 250 bytes |
| `DataFrame.WholeFramesAreTheImageOfEncode` | src/zwave-protocol/ZwaveDataFrame.cpp:7-100 | the exact-length buffers that parse are exactly the image of the printer; parser and printer undo each other |
| `DataFrame.XorAllDetects` | src/zwave-protocol/ZwaveDataFrame.cpp:155-179 | changing any one byte changes the checksum register |
| `DataFrame.AcceptedFramesDifferTwice` | src/zwave-protocol/ZwaveDataFrame.cpp:7-72 | two different accepted frames of equal length differ in at least two bytes |
| `DataFrame.SingleByteErrorRejected` | src/zwave-protocol/ZwaveDataFrame.cpp:7-72 | every single-byte change other than of the Length octet is rejected |
| `DataFrame.DecodesIffFoldsToZero` | src/zwave-protocol/ZwaveDataFrame.cpp:42-72 | once the header is accepted, a buffer parses if and only if Length through Checksum fold to zero |
| `DataFrame.LengthByteErrorPassesIff` | src/zwave-protocol/ZwaveDataFrame.cpp:23-72 | a changed Length octet passes if and only if it announces a shorter frame and the octets it cuts off fold to the difference of the lengths |
| `DataFrame.LengthByteErrorCanPass` | src/zwave-protocol/ZwaveDataFrame.cpp:23-72 | a frame that stays acceptable when its Length octet changes |
| `DataFrame.ZwaveDataFrame.CalculateChecksum` | src/zwave-protocol/ZwaveDataFrame.cpp:155-179 | the loop computes 0xFF xored with length, type, command and payload |
| `DataFrame.ZwaveDataFrame.ToBuffer` | src/zwave-protocol/ZwaveDataFrame.cpp:74-100 | the buffer is the frame's encoding |
| `DataFrame.ZwaveDataFrame.ParseFromBuffer` | src/zwave-protocol/ZwaveDataFrame.cpp:7-72 | accepts exactly what decodes; on a bad checksum the fields are already overwritten, on a bad header they keep their values |
| `DataFrame.ZwaveDataFrame.SetHeader` | src/zwave-protocol/ZwaveDataFrame.cpp:102-107 | sets type and command, keeps the payload, marks the frame valid |
| `DataFrame.ZwaveDataFrame.SetPayload` | src/zwave-protocol/ZwaveDataFrame.cpp:109-124 | refuses more than 250 bytes and then changes nothing; whatever a frame holds, its encoding parses back to it |
| `FrameParser.ParserRefinesScanner` | src/zwave-protocol/FrameTransport.cpp:64-126 | feeding bytes one at a time raises exactly the events of a scanner that sees the whole stream |
| `FrameParser.ChunkingIsIrrelevant` | src/zwave-protocol/FrameTransport.cpp:147-174 | from any parser state, how the stream is cut into reads changes neither events nor final state |
| `FrameParser.ScanDelivers` | src/zwave-protocol/FrameTransport.cpp:64-126 | frames with SOF-free noise between them are cut out of the stream, all of them, in order |
| `FrameParser.DeliveryIsExact` | src/zwave-protocol/FrameTransport.cpp:56-126 | any frames with payload up to 250 bytes, noise without SOF between them and any chunking: the parser completes exactly those frames, in order |
| `FrameParser.ReachableStatesAreValid` | src/zwave-protocol/FrameTransport.cpp:56-126 | in every reachable state the buffer is within the expected length, so never above 255 bytes |
| `FrameParser.Resynchronises` | src/zwave-protocol/FrameTransport.cpp:56-126 | from any reachable state, whatever follows, the parser waits for a frame start again within 254 bytes |
| `FrameParser.ResyncBoundIsTight` | src/zwave-protocol/FrameTransport.cpp:56-126 | 253 bytes are not always enough |
| `FrameTransport.PumpProjections` | src/zwave-protocol/FrameTransport.cpp:133-174 | pumping writes no request, takes every byte once and hands on exactly the frames the parser completes |
| `FrameTransport.SendWritesIdenticalBuffer` | src/zwave-protocol/FrameTransport.cpp:176-250 | one write per attempt, at most one per permitted attempt, always the same buffer |
| `FrameTransport.SendVerdicts` | src/zwave-protocol/FrameTransport.cpp:176-250 | every attempt ended as its write and its octets say, retries start with a reset parser, only the last can be acknowledged; so failure means every permitted attempt ended in a failed write, in a NAK or CAN behind nothing but data frames, or in a timeout with nothing but data frames polled |
| `FrameTransport.RoundIsExplained` | src/zwave-protocol/FrameTransport.cpp:186-247 | one attempt: the write, the octets taken and the verdict they amount to |
| `FrameTransport.ChunkIsFaithful` | src/zwave-protocol/FrameTransport.cpp:218-245 | bytes of a read are fed in order up to the one that settles the wait; its event comes last, behind nothing but data frames; without a verdict all are fed and none settles |
| `FrameTransport.WaitIsFaithful` | src/zwave-protocol/FrameTransport.cpp:200-246 | over any sequence of reads the verdict is the last event of exactly the bytes taken, behind nothing but data frames; a timeout took every polled byte |
| `FrameTransport.SuccessMeansBoundaryAck` | src/zwave-protocol/FrameTransport.cpp:176-250 | success implies a successful write in that attempt and an ACK the whole-stream scanner sees at a frame boundary, so a 0x06 inside a data frame never counts |
| `FrameTransport.FrameBehindAckIsLost` | src/zwave-protocol/FrameTransport.cpp:218-245 | a frame right behind the ACK in the same read is not delivered, though pumping the same bytes delivers it |
| `FrameTransport.Transport.ResetParser` | src/zwave-protocol/FrameTransport.cpp:56-62 | back to waiting for a frame start, with no parsed frame pending |
| `FrameTransport.Transport.FeedByte` | src/zwave-protocol/FrameTransport.cpp:64-126 | the mutable parser performs one step of the pure one and keeps the frame it completes |
| `FrameTransport.Transport.HandleParsedDataFrame` | src/zwave-protocol/FrameTransport.cpp:133-145 | a pending frame is acknowledged, then dispatched, once |
| `FrameTransport.Transport.TakeByte` | src/zwave-protocol/FrameTransport.cpp:155-172 | feeding a byte and handling the frame it completes |
| `FrameTransport.Transport.PumpOnce` | src/zwave-protocol/FrameTransport.cpp:147-174 | a whole read is fed; progress is reported exactly if it was not empty |
| `FrameTransport.Transport.PumpAll` | src/zwave-protocol/ProtocolThread.cpp:742-745 | polling again and again handles the concatenation of all reads |
| `FrameTransport.Transport.WaitOnChunk` | src/zwave-protocol/FrameTransport.cpp:218-245 | the inner loop stops at the first ACK, NAK or CAN of a read |
| `FrameTransport.Transport.WaitForAck` | src/zwave-protocol/FrameTransport.cpp:200-246 | the wait for one attempt |
| `FrameTransport.Transport.TryOnce` | src/zwave-protocol/FrameTransport.cpp:186-247 | one attempt: write, then wait if the write succeeded |
| `FrameTransport.Transport.SendRequest` | src/zwave-protocol/FrameTransport.cpp:176-250 | three attempts at most, with the encoding of the frame |
| `FrameTransport.Transport.SendBuffer` | src/zwave-protocol/FrameTransport.cpp:184-250 | the retry loop performs the pure run for any non-empty script of attempts |
| `FrameTransport.Transport.NextTry` | src/zwave-protocol/FrameTransport.cpp:184-247 | one turn of the retry loop, with the parser reset before every retry |
| `FrameTransport.ParseWhole` | src/zwave-protocol/FrameTransport.cpp:112-122 | a completed buffer is parsed into a fresh frame |
| `FrameDelivery.PumpHandles` | src/zwave-protocol/FrameTransport.cpp:133-174 | from any parser state, what is acknowledged and handed on is, for each completed frame in turn, one ACK and then that frame |
| `FrameDelivery.ReceptionIsExact` | src/zwave-protocol/FrameTransport.cpp:56-174 | any frames with payload up to 250 bytes, SOF-free noise and any chunking: one ACK written before each, each handed on once, in order, and nothing else |
| `FrameDelivery.WaitFindsAnswer` | src/zwave-protocol/FrameTransport.cpp:200-246 | the nested loops find the first control octet of everything polled |
| `FrameDelivery.SendSucceedsIff` | src/zwave-protocol/FrameTransport.cpp:176-250 | a send succeeds if and only if one of its attempts is written and answered with an ACK before any other control octet |
| `FrameDelivery.ChunkDeliversAllIff` | src/zwave-protocol/FrameTransport.cpp:218-245 | one read taken during a send delivers what reception would if and only if nothing complete is left behind the settling octet |
| `FrameDelivery.TakenAndLeftAreRead` | src/zwave-protocol/FrameTransport.cpp:200-246 | the octets a wait takes, followed by those it leaves behind, are the beginning of what its polls bring in |
| `FrameDelivery.WaitLosesNothingOnIff` | src/zwave-protocol/FrameTransport.cpp:184-246 | for a given continuation of the line, a wait, retried or not, loses nothing if and only if the continuation completes the same frames from where reception resumes as behind the skipped octets from where the wait ended |
| `FrameDelivery.WaitLosesNothingIff` | src/zwave-protocol/FrameTransport.cpp:184-246 | whatever is read afterwards, a wait, retried or not, loses nothing if and only if the octets left behind and flushed complete no frame and leave the parser where reception resumes |
| `FrameDelivery.SkipsNothingIff` | src/zwave-protocol/FrameTransport.cpp:184-246 | without a retry the condition is that the bytes left behind hold no complete frame and begin none; a retry with nothing to flush needs the wait to have ended at a frame boundary too; at a boundary the flushed octets must be harmless as well |
| `FrameDelivery.HalfFrameIsLostInRetry` | src/zwave-protocol/FrameTransport.cpp:184-213 | half a frame before the timeout and the other half in the retry: nothing is left behind, and the frame reception would deliver is lost |
| `FrameDelivery.SendHandles` | src/zwave-protocol/FrameTransport.cpp:176-250 | in a whole send, what is acknowledged and handed on is one ACK and then the frame, for each frame completed by the octets each attempt takes, in turn |
| `FrameDelivery.AttemptLosesNothingIff` | src/zwave-protocol/FrameTransport.cpp:184-246 | each attempt of a send, written or not, loses nothing whatever follows if and only if it skips nothing |
| `FrameDelivery.SendLosesNothing` | src/zwave-protocol/FrameTransport.cpp:176-250 | if each attempt skips nothing, the send and everything read afterwards deliver what reception would of the whole line |
| `Policy.SameSlot` | src/policy-register/PolicyRegister.cpp:78-93 | two entries share a slot exactly if they have the same kind and, where it has one, the same key |
| `Policy.MergePolicies` | src/policy-register/PolicyRegister.cpp:205-226 | the nested loops compute the merge |
| `Policy.MergeLookup` | src/policy-register/PolicyRegister.cpp:205-226 | looking a slot up in a merge gives the last override for it, else the device default |
| `Policy.MergeOrder` | src/policy-register/PolicyRegister.cpp:205-226 | device slots keep their order, new slots follow in order of first appearance, slot-uniqueness is kept |
| `Policy.MergeAssociativeWhenUnique` | src/policy-register/PolicyRegister.cpp:205-226 | merge is associative when the middle policy is slot-unique |
| `Policy.DuplicateBreaksAssociativity` | src/policy-register/PolicyRegister.cpp:205-226 | for every policy that is not slot-unique there is a third one that breaks associativity |
| `Policy.MergeAssociativeIffUnique` | src/policy-register/PolicyRegister.cpp:205-226 | associativity for all outer policies holds if and only if the middle one is slot-unique |
| `Policy.MergeIntoEmptyWhenUnique` | src/policy-register/PolicyRegister.cpp:205-226 | merging a slot-unique policy into the empty one gives it back |
| `Policy.EffectiveIsMerge` | src/policy-register/PolicyRegister.cpp:487-527 | the effective policy is the merge with absent read as empty if and only if a device default exists or the override is slot-unique |
| `Policy.LoneDuplicateIsNotMerged` | src/policy-register/PolicyRegister.cpp:514-521 | an override that names a slot twice, without a device default, is used as it is and not merged |
| `PolicyCodec.RoundTripIffStorable` | src/policy-register/PolicyRegister.cpp:96-202 | decoding an encoding gives the policy back if and only if it has at most 255 entries and no more than 255 members per entry |
| `PolicyCodec.BlobExample` | src/policy-register/PolicyRegister.cpp:96-135 | the octets of one policy with an entry of each kind |
| `PolicyCodec.DecodeOfEncode` | src/policy-register/PolicyRegister.cpp:96-202 | so also with any bytes behind it |
| `PolicyCodec.DecodedIsStorable` | src/policy-register/PolicyRegister.cpp:137-202 | whatever decodes is within the count bounds |
| `PolicyCodec.EncodingsArePrefixFree` | src/policy-register/PolicyRegister.cpp:96-135 | an encoding is a prefix of another only if the policies are equal |
| `PolicyCodec.RewritingNormalises` | src/policy-register/PolicyRegister.cpp:96-202 | re-encoding any accepted blob keeps its meaning, never grows it and is then stable |
| `PolicyCodec.AppendU32Be` | src/policy-register/PolicyRegister.cpp:54-60 | four big-endian bytes are appended |
| `PolicyCodec.ReadU32Be` | src/policy-register/PolicyRegister.cpp:64-72 | four big-endian bytes are read |
| `PolicyCodec.AppendEntry` | src/policy-register/PolicyRegister.cpp:101-133 | one entry is written as its kind and body, the member count truncated to one byte |
| `PolicyCodec.Serialize` | src/policy-register/PolicyRegister.cpp:96-135 | the loop produces the encoding, counts truncated to one byte |
| `PolicyCodec.ReadEntry` | src/policy-register/PolicyRegister.cpp:148-199 | one entry is read at a position, or refused exactly where the pure decoder refuses it |
| `PolicyCodec.ReadEntries` | src/policy-register/PolicyRegister.cpp:145-201 | the loop reads entry by entry and accepts exactly what the pure decoder does |
| `PolicyCodec.Deserialize` | src/policy-register/PolicyRegister.cpp:137-202 | the loop accepts and returns exactly what the pure decoder does |
| `PolicyRegister.Register.SetNodeOverride` | src/policy-register/PolicyRegister.cpp:345-365 | the encoded override is stored under the bound network and the node announced as changed; nothing happens without a database or a network |
| `PolicyRegister.Register.SetDevicePolicy` | src/policy-register/PolicyRegister.cpp:322-343 | the encoded default is stored and announced |
| `PolicyRegister.Register.DeleteNodeOverride` | src/policy-register/PolicyRegister.cpp:385-403 | the override under the bound network is removed and the node announced as changed |
| `PolicyRegister.Register.NoteDeviceIdentity` | src/policy-register/PolicyRegister.cpp:475-485 | the identity is kept under the bound network |
| `PolicyRegister.Register.NodeOverride` | src/policy-register/PolicyRegister.cpp:453-473 | the stored override, decoded |
| `PolicyRegister.Register.DevicePolicy` | src/policy-register/PolicyRegister.cpp:405-423 | the stored device policy, decoded |
| `PolicyRegister.Register.EffectivePolicy` | src/policy-register/PolicyRegister.cpp:487-527 | the case split over what is stored, and when it is the merge of both |
| `PolicyRegister.OverrideReadsBackIff` | src/policy-register/PolicyRegister.cpp:345-365 | an override reads back as stored if and only if there is somewhere to store it and its counts fit |
| `PolicyRegister.DevicePolicyReadsBackIff` | src/policy-register/PolicyRegister.cpp:322-343 | a device default reads back as stored if and only if there is a database and its counts fit |
| `PolicyRegister.OverridesAreSeparate` | src/policy-register/PolicyRegister.cpp:345-403 | overrides and identities of other nodes and other networks are left alone |
| `PolicyRegister.DeletedOverrideIsGone` | src/policy-register/PolicyRegister.cpp:385-403 | a deleted override is gone and the device default, or nothing, is in force |
| `PolicyRegister.ChangesAreAnnounced` | src/policy-register/PolicyRegister.cpp:322-403 | every accepted change is announced once, with its node or 0 |
| `PolicyBlob.SameFlatSlot` | utils/zwave-terminal/policy_blob.cpp:236-251 | the terminal's slot test agrees with the daemon's on every known kind of entry |
| `PolicyBlob.ReadFlat` | utils/zwave-terminal/policy_blob.cpp:46-93 | the terminal reads one entry exactly as the daemon does |
| `PolicyBlob.DecodePolicy` | utils/zwave-terminal/policy_blob.cpp:35-96 | the terminal's decoder accepts exactly the blobs the daemon's accepts, with matching entries |
| `PolicyBlob.ReadNext` | utils/zwave-terminal/policy_blob.cpp:43-95 | one turn of the decoder's loop: a record that can be read joins those before it, and an unreadable one makes the whole policy unreadable |
| `PolicyBlob.ReadRecords` | utils/zwave-terminal/policy_blob.cpp:43-95 | the loop reads record by record what the daemon reads entry by entry |
| `PolicyBlob.EncodePolicy` | utils/zwave-terminal/policy_blob.cpp:98-129 | the terminal's encoder loop |
| `PolicyBlob.AppendFlat` | utils/zwave-terminal/policy_blob.cpp:103-127 | one record is written as its kind and, for a known kind, the same body the daemon writes |
| `PolicyBlob.SameEncoding` | utils/zwave-terminal/policy_blob.cpp:98-129 | entries that mean the same encode to the same bytes in terminal and daemon |
| `PolicyBlob.UpsertFlat` | utils/zwave-terminal/policy_blob.cpp:271-284 | the first entry of the slot is replaced in place, or the entry is appended |
| `PolicyBlob.ApplyEntryToBlob` | utils/zwave-terminal/policy_blob.cpp:257-286 | the edited blob, whether something was replaced, and refusal exactly of blobs that do not decode |
| `PolicyBlob.EditCommutesWithMerge` | utils/zwave-terminal/policy_blob.cpp:257-286 | the daemon decodes an edited blob to its own merge of the entry if and only if the counts stay within 255 |
| `PolicyBlob.EditRunsBuildUniquePolicies` | utils/zwave-terminal/policy_blob.cpp:257-286 | any run of edits from the empty blob whose counts fit gives the merge of all of them, and it is slot-unique |
| `Kex.GrantPolicy` | src/zwave-protocol/security/s2/Kex.cpp:90-100 | a class is granted if and only if it was requested, is not S0 and is not Access Control under client-side authentication |
| `Kex.SchemeIsHighest` | src/orchestrator/SecurityS2BootstrapOrchestrator.cpp:338-349 | for every grant, the recorded scheme names the class with the highest bit in it, and no other scheme does |
| `S2Encapsulation.MeasureExtensions` | src/zwave-protocol/security/s2/Encapsulation.cpp:24-45 | the loop over the extension objects finds the length of the chain, or that it is malformed |
| `S2Encapsulation.ChainInFront` | src/zwave-protocol/security/s2/Encapsulation.cpp:24-45 | the length of a chain does not depend on what follows it |
| `S2Encapsulation.DecryptUndoesEncapsulate` | src/zwave-protocol/security/s2/Encapsulation.cpp:68-158 | for any chains of extensions in the clear and under the cipher, a frame opens to exactly the command it was built around |
| `S2Encapsulation.NoRoomForTag` | src/zwave-protocol/security/s2/Encapsulation.cpp:108-134 | a frame without room for the tag behind its extensions opens to nothing, whatever the cipher says |
| `S2Encapsulation.ChainIsRead` | src/zwave-protocol/security/s2/NonceSync.cpp:64-89 | for any chain of extension objects and whatever follows it, the walk finds its length and the search finds a SPAN extension if and only if one of the objects is one |
| `SpanManager.FindSpanExtension` | src/zwave-protocol/security/s2/NonceSync.cpp:64-89 | the search loop stops at the first SPAN extension or at a malformed object |
| `S2Bootstrap.Orchestrator.OnNodeIncluded` | src/orchestrator/SecurityS2BootstrapOrchestrator.cpp:142-158 | a Security 2 node with keys loaded gets a new session and a KEX_GET; any other is left alone |
| `S2Bootstrap.Orchestrator.OnKexReport` | src/orchestrator/SecurityS2BootstrapOrchestrator.cpp:160-184 | grant and answer with KEX_SET, or fail and end the session when nothing can be granted |
| `S2Bootstrap.Orchestrator.FinishKeyAgreement` | src/orchestrator/SecurityS2BootstrapOrchestrator.cpp:195-220 | key agreement leads to the temporary channel or ends the session |
| `S2Bootstrap.Orchestrator.OnPublicKeyReport` | src/orchestrator/SecurityS2BootstrapOrchestrator.cpp:222-249 | our key is sent, then the DSK prompt or key agreement |
| `S2Bootstrap.Orchestrator.OnConfirmDsk` | src/orchestrator/SecurityS2BootstrapOrchestrator.cpp:251-272 | a well-formed PIN clears the prompt and finishes agreement; anything else changes nothing |
| `S2Bootstrap.Orchestrator.SendOverTempChannel` | src/orchestrator/SecurityS2BootstrapOrchestrator.cpp:277-286 | a message goes out encrypted, or is dropped when no nonce can be had |
| `S2Bootstrap.Orchestrator.DecryptInbound` | src/orchestrator/SecurityS2BootstrapOrchestrator.cpp:290-304 | the plaintext if a nonce is available and decryption succeeds |
| `S2Bootstrap.Orchestrator.OnKexSetEcho` | src/orchestrator/SecurityS2BootstrapOrchestrator.cpp:309-335 | a matching echo is answered and key requests may follow; a mismatch ends the session |
| `S2Bootstrap.Orchestrator.CompleteBootstrap` | src/orchestrator/SecurityS2BootstrapOrchestrator.cpp:363-370 | records and publishes the scheme of the grant and ends the session |
| `S2Bootstrap.Orchestrator.OnTempChannelKeyExchange` | src/orchestrator/SecurityS2BootstrapOrchestrator.cpp:374-427 | completion, a key transfer for a granted class, or failure for one that was not granted |
| `S2Bootstrap.Orchestrator.OnKeyVerify` | src/orchestrator/SecurityS2BootstrapOrchestrator.cpp:432-457 | a verified key reopens key requests; one that does not verify ends the session |
| `S2Bootstrap.Orchestrator.OnApplicationCommand` | src/orchestrator/SecurityS2BootstrapOrchestrator.cpp:459-534 | dispatch by phase; commands that do not fit the phase change nothing |
| `S2Handshake.KeyTransferIsJustified` | src/orchestrator/SecurityS2BootstrapOrchestrator.cpp:142-427 | in every run a key answers an encrypted request for that class, behind, in order and since the inclusion that started the session, each answered at once: a report granting that class (with that grant), a public key (with ours), a well-formed confirmation if the grant needs one (prompt cleared), key agreement, a nonce request (with a nonce), and an encrypted echo of exactly the grant that was sent (with an echo of the report) |
| `S2Handshake.CompletionIsJustified` | src/orchestrator/SecurityS2BootstrapOrchestrator.cpp:363-427 | in every run a completion answers a decrypted final TRANSFER_END behind such a whole handshake and reports the highest class of its grant |
| `S2Handshake.StartIsJustified` | src/orchestrator/SecurityS2BootstrapOrchestrator.cpp:142-158 | in every run a session starts only in answer to the inclusion of a Security 2 node |
| `S2Handshake.EmissionsObeyMonitor` | src/orchestrator/SecurityS2BootstrapOrchestrator.cpp:160-532 | in every run each session ends at most once and is then silent, the grant never changes, no key is sent while another is unverified, completion comes with every sent key verified and reports the highest granted class |
| `S2Handshake.NothingIsDropped` | src/orchestrator/SecurityS2BootstrapOrchestrator.cpp:277-286 | in every run no handshake frame is dropped for want of a SPAN |
| `S2KeyInstall.StuckUntilIncluded` | src/orchestrator/SecurityS2BootstrapOrchestrator.cpp:432-534 | a session that waits for a proof it cannot decrypt stays as it is under every input, and its node hears nothing, until exactly an accepted inclusion of that node |
| `S2KeyInstall.StuckForever` | src/orchestrator/SecurityS2BootstrapOrchestrator.cpp:432-534 | so it stays stuck through every run without such an inclusion |
| `S2KeyInstall.StuckIffOvertaken` | src/orchestrator/SecurityS2BootstrapOrchestrator.cpp:510-532 | in every run a session that waits for a proof is stuck if and only if another node's class NONCE_GET was answered after its own |
| `S2KeyInstall.ProofAcceptedIff` | src/orchestrator/SecurityS2BootstrapOrchestrator.cpp:432-457 | in every run a decryptable proof with a SPAN extension moves the session on if and only if it was not overtaken |
| `S2KeyInstall.SecondInstallStallsFirst` | src/orchestrator/SecurityS2BootstrapOrchestrator.cpp:510-526 | a run of two handshakes, frame by frame up to the class NONCE_GET of each node, after which the first node is stuck |
| `S2Handshake.RunKeepsInv` | src/orchestrator/SecurityS2BootstrapOrchestrator.cpp:142-534 | the invariant tying sessions, SPAN runtime, log and monitor holds after every run |
| `S2Reactions.InclusionStartsIff` | src/orchestrator/SecurityS2BootstrapOrchestrator.cpp:142-158 | a session starts if and only if the node announces 0x9F and the network keys are loaded |
| `S2Reactions.ReportIsAnswered` | src/orchestrator/SecurityS2BootstrapOrchestrator.cpp:160-184 | a KEX_REPORT of six octets or more is answered with KEX_SET for exactly the requested classes it may have, or ends the session with KEX_FAIL 1 if there are none; anything else is ignored |
| `S2Reactions.PublicKeyIsAnswered` | src/orchestrator/SecurityS2BootstrapOrchestrator.cpp:222-249 | a key report of 35 octets is answered with our key, and then with the prompt if the grant holds a class above the unauthenticated one, else with the outcome of the agreement |
| `S2Reactions.ConfirmationResumesIff` | src/orchestrator/SecurityS2BootstrapOrchestrator.cpp:251-272 | a confirmation resumes a parked session if and only if it is five digits below 65536, and is ignored otherwise |
| `S2Reactions.NonceIsAnswered` | src/orchestrator/SecurityS2BootstrapOrchestrator.cpp:489-532 | a NONCE_GET is answered on the temporary channel and again for a new class key |
| `S2Reactions.EchoIsCompared` | src/orchestrator/SecurityS2BootstrapOrchestrator.cpp:309-335 | in every run an encrypted echo continues the session if and only if it repeats scheme, curve and grant; another one ends it with KEX_FAIL 7 |
| `S2Reactions.ExchangeIsExact` | src/orchestrator/SecurityS2BootstrapOrchestrator.cpp:374-427 | in every run, over the octets of the opened frame: a final TRANSFER_END completes with the highest class, a request outside the grant ends the session with KEX_FAIL 8, a request for one granted class gets that key, and anything else is ignored |
| `S2Reactions.ProofIsExact` | src/orchestrator/SecurityS2BootstrapOrchestrator.cpp:432-457 | in every run a proof that opens is confirmed, and one that does not ends the session with KEX_FAIL 9 |
| `S2Completion.WillingNodeCompletes` | src/orchestrator/SecurityS2BootstrapOrchestrator.cpp:142-534 | after any run that loaded the network keys, a node that plays its part is sent exactly the granted keys it asks for, in its order, and ends with the highest class it was granted |
| `SpanLockstep.PresenceRefines` | src/zwave-protocol/security/s2/SpanManager.cpp:70-169 | the runtime reduced to presence, which the handshake and the sender use, is an abstraction of the one with generators |
| `SpanLockstep.ExchangeEstablishes` | src/zwave-protocol/security/s2/SpanManager.cpp:70-169 | one delivered entropy report makes the next message decryptable and leaves both sides with the same SPAN |
| `SpanLockstep.LeadIsImbalance` | src/zwave-protocol/security/s2/SpanManager.cpp:87-169 | in every run from paired SPANs, how far one generator is ahead is the difference of the messages lost in the two directions |
| `SpanLockstep.UnderstoodIffLossesBalance` | src/zwave-protocol/security/s2/SpanManager.cpp:87-169 | after any run the next message is decryptable if and only if both directions lost equally many |
| `SpanLockstep.ResyncIsIgnored` | src/zwave-protocol/security/s2/SpanManager.cpp:79-112 | whatever the other end is: while the daemon holds a SPAN, reports asking for a resynchronisation change neither the nonce of its next frame nor make it carry an extension |
| `SpanLockstep.ResyncDoesNotRepair` | src/zwave-protocol/security/s2/SpanManager.cpp:79-112 | after a lost message of the controller no number of resynchronisation requests makes its next one decryptable to a peer with the same runtime |
| `S0Outbound.DecodeNonceReport` | src/zwave-protocol/security/s0/Security.cpp:25-36 | only a header and exactly eight bytes decode, to those bytes |
| `S0Outbound.RunKeepsInv` | src/orchestrator/SecurityOutboundOrchestrator.cpp:69-130 | in every run and for every node: nonce requests minus reports consumed is 1 if the node is busy and 0 otherwise, and what was accepted is what left the queue followed by what is in it |
| `S0Outbound.EffectBalances` | src/orchestrator/SecurityOutboundOrchestrator.cpp:75-130 | each event keeps payloads in order, loses none and asks for exactly the nonces needed |
| `S0Outbound.OneMessagePerNonce` | src/orchestrator/SecurityOutboundOrchestrator.cpp:88-130 | in every run each encryption directly follows the report whose nonce it uses, so no nonce serves two payloads |
| `S0Exchange.ExchangeIsExact` | src/orchestrator/SecurityOutboundOrchestrator.cpp:69-130 | in every run a nonce report of ten octets that meets a waiting payload while the key is loaded sends the oldest one under its nonce and asks again if more is waiting; any other nonce report drops everything that waits; a request asks for a nonce if and only if nothing waited; nothing else is sent |
| `S0Exchange.NothingIsLostBetweenDrops` | src/orchestrator/SecurityOutboundOrchestrator.cpp:69-130 | in every run what was sent since the last drop, followed by what waits, is what was requested since then, in order |
| `S0Outbound.Orchestrator.OnSecureSendRequest` | src/orchestrator/SecurityOutboundOrchestrator.cpp:75-86 | the payload is queued; the first one asks for a nonce |
| `S0Outbound.Orchestrator.OnApplicationCommand` | src/orchestrator/SecurityOutboundOrchestrator.cpp:88-130 | a report encrypts one payload and asks again if more wait; a bad report or a missing key drops the queue |
| `S2Outbound.RunKeepsInv` | src/orchestrator/SecurityS2OutboundOrchestrator.cpp:97-169 | in every run, whatever happens to the SPAN table: every accepted payload was sent at once or enqueued, what was enqueued is what left (sent or dropped) followed by the queue, and a busy node has exactly one NONCE_GET outstanding |
| `S2Outbound.ReportSettlesQueue` | src/orchestrator/SecurityS2OutboundOrchestrator.cpp:137-169 | a decodable report empties a waiting node's queue: all of it is sent if the report carries entropy or encryption was possible, else all of it is dropped, and conversely |
| `S2Outbound.EveryInputIsAnswered` | src/orchestrator/SecurityS2OutboundOrchestrator.cpp:97-169 | in every state, over the octets: which request is refused, sent at once or queued, which report sends or drops what waits, and which one changes nothing |
| `S2Outbound.RequestKeepsOrderIff` | src/orchestrator/SecurityS2OutboundOrchestrator.cpp:109-135 | a request keeps the order of acceptance if and only if it cannot be encrypted at once or equals everything that waits |
| `S2Outbound.OtherEventsKeepOrder` | src/orchestrator/SecurityS2OutboundOrchestrator.cpp:109-169 | no other event can break the order |
| `S2Outbound.AlwaysInOrderIff` | src/orchestrator/SecurityS2OutboundOrchestrator.cpp:109-169 | the order of acceptance holds throughout a run if and only if no request in it is encryptable while something different waits |
| `S2Outbound.FastPathOvertakes` | src/orchestrator/SecurityS2OutboundOrchestrator.cpp:119-128 | a run in which a later payload goes out ahead of an earlier one |
| `S2Outbound.Orchestrator.SendEncrypted` | src/orchestrator/SecurityS2OutboundOrchestrator.cpp:97-107 | sent exactly if a SPAN or the node's entropy is at hand |
| `S2Outbound.Orchestrator.OnSecureS2SendRequest` | src/orchestrator/SecurityS2OutboundOrchestrator.cpp:109-135 | refused, sent at once, or queued |
| `S2Outbound.Orchestrator.AwaitSpan` | src/orchestrator/SecurityS2OutboundOrchestrator.cpp:126-134 | the payload waits; the first one asks for a nonce |
| `S2Outbound.Orchestrator.OnApplicationCommand` | src/orchestrator/SecurityS2OutboundOrchestrator.cpp:137-169 | a report for a waiting node is accepted and the queue drained |
| `S2Outbound.Orchestrator.Drain` | src/orchestrator/SecurityS2OutboundOrchestrator.cpp:155-168 | the loop sends all or none, and the queue is gone either way |
| `S2Outbound.Orchestrator.SendFromFront` | src/orchestrator/SecurityS2OutboundOrchestrator.cpp:155-167 | the loop sends everything or nothing |
| `PendingQueue.OrderByIsStableSort` | src/pending-queue/PendingQueue.cpp:156-229 | ordering rows by priority and insertion is the stable sort by priority |
| `PendingQueue.BlockStaysTogether` | src/pending-queue/PendingQueue.cpp:156-197 | commands queued together with one priority leave together and in order, whatever else is queued |
| `PendingQueue.AddedPending` | src/pending-queue/PendingQueue.cpp:123-154 | a command goes last for its own key and changes no other |
| `PendingQueue.AddedIsAnnounced` | src/pending-queue/PendingQueue.cpp:123-154 | an accepted command gets an unused sequence number, which is announced with its priority; without a network it is dropped silently |
| `PendingQueue.DrainHandsOut` | src/pending-queue/PendingQueue.cpp:156-197 | a drain hands out every pending command that is not empty and nothing else; ordering loses none |
| `PendingQueue.ClearedPending` | src/pending-queue/PendingQueue.cpp:231-246 | clearing empties exactly one key |
| `PendingQueue.ReadPayloads` | src/pending-queue/PendingQueue.cpp:176-184 | the result loop of a drain collects the non-empty payloads in order |
| `PendingQueue.ReadItems` | src/pending-queue/PendingQueue.cpp:215-228 | the result loop of a peek collects priority and payload in order |
| `PendingQueue.Queue.Enqueue` | src/pending-queue/PendingQueue.cpp:123-154 | the command is pending last for its (home, node) and announced with its sequence number; every other key is unaffected; it is dropped without a database or a network |
| `PendingQueue.Queue.Drain` | src/pending-queue/PendingQueue.cpp:156-197 | returns the stable sort by priority of exactly what is pending for (home, node), removes it and affects no other key; the count is announced, 0 without a network |
| `PendingQueue.Queue.Peek` | src/pending-queue/PendingQueue.cpp:199-229 | the same order and the same payloads a drain would give, without removing |
| `PendingQueue.Queue.ClearForNode` | src/pending-queue/PendingQueue.cpp:231-246 | removes exactly what is pending for the node under the bound home |
| `PostInclusion.ScanSupported` | src/orchestrator/InclusionOrchestrator.cpp:65-88 | the three classes that gate the policy step, looked for only before the mark |
| `PostInclusion.Reactors.BeginInterview` | src/orchestrator/InterviewOrchestrator.cpp:141-160 | the first request goes out, or all of them are handed to the pending queue of a sleeping node |
| `PostInclusion.Reactors.InterviewNodeIncluded` | src/orchestrator/InterviewOrchestrator.cpp:191-222 | a new session replaces any old one and starts at once unless the node is to become secure |
| `PostInclusion.Reactors.MoveOn` | src/orchestrator/InterviewOrchestrator.cpp:163-189 | the awaited report moves the interview to its next step and asks for it, or completes the interview after the last |
| `PostInclusion.Reactors.Advance` | src/orchestrator/InterviewOrchestrator.cpp:163-189 | only the awaited report advances; the last one completes the interview and, within it, the policy step |
| `PostInclusion.Reactors.OnReport` | src/policy-register/PolicyRegister.cpp:571-585 | a report that identifies the device reaches the register, then the interview |
| `PostInclusion.Reactors.ApplyPolicy` | src/orchestrator/InclusionOrchestrator.cpp:247-256 | the loop applies the supported entries and counts them |
| `PostInclusion.Reactors.CompleteInterview` | src/orchestrator/InterviewOrchestrator.cpp:176-182 | the announcement runs the policy step before the session is closed |
| `PostInclusion.Reactors.OnNodeSecurityStatus` | src/orchestrator/InterviewOrchestrator.cpp:224-235 | a session that waited for security starts |
| `PostInclusion.Reactors.InclusionNodeIncluded` | src/orchestrator/InclusionOrchestrator.cpp:189-231 | the classes are cached and the lifeline set, or its absence reported |
| `PostInclusion.Reactors.ApplyPolicyEntry` | src/orchestrator/InclusionOrchestrator.cpp:129-187 | an entry is applied exactly if the node supports its class; a wake-up without a target reports to the controller |
| `PostInclusion.Reactors.OnNodeInterviewComplete` | src/orchestrator/InclusionOrchestrator.cpp:234-261 | the policy the register has in force is applied in order, counted, and the cached classes are forgotten |
| `PostInclusion.Reactors.OnNodeIncluded` | src/orchestrator/InterviewOrchestrator.cpp:191-222 | both reactors handle the inclusion, in either subscription order |
| `PostInclusion.Reactors.OnWakeUpNotification` | src/orchestrator/WakeUpOrchestrator.cpp:59-92 | the pending queue is drained under the bound network and goes out, then one NoMoreInformation and a matching count |
| `PostInclusion.Reactors.SendAll` | src/orchestrator/WakeUpOrchestrator.cpp:67-74 | the loop sends every payload in order |
| `PostInclusionRuns.AnsweredIsLongest` | src/orchestrator/InterviewOrchestrator.cpp:163-189 | the greedy matching of reports against steps finds the longest prefix of steps that is a subsequence of the reports |
| `PostInclusionRuns.InterviewIsExact` | src/orchestrator/InterviewOrchestrator.cpp:141-235 | in every run the requests since the last inclusion are exactly the steps in order up to the first unanswered one, and completion fired once if the steps are a subsequence of the reports and not at all otherwise |
| `PostInclusionRuns.PolicyStepFollowsInterview` | src/orchestrator/InclusionOrchestrator.cpp:189-261 | in every run each completion is followed at once by the policy step: the policy then in force, gated by the classes of the very inclusion whose interview completed |
| `PostInclusionRuns.PolicyIsOfReportedDevice` | src/orchestrator/InclusionOrchestrator.cpp:234-261 | in every run the node has been included and has told its identity since by the time its interview completes, and if a network stayed bound since the inclusion the policy applied is that device's default overlaid with the node's override |
| `PostInclusionRuns.RunKeepsInv` | src/orchestrator/InclusionOrchestrator.cpp:189-261 | every open session has a cached class set of the same inclusion, after every run |
| `InclusionSetup.PolicyStepIsExact` | src/orchestrator/InclusionOrchestrator.cpp:129-261 | in every run a completed interview is followed by one set command for each entry of the policy in force whose class (0x70, 0x85 or 0x84 by kind) the node announced before the first 0xEF, in the order of the policy and with the controller as default wake-up target, then their number and the end of the set-up |
| `InclusionSetup.CommandIff` | src/orchestrator/InclusionOrchestrator.cpp:129-187 | a set command is among them if and only if it is for an entry of the policy whose class the node answers |
| `InclusionSetup.HalfIsAnswered` | src/orchestrator/InclusionOrchestrator.cpp:65-92 | the scanned half holds a class if and only if it stands before the first mark |
| `InclusionSetup.StepsAreWanted` | src/orchestrator/InterviewOrchestrator.cpp:191-222 | an interview has the manufacturer and version steps, the endpoint step if and only if 0x60 is announced and the Z-Wave Plus step if and only if 0x5E is, each once and in that order |
| `InclusionSetup.RequestIsGet` | src/orchestrator/InterviewOrchestrator.cpp:80-94 | each step is asked with the Get command of its class |
| `InclusionSetup.InclusionIsExact` | src/orchestrator/InclusionOrchestrator.cpp:189-231 | in every run and for either order of the reactors, an inclusion is followed by exactly the lifeline and the first requests its classes call for |
| `InclusionSetup.WakeUpIsExact` | src/orchestrator/WakeUpOrchestrator.cpp:59-92 | in every state a wake-up sends everything pending that is not empty, most urgent first, then NoMoreInformation and the count, and leaves nothing pending |
| `PolicyHistory.InForceIsLast` | src/policy-register/PolicyRegister.cpp:316-512 | after every history the policy in force is the override last set and not deleted under the bound network, laid over the default last set for the device the node last said it is |
| `PolicyHistory.ReadBackIff` | src/policy-register/PolicyRegister.cpp:96-202 | what comes back from the store is what was stored if and only if its counts fit |
| `SleepingNodes.InterviewSelectedIff` | src/pending-queue/PendingQueue.cpp:123-197 | a wake-up selects all queued requests of a sleeping node's interview, secure or not, if and only if a network was bound when they were queued, it is bound at the wake-up, and no wake-up or clearing of that node happened under it in between; otherwise none |
| `SleepingNodes.SleepingInterviewGoesOutInOrder` | src/orchestrator/WakeUpOrchestrator.cpp:59-92 | under that condition the requests go out together and in step order, whatever else was queued before or meanwhile, then one NoMoreInformation and the matching count |
| `SleepingNodes.InterviewWithoutHomeIsLost` | src/pending-queue/PendingQueue.cpp:128-133 | included before a network is bound, a sleeping node's interview is not stored and a later wake-up finds nothing |
| `SleepingNodes.KeyOnlyGrows` | src/pending-queue/PendingQueue.cpp:123-246 | what is pending under a key only grows at its end unless that key is emptied |
| `SleepingNodes.GoneStaysGone` | src/pending-queue/PendingQueue.cpp:123-246 | a row that was removed never comes back |
| `NodeRegistry.ListingIsTheMap` | src/node-registry/NodeRegistry.cpp:498-511 | the announced list holds exactly the map's nodes, each once, ascending, with their summaries |
| `NodeRegistry.LoadedIff` | src/node-registry/NodeRegistry.cpp:340-387 | what is loaded for a home is characterised row by row |
| `NodeRegistry.RunKeepsSummaries` | src/node-registry/NodeRegistry.cpp:542-649 | in every run over any table: the map has exactly the bound home's nodes with the row's class and command classes, and the last NodeListChanged is the map's projection |
| `NodeRegistry.RunStaysInSync` | src/node-registry/NodeRegistry.cpp:462-834 | after every run whose adds are faithful the map equals what loading would give |
| `NodeRegistry.AddKeepsSyncIff` | src/node-registry/NodeRegistry.cpp:566-575 | an add keeps map and table equal if and only if it brings the columns the row has or will be created with |
| `NodeRegistry.AlwaysInSyncIff` | src/node-registry/NodeRegistry.cpp:462-834 | map and table are equal throughout a run if and only if every add in it is faithful when it happens |
| `NodeRegistry.AddingAgainDiverges` | src/node-registry/NodeRegistry.cpp:566-575 | adding a securely included node again with fresh columns makes map and table differ |
| `NodeRegistry.SecondInclusionDiverges` | src/node-registry/NodeRegistry.cpp:88-95 | a concrete run that ends with map and table different |
| `NodeRegistry.AwayKeepsRows` | src/node-registry/NodeRegistry.cpp:542-649 | while a home is not bound, no operation changes its rows |
| `NodeRegistry.AwayAndBack` | src/node-registry/NodeRegistry.cpp:542-564 | switching away, working elsewhere at any length and coming back restores the map exactly |
| `NodeHistory.TableIsHistory` | src/node-registry/NodeRegistry.cpp:462-834 | in every run, every column of every row of every network says what the operations that reached it say, read one by one |
| `NodeHistory.MapIsHistory` | src/node-registry/NodeRegistry.cpp:542-834 | the same of what the registry remembers, with the reload at a change of network |
| `NodeHistory.PresentIff` | src/node-registry/NodeRegistry.cpp:566-603 | in every run a network holds a node if and only if it had it or it was added or seeded while the network was bound, and it was not removed since |
| `NodeHistory.AnnouncedIff` | src/node-registry/NodeRegistry.cpp:498-539 | the list announced last holds exactly the nodes present in the bound network |
| `NodeHistory.AnnouncesOnce` | src/node-registry/NodeRegistry.cpp:542-834 | every change of network, nodes or summaries is announced once, and the other setters announce nothing |
| `NodeRegistry.Registry.LoadNodes` | src/node-registry/NodeRegistry.cpp:340-387 | the loop over rows |
| `NodeRegistry.Registry.PublishSnapshot` | src/node-registry/NodeRegistry.cpp:498-539 | the list is built from the map and published |
| `NodeRegistry.Registry.PersistAdd` | src/node-registry/NodeRegistry.cpp:462-480 | the upsert writes four columns and keeps the others, or creates the row with defaults |
| `NodeRegistry.Registry.SetHomeId` | src/node-registry/NodeRegistry.cpp:542-564 | a new home reloads the map and announces it; the same home does nothing |
| `NodeRegistry.Registry.Add` | src/node-registry/NodeRegistry.cpp:566-575 | the map entry is replaced whole, the row upserted, the list announced |
| `NodeRegistry.Registry.Remove` | src/node-registry/NodeRegistry.cpp:577-586 | the node leaves map and table |
| `NodeRegistry.Registry.Seed` | src/node-registry/NodeRegistry.cpp:588-603 | an unknown node appears with defaults; a known one is left alone |
| `NodeRegistry.Registry.UpdateCommandClasses` | src/node-registry/NodeRegistry.cpp:605-621 | a known node's command classes change in both places |
| `NodeRegistry.Registry.UpdateDeviceClass` | src/node-registry/NodeRegistry.cpp:624-649 | a known node's device class changes in both places |
| `NodeRegistry.Registry.SetSecurityScheme` | src/node-registry/NodeRegistry.cpp:664-690 | a known node's scheme changes in both places, without an announcement |
| `NodeRegistry.Registry.SetDeviceIdentity` | src/node-registry/NodeRegistry.cpp:692-723 | likewise the identity |
| `NodeRegistry.Registry.SetVersionInfo` | src/node-registry/NodeRegistry.cpp:725-762 | likewise the version columns |
| `NodeRegistry.Registry.SetEndpointInfo` | src/node-registry/NodeRegistry.cpp:764-795 | likewise the endpoint columns |
| `NodeRegistry.Registry.SetZWavePlusInfo` | src/node-registry/NodeRegistry.cpp:797-834 | likewise the Z-Wave Plus columns |
| `Thermostat.SignatureInjective` | src/orchestrator/ThermostatOrchestrator.cpp:224-231 | two aggregates have the same ':'-joined decimal signature only if they are equal |
| `Thermostat.InsertOrdered` | src/orchestrator/ThermostatOrchestrator.cpp:255-258 | the set of known groups stays ordered and gains exactly the inserted group |
| `Thermostat.Orchestrator.AggregateByte` | src/orchestrator/ThermostatOrchestrator.cpp:120-150 | 0 if no member reported, the value if all that did agree, else the mixed marker |
| `Thermostat.Orchestrator.AggregateOperatingState` | src/orchestrator/ThermostatOrchestrator.cpp:154-179 | heating if any member heats, else cooling if any cools, else idle |
| `Thermostat.Orchestrator.AggregateSetpoint` | src/orchestrator/ThermostatOrchestrator.cpp:182-201 | the setpoint with the highest sequence number |
| `Thermostat.Orchestrator.PublishGroupState` | src/orchestrator/ThermostatOrchestrator.cpp:204-238 | the aggregate is published and its signature remembered, unless the signature is the last one |
| `Thermostat.Orchestrator.RefreshGroupsForNode` | src/orchestrator/ThermostatOrchestrator.cpp:241-251 | every known group of the node is refreshed, in group order |
| `Thermostat.Orchestrator.OnGroupCommand` | src/orchestrator/ThermostatOrchestrator.cpp:255-258 | a commanded group becomes known |
| `Thermostat.Orchestrator.OnModeReport` | src/orchestrator/ThermostatOrchestrator.cpp:303-307 | the mode is cached, then the groups refreshed |
| `Thermostat.Orchestrator.OnOperatingStateReport` | src/orchestrator/ThermostatOrchestrator.cpp:309-313 | likewise the operating state |
| `Thermostat.Orchestrator.OnFanModeReport` | src/orchestrator/ThermostatOrchestrator.cpp:315-319 | likewise the fan mode |
| `Thermostat.Orchestrator.OnSetpointReport` | src/orchestrator/ThermostatOrchestrator.cpp:321-328 | the setpoint is cached with the next sequence number, then the groups refreshed |
| `ThermostatRuns.BestIsLatest` | src/orchestrator/ThermostatOrchestrator.cpp:182-201 | the setpoint with the highest sequence number is the last one any member reported |
| `ThermostatRuns.AggregateAgrees` | src/orchestrator/ThermostatOrchestrator.cpp:120-222 | aggregates of the cache equal aggregates of the whole report history |
| `ThermostatRuns.ReferenceIgnoresOrder` | src/orchestrator/ThermostatOrchestrator.cpp:120-201 | the aggregate does not depend on the order of the members |
| `ThermostatRuns.PublishesReferenceChanges` | src/orchestrator/ThermostatOrchestrator.cpp:204-251 | in every run the whole sequence published for a group is the sequence of its history aggregates at the reports that concern it, without immediate repetitions |
| `ThermostatRuns.LastPublishedIsCurrent` | src/orchestrator/ThermostatOrchestrator.cpp:204-251 | at every moment of every run the last published state is the aggregate of the whole history |
| `ThermostatRuns.PublishIffChanged` | src/orchestrator/ThermostatOrchestrator.cpp:224-238 | a concerning report publishes if and only if it is the first or moved the aggregate |
| `ThermostatRuns.GroupActivityIs` | src/orchestrator/ThermostatOrchestrator.cpp:154-179 | over the whole history: 1 if some member's last operating state is 1, else 2 if some member's is 2, else 0 |
| `ThermostatRuns.GroupAgreementIs` | src/orchestrator/ThermostatOrchestrator.cpp:120-150 | over the whole history: 0 if no member reported the field, v if every last report is v, 0xFF otherwise |
| `ThermostatRuns.PublishedInOrder` | src/orchestrator/ThermostatOrchestrator.cpp:241-251 | in every run the groups that one report publishes come in dictionary order of key and value |
| `Recorder.ScaleFits` | src/node-values/Recorder.cpp:35-39 | the scale fits a signed 64-bit integer if and only if the precision is at most 18 |
| `Recorder.RenderScaled` | src/node-values/Recorder.cpp:27-44 | fails exactly by overflow above precision 18, else returns the rendering |
| `Recorder.RenderedReadsBack` | src/node-values/Recorder.cpp:27-44 | reading the text as a decimal number gives raw / 10^precision |
| `Recorder.RenderedHasPrecisionDigits` | src/node-values/Recorder.cpp:40-43 | exactly `precision` digits follow the point |
| `Recorder.RenderedIsInjective` | src/node-values/Recorder.cpp:27-44 | the text determines raw value and precision |
| `Decimal.ToStringInjective` | src/orchestrator/ThermostatOrchestrator.cpp:226-229 | printing integers is injective |
| `Logger.RunKeepsFlow` | src/logger/Logger.cpp:251-397 | in every interleaving of level tests, appends, level changes, stop and consumer: emitted, then the rest of the batch, then the queue, is what passed its level test, in the order of the appends |
| `Logger.ExitEmitsEverything` | src/logger/Logger.cpp:373-397 | the consumer leaves only after a stop, and then everything accepted has been emitted |
| `Logger.StoppedConsumerLeaves` | src/logger/Logger.cpp:361-397 | after a stop without further pushes it leaves in exactly one step per entry, one per batch of 64 and one more, with everything emitted |
| `Logger.ConsumerProgresses` | src/logger/Logger.cpp:373-397 | whenever there is work or a stop, each consumer step brings the exit exactly one step nearer |
| `Logger.LoggerState.AdmitEntry` | src/logger/Logger.cpp:251-260 | the level test, without the lock: a message below the level goes no further |
| `Logger.LoggerState.AppendEntry` | src/logger/Logger.cpp:261-265 | the append under the lock |
| `Logger.LoggerState.TakeBatch` | src/logger/Logger.cpp:374-391 | the critical section moves up to 64 entries in order, or leaves when stopped with nothing to do |
| `Logger.LoggerState.EmitEntry` | src/logger/Logger.cpp:392-396 | one entry is emitted; after the last the batch is cleared |
| `Logger.LoggerState.DrainUntilExit` | src/logger/Logger.cpp:361-397 | from a stop on the loop terminates with everything emitted |
| `Capture.CaptureReaderLoop` | src/logger/Logger.cpp:278-314 | the lines logged are the non-empty newline-separated pieces of the whole input, however it is cut into reads, interruptions included |
| `Capture.ExtractLines` | src/logger/Logger.cpp:288-297 | every complete line is taken off the buffer, in order, and nothing else |
| `Capture.JoinUndoesSplit` | src/logger/Logger.cpp:278-314 | joining the pieces with newlines gives the text back, and no piece holds a newline |
| `Capture.SplitUndoesJoin` | src/logger/Logger.cpp:278-314 | the pieces are the only such decomposition |
| `Capture.InputIsRead` | src/logger/Logger.cpp:278-314 | the input is everything read before end of file or a failure, with interruptions passed over |
| `Capture.NonEmptyKeeps` | src/logger/Logger.cpp:278-314 | only empty pieces are left out |
| `SpanStore.CheckpointRefinesSaveAll` | src/span-store/SpanStoreService.cpp:96-117 | writing only what changed leaves the same rows as writing everything |
| `SpanStore.CheckpointStoresLive` | src/span-store/SpanStoreService.cpp:96-117 | after a checkpoint the bound home's rows are exactly the live SPANs |
| `SpanStore.NothingWrittenIff` | src/span-store/SpanStoreService.cpp:104-116 | a checkpoint writes nothing if and only if no live SPAN differs from what was last written |
| `SpanStore.RunKeepsInv` | src/span-store/SpanStoreService.cpp:96-160 | in every run what was last written is what the table holds for the bound home |
| `SpanStore.RestartIsLossless` | src/span-store/SpanStoreService.cpp:142-160 | in every run checkpoint, restart and restore bring back exactly the live SPANs |
| `SpanStore.CheckpointKeepsOtherHomes` | src/span-store/SpanStore.cpp:90-108 | a checkpoint changes no other network's rows |
| `SpanStore.LoadedIff` | src/span-store/SpanStore.cpp:126-154 | what is loaded is exactly the bound home's rows of the right size |
| `SpanStore.BindKeepsLiveIff` | src/span-store/SpanStoreService.cpp:142-160 | binding leaves the live SPANs alone if and only if every stored one equals the live one |
| `SpanStore.RebindRewinds` | src/span-store/SpanStoreService.cpp:142-160 | a run in which binding the same network again takes a SPAN back |
| `SpanStore.BindAndCheckpointIff` | src/span-store/SpanStoreService.cpp:96-160 | after binding and checkpointing the network holds its rows and every other live SPAN; nothing is added if and only if there was none |
| `SpanStore.SwitchCarriesSpans` | src/span-store/SpanStoreService.cpp:96-160 | a run in which the SPAN of one network is stored under another |
| `SpanStore.Service.Load` | src/span-store/SpanStore.cpp:126-154 | the loop collects the well-formed rows of the bound home |
| `SpanStore.Service.WriteCheckpoint` | src/span-store/SpanStoreService.cpp:96-117 | the loop performs the checkpoint and counts the rows written |
| `SpanStore.Service.BindAndRestore` | src/span-store/SpanStoreService.cpp:142-160 | stored SPANs are imported and count as written |

## Left out

- Cryptography (AES, CMAC, CCM, Curve25519, key derivation): what decryption and key agreement yield is part of the event; distinct positions of a SPAN generator are taken to give distinct nonces.
- The contents of encrypted frames and sequence numbers: outputs name the message or payload, not its bytes. Decryption of an encapsulation too short to hold a sequence number is taken to fail, and the cipher's answer counts only if it is as long as the frame's ciphertext.
- SQL text, schema migration and failing writes: every write of a bound, open database is taken to succeed; tables are maps or row sequences, and binding an empty payload as NULL is taken as an empty blob. Sequence numbers are unbounded in the queue and truncated to 32 bits only where they are announced.
- Home ids are compared as given; their hexadecimal formatting is not modelled.
- Wall-clock time and backoff sleeps: a wait is a finite sequence of reads that ends in a timeout, and what a flush before a retry discards is part of the script.
- A frame transport without an incoming handler, and a handler that sends from within its own dispatch.
- MessageBus internals and retained messages: a published message is handled at once, depth first; only the order of the two inclusion subscribers is left open.
- The DongleInfo identity (home id, controller id) used as encryption context; in the inclusion reactor it is modelled, since the lifeline and the wake-up target need it.
- Security 0 inclusion, inbound decryption reactors, multicast, transport segmentation and the S2 key store.
- Sending the per-node commands of a logical thermostat command: it adds only a filter over the members. Group membership is fixed during a run, and the 64-bit setpoint counter does not wrap.
- Deleting and listing device policies, terminal prompts and log output of the policy editor: they would add only easy members.
- Removing a SPAN from the store: the daemon never does.
- SpanLockstep.ExchangeEstablishes: assumes that the node at the other end runs the same runtime as the daemon.
- SpanLockstep.LeadIsImbalance: assumes that the node at the other end runs the same runtime as the daemon.
- SpanLockstep.UnderstoodIffLossesBalance: assumes that the node at the other end runs the same runtime as the daemon.
- SpanLockstep.ResyncDoesNotRepair: assumes that the node at the other end runs the same runtime as the daemon; `SpanLockstep.ResyncIsIgnored` makes no such assumption.
- FrameParser.DeliveryIsExact: speaks of the parser's events only; `FrameDelivery.ReceptionIsExact` adds the ACK and the dispatch.
- Logger sinks, timestamps, syslog levels and the redirection of file descriptors; the captured streams are modelled from the bytes read on.
- HostApi encoders, SceneStore, metadata and value stores, D-Bus, the terminal user interface, device monitoring, configuration and the code generator.
- The interview looks for optional classes in the whole node information, the policy step only before the mark; both are modelled as they are.
