# Model of a WPA supplicant

A verified Dafny model of the `wsupp` service: a Wi-Fi client that talks netlink to the
card, runs the WPA handshake itself, keeps pre-shared keys in a text file, and answers a
control tool over a local socket. The model covers its five demanding parts and proves
what each is for.

* **Cryptography** (`Bytes`, `AesTables`, `Gf256`, `Aes`, `Aes128`, `KeyWrap`,
  `KeyWrapBuffer`, `Sha1Spec`, `Sha1Context`, `HmacBuffers`, `WsuppCrypto`). AES-128 over
  bit vectors with its tables and its field arithmetic; RFC 3394 key wrap, first for any
  pair of inverse block functions and then for AES; SHA-1 with the padding the code threads
  by hand; HMAC, PBKDF2 and the 802.11 PRF. The classes and methods work on arrays as the
  code does and are proved against specification functions; the inverses and the
  incremental-hash laws are proved about those functions.
* **EAPOL** (`EapolFrame`, `Kde`, `EapolSpec`, `EapolMachine`, `Handshake`,
  `HandshakeRuns`). The supplicant's half of the 4-way handshake and of group rekeying as a
  step function; a class with the program's variables and its shared packet buffer that
  refines it; an honest authenticator beside it; and properties of whole runs.
* **The station** (`Scan`, `StaIes`, `ScanTable`, `ScanSlots`, `ApSelect`, `StationSpec`,
  `StationMachine`, `StationRuns`, `StationPicks`, `StationDescents`, `StationTable`,
  `StationScans`, `StationStops`, `StationWaits`, `StationSetup`, `StationExamples`,
  `StationSessions`, `Composition`, `JointRuns`). The connection machine, the scan machine,
  the slot table and AP selection under arbitrary events of the card, the EAPOL code, the
  timer, rfkill, signals and users.
  `StationSpec.Step` says what each event does; `StationMachine.Station` does it in place,
  on the slot array, the PSK buffer and the text of the PSK file; the other modules prove
  what holds over every run, and `StationExamples` gives runs from the start in which the
  station does less than expected. `Composition` and `JointRuns` tie the station to the EAPOL
  machine: the order of the calls, and the AP and PSK the keys are derived from.
* **The PSK file** (`PskText`, `PskMap`, `PskEffects`, `PskFile`). The text buffer and its
  memmove edits, the escaping and tokenising, the finite map from names to keys that all of
  it stands for, and the exact effect of every edit on what every SSID loads.
* **Wire formats** (`UcFormat`, `UcMessage`, `UcBuffer`, `UcStatus`, `UcRecv`, `UcConn`,
  `NlAttr`, `NlPack`, `NlCommands`). The control protocol's writer, reader, status reply and
  stream reassembly, and netlink's attribute validator, walk and writer with three real
  commands.

Modules named after a data structure or a protocol hold specifications and the theorems
about them; classes hold the imperative code, field by field. `Octets`, `Bytes`, `Seqs` and
`Wrappers` are shared helpers. Integers are unbounded except where the width matters: words
of the hash and cipher are bit vectors, and length fields and the `skip` of
the netlink validator are cut to their width explicitly.

Places where the code does less than one might expect are stated as they are, each with its
exact condition:

* SSIDs whose escaped name does not fit the 100-byte buffer are saved under a name that is
  not theirs, so their PSK is not found again (`PskEffects.SaveThenLoad`,
  `PskEffects.LongSsidIsLost`); it may answer for another SSID, also for one that has a PSK
  of its own (`PskEffects.SaveEffect`, `PskEffects.LongSsidAnswersForAnother`), and leave two
  lines of one name (`PskEffects.SaveKeepsUnique`, `PskEffects.TwoSavesTwoLines`).
* The five-step `xmul` is the field product only for small second operands, which is all the
  cipher uses (`Gf256.Xmul`).
* The answer to a group rekey fails the supplicant's own length check
  (`Handshake.GroupPacket2IsMissized`).
* A reset of the EAPOL code zeroes the keys and keeps the phase, so until the next priming
  frames made under zero keys count (`HandshakeRuns.UploadsByExpectedKeys`,
  `HandshakeRuns.ZeroKeysAreTaken`).
* A station that gives up a fixed SSID half-way goes on with every SSID it has a PSK for, so
  that a selection may rank above the one before it (`StationDescents.QuietKeepsSsid`,
  `StationDescents.SelectionsDescend`, `StationExamples.RanksRise`).
* A user's disconnect does not stop a scan that was started to reconnect, so the station
  connects again when that scan ends (`StationStops.NeutralOpens`,
  `StationExamples.NeutralReconnects`), where the manual page `wifi.1` only speaks of
  disconnecting.
* A shutdown whose disconnect command is answered with an error does not end but may connect
  again (`StationStops.RefusedDisconnectOpens`, `StationExamples.ExitReconnects`), and other
  events make the station forget it (`StationStops.ShutdownFate`).
* A scan that is broken off leaves its stale marks, and the next sweep then drops slots on
  frequencies that were not scanned (`StationScans.MarksLeft`, `StationScans.SweepLeaves`,
  `StationExamples.BrokenScanCosts`).
* A station that wants a connection can be left idle with neither a scan nor a timer, and
  then waits for the user for ever (`StationWaits.StuckExactly`): after a disconnect
  notification in one-shot mode, when the card aborts the scan for a lost AP, and when rfkill
  ends a connection (`StationExamples.LossIsFinal`, `StationExamples.AbortedRescanIsFinal`,
  `StationExamples.RfkillIsFinal`). The comment on `handle_rfrestored` expects a new scan in
  the last case; the code returns early, because the state is idle and not down.
* The beginning of a control message that arrives behind the end of another one is lost if
  the socket then runs dry (`UcConn.AllDispatchedIff`, `UcConn.PartBehindIsLost`); a part
  that arrives by itself is waited for (`UcConn.OneAtATimeIsWhole`).

`dafny verify dfyconfig.toml` checks the whole project.

## Model

| member | source | states |
|---|---|---|
| Gf256.Xmul | crypto/aes128.c:84-95 | the five-step product is the GF(2^8) product of section 4.2 of FIPS 197 exactly when x is 0 or y has no bit above the fifth |
| Gf256.InverseAfterForward | crypto/aes128.c:156-176 | the inverse column matrix undoes the forward one on every column |
| Gf256.ForwardAfterInverse | crypto/aes128.c:156-176 | the forward column matrix undoes the inverse one on every column |
| AesTables.TablesAreInverse | crypto/aes128.c:16-52 | rbox and sbox are inverse permutations of the 256 bytes |
| Aes.ShiftRowsMovesRows | crypto/aes128.c:107-134 | row r of the shifted state is row r moved left by r columns (section 5.1.2 of FIPS 197) |
| Aes.CipherInverse | crypto/aes128.c:228-270 | over any key schedule the two opposite round loops undo each other, in both orders |
| Aes.DecryptEncrypt | crypto/aes128.c:183-270 | on 16-byte blocks decryption after encryption, and encryption after decryption, give the block back |
| Aes.RconIsPower | crypto/aes128.c:56-58 | the round constants are the powers of x in the field, starting from 1 |
| Aes128Context.ColMul | crypto/aes128.c:136-142 | the four xmul products of a column and a matrix row add up to the row-column product of the field |
| Aes128Context.Aes128.Init | crypto/aes128.c:207-226 | W holds the expanded key of section 5.2 of FIPS 197 for the sixteen key bytes |
| Aes128Context.Aes128.AddKey | crypto/aes128.c:97-101 | the four state words are xored with the four schedule words of the round |
| Aes128Context.Aes128.SubBytesInPlace | crypto/aes128.c:150-154 | the state array becomes the substituted state |
| Aes128Context.Aes128.InvSubBytesInPlace | crypto/aes128.c:144-148 | the state array becomes the inversely substituted state |
| Aes128Context.Aes128.ShiftRowsInPlace | crypto/aes128.c:124-134 | the state array becomes the row-shifted state |
| Aes128Context.Aes128.InvShiftRowsInPlace | crypto/aes128.c:112-122 | the state array becomes the inversely row-shifted state |
| Aes128Context.Aes128.MixColumnsInPlace | crypto/aes128.c:167-176 | the state array becomes the column-mixed state |
| Aes128Context.Aes128.InvMixColumnsInPlace | crypto/aes128.c:156-165 | the state array becomes the inversely mixed state |
| Aes128Context.Aes128.EncryptInPlace | crypto/aes128.c:250-270 | the block buffer ends as the encryption of its old contents under the schedule; the schedule is kept |
| Aes128Context.Aes128.DecryptInPlace | crypto/aes128.c:228-248 | the block buffer ends as the decryption of its old contents under the schedule; the schedule is kept |
| KeyWrap.WrapInverse | crypto/aes128_wrap.c:27-38 | for any pair of inverse block functions, wrapping and unwrapping registers undo each other, for any number of registers |
| KeyWrap.WrapUnwrapInverse | crypto/aes128_unwrap.c:16-41 | under every key, on buffers of every length, aes128_wrap and aes128_unwrap undo each other (section 2.2 of RFC 3394) |
| KeyWrapBuffer.WrapInPlace | crypto/aes128_wrap.c:16-41 | the nested loops leave in the buffer the wrap of what it held, and nothing outside it changes |
| KeyWrapBuffer.UnwrapInPlace | crypto/aes128_unwrap.c:16-41 | the nested loops leave in the buffer the unwrap of what it held, and nothing outside it changes |
| KeyWrapBuffer.UnwrapKey | wsupp_crypto.c:118-126 | success exactly when the length is a multiple of 8, at least 16, and unwrapping yields the A6 check block; the buffer then holds the unwrapped bytes |
| KeyWrapBuffer.UnwrapAccepts | wsupp_crypto.c:118-126 | the check block appears exactly when the input was the wrap of that block followed by the plain text left behind |
| Sha1Spec.PaddedSize | crypto/sha1.c:134-187 | the padding of section 4 of RFC 3174 always completes a block |
| Sha1Spec.AbsorbConcat | crypto/sha1.c:196-200 | absorbing is incremental at block boundaries |
| Sha1Spec.PadThenRest | crypto/sha1_hmac.c:12-24 | hashing a 64-byte pad and then the rest padded for total = inlen + 64 is the one-shot hash of the concatenation |
| Sha1Context.LastBlocksArePadding | crypto/sha1.c:154-187 | the last one or two blocks are the tail followed by the padding of the total size |
| Sha1Context.LastBlocksSplit | crypto/sha1.c:202-215 | up to 55 tail bytes the last block is the pad1 block, beyond it is the pad2 block and the pad0 block |
| Sha1Context.Context.Init | crypto/sha1.c:61-70 | H holds the initial value of section 6.1 of RFC 3174 |
| Sha1Context.Context.Load | crypto/sha1.c:122-132 | W is the message schedule of the 64 bytes |
| Sha1Context.Context.HashBlock | crypto/sha1.c:76-112 | H becomes the compression of the old H and the loaded block |
| Sha1Context.Context.Fini | crypto/sha1.c:114-120 | writes the big-endian digest of H, twenty bytes and no more |
| Sha1Context.Context.Last | crypto/sha1.c:202-215 | absorbs the tail and the padding through whichever of the two ways applies |
| Sha1Context.Context.HashRest | crypto/sha1_hmac.c:12-24 | absorbs the data and the padding for the total size |
| HmacBuffers.HashInto | crypto/sha1_hash.c:3-20 | writes SHA-1 of the input and nothing else |
| HmacBuffers.HmacInto | crypto/sha1_hmac.c:26-55 | writes HMAC-SHA1 of section 2 of RFC 2104 under the key bytes the code uses, also when output and input share a buffer |
| HmacBuffers.F1 | crypto/pbkdf2_sha1.c:20-35 | U becomes U_1 for the block index |
| HmacBuffers.Fc | crypto/pbkdf2_sha1.c:37-41 | U becomes the next U, although it is both input and output of the HMAC |
| HmacBuffers.F | crypto/pbkdf2_sha1.c:49-60 | twenty bytes become the xor of U_1 to U_c |
| HmacBuffers.Pbkdf2Into | crypto/pbkdf2_sha1.c:62-80 | writes exactly the first len bytes of T_1, T_2, ... of section 5.2 of RFC 2898, for every len, and nothing past them |
| WsuppCrypto.Prf480Into | wsupp_crypto.c:52-73 | the sixty bytes are PRF-480 of section 11.6.1.2 of IEEE 802.11-2012 |
| WsuppCrypto.MakeMic | wsupp_crypto.c:81-90 | the MIC field gets the first sixteen bytes of the HMAC over the whole frame; the rest of the buffer stays |
| WsuppCrypto.CheckMic | wsupp_crypto.c:92-107 | true exactly when the field holds the MIC of the frame with a zero field; the field is left zero and nothing else changes |
| WsuppCrypto.CompareBytes | wsupp_crypto.c:16-26 | zero exactly on equal contents |
| EapolFrame.SignedVerifies | wsupp_crypto.c:81-107 | a frame signed by make_mic passes check_mic under the same key |
| EapolFrame.EncodeFields | wsupp_eapol.h:32-47 | every field written into a key frame reads back |
| EapolFrame.EncodeIsWellFormed | wsupp_eapol.c:555-582 | a frame with consistent length fields passes the length checks of handle_rawsock |
| Kde.FetchGtk | wsupp_eapol.c:206-240 | the search never leaves the payload and returns the group key element the specification search settles on |
| Kde.FindInList | wsupp_eapol.c:206-240 | behind any elements that are no group key, and whatever follows, the group key element's index and key are found |
| EapolMachine.Supplicant.PrimeState | wsupp_eapol.c:300-304 | refines the Prime step |
| EapolMachine.Supplicant.AllowSends | wsupp_eapol.c:306-312 | refines the Allow step: sends packet 2/4 exactly when one was waiting |
| EapolMachine.Supplicant.ResetState | wsupp_eapol.c:272-285 | refines the Reset step; the phase and the replay counter stay |
| EapolMachine.Supplicant.PmkToPtk | wsupp_eapol.c:140-173 | KCK, KEK and PTK become the three slices of PRF-480 over the PSK and the ordered addresses and nonces |
| EapolMachine.Supplicant.ReceivePacket1 | wsupp_eapol.c:352-372 | refines the step of a packet 1/4: nonces, keys, and either an answer or a wait for ASSOCIATE |
| EapolMachine.Supplicant.SendPacket2 | wsupp_eapol.c:382-412 | the frame sent is packet 2/4 as specified, whatever the shared buffer held before |
| EapolMachine.Supplicant.ReceivePacket3 | wsupp_eapol.c:414-443 | refines the step of a packet 3/4: ignored, aborted, or keys taken |
| EapolMachine.Supplicant.SendPacket4 | wsupp_eapol.c:445-478 | the frame sent is packet 4/4 as specified; on success the keys are uploaded and wiped |
| EapolMachine.Supplicant.StoreGtk | wsupp_eapol.c:184-204 | the group key is stored, with the two TKIP MIC keys swapped |
| EapolMachine.Supplicant.ReceiveGroup1 | wsupp_eapol.c:488-514 | refines the step of a group rekey frame |
| EapolMachine.Supplicant.SendGroup2 | wsupp_eapol.c:516-543 | the answer is the frame specified, with the length field the code gives it |
| EapolMachine.Supplicant.HandleRawsock | wsupp_eapol.c:545-582 | refines the Receive step for every datagram that fits the packet buffer: state, frames sent, uploads and aborts |
| Handshake.RolesAgree | wsupp_eapol.c:140-173 | both stations derive the same keys from their own side (section 11.6.1.3 of IEEE 802.11-2012) |
| Handshake.Packet2IsSound | wsupp_eapol.c:382-412 | packet 2/4 passes the length checks and the MIC check and carries the replay counter, nonce and elements it should |
| Handshake.Packet4IsSound | wsupp_eapol.c:445-478 | packet 4/4 passes the length checks and the MIC check and carries the replay counter |
| Handshake.GroupPacket2IsMissized | wsupp_eapol.c:516-543 | the answer to a group rekey has a valid MIC but a length field four too large, so it fails the length checks |
| Handshake.HonestMessage3IsTaken | wsupp_eapol.c:414-478 | any well-formed message 3 of an authenticator with the keys from its own side is accepted, answered, and exactly its group key and index are installed |
| Handshake.Message3IsTaken | wsupp_eapol.c:414-478 | the same for any message 3 made with the keys held, whatever they are |
| Handshake.Message3Fits | wsupp_eapol.c:555-582 | such a message fits the packet buffer |
| HandshakeRuns.Packet1Early | wsupp_eapol.c:287-312 | packet 1/4 first, ASSOCIATE later, any frames in between: one packet 2/4 and WAITING_3_4 |
| HandshakeRuns.Packet1Late | wsupp_eapol.c:287-312 | ASSOCIATE first, packet 1/4 later, ignored frames in between: one packet 2/4 and WAITING_3_4 |
| HandshakeRuns.EitherOrder | wsupp_eapol.c:287-372 | both orders send the same bytes, which pass the frame checks, and end in the same state but for the flag that sending is allowed |
| HandshakeRuns.HandshakeCompletes | wsupp_eapol.c:352-478 | from there any good message 3 under a higher counter ends in NEGOTIATED with the keys uploaded |
| HandshakeRuns.LessIsNumeric | wsupp_eapol.c:427-428 | memcmp on counters of one size is the order of the big-endian numbers |
| HandshakeRuns.KeysAndCountersInEveryRun | wsupp_eapol.c:272-513 | in every run from the start, with primings and resets anywhere, the keys held past packet 1/4 are the slices of PRF-480 over what the last packet 1/4 brought, or all zero if a reset came in since; replay counters accepted since that packet strictly increase |
| HandshakeRuns.KeysAndCountersOncePrimed | wsupp_eapol.c:300-513 | the same from any state at all, once primed |
| HandshakeRuns.UploadsAreEarned | wsupp_eapol.c:414-543 | keys reach the card only in a step whose frame has a fresh counter, a valid MIC under the KCK held and key data that are a wrap under the KEK held |
| HandshakeRuns.UploadsByExpectedKeys | wsupp_eapol.c:272-543 | in every run keys reach the card by frames made under the keys derived from the PSK if a packet 1/4 was taken since the last priming or reset, and by frames made under zero keys otherwise; the pairwise key uploaded is the one of that set |
| HandshakeRuns.ZeroKeysAreTaken | wsupp_eapol.c:272-285 | the second case does occur: after a reset between packets 2/4 and 3/4 a message 3 made with zero keys is taken, and a pairwise key of zeros uploaded |
| Composition.EveryHandshakeIsOrderly | wsupp_netlink.c:339-426 | in every run of the station, with any frames in between, EAPOL sends are allowed at most once for each priming and not after a reset, so the run properties of the handshake hold from the start on |
| StationSessions.SessionStep | wsupp_netlink.c:356-426 | after any event, a station that is associating, connecting or connected was so before with the same AP, PSK and cipher and called nothing of the EAPOL code; or the card answered its AUTHENTICATE and EAPOL was primed; or ASSOCIATE was answered and sends are allowed; or a connection came out of order and EAPOL was reset |
| JointRuns.KeysOfTheAttempt | wsupp_eapol.c:140-173 | in every run of both machines, where the EAPOL code reads AP, PSK and cipher from the station's state, the keys held past packet 1/4 of a session that was not reset are derived from the PSK and the AP of the last AUTHENTICATE, which are still the station's |
| JointRuns.UploadsOfTheAttempt | wsupp_eapol.c:414-543 | in such a session every key that reaches the card comes by a frame made under those keys, and the pairwise key uploaded is their part |
| PskText.JoinLines | wsupp_config.c:192-222 | a text is its lines, each ended by a newline |
| PskFile.Config.SetLine | wsupp_config.c:192-222 | the line found at a position runs to the next newline, or there is none |
| PskFile.Config.SplitLine | wsupp_config.c:224-255 | the cursor loop finds the chunks of the line, respecting backslashes |
| PskFile.Config.FindLine | wsupp_config.c:262-284 | the first line whose field i equals the bytes, or none |
| PskFile.FmtSsid | wsupp_config.c:286-310 | writes the escaped name as far as the buffer takes it |
| PskFile.FmtBytes | wsupp_config.c:442-456 | writes two hex digits for each byte |
| PskFile.ParseInto | wsupp_config.c:402-421 | decodes exactly the well-formed hex strings of the right size; otherwise the bytes up to the bad pair are overwritten |
| PskFile.Config.ChangePart | wsupp_config.c:324-343 | the memmove edit replaces a stretch of the text and keeps what is on both sides |
| PskFile.Config.InsertLine | wsupp_config.c:345-354 | the lines become the old lines and the new one at the end |
| PskFile.Config.DropLine | wsupp_config.c:356-373 | the lines become the old lines without line k |
| PskFile.Config.SavePsk | wsupp_config.c:375-386 | refines the line-level save: replaces the entry's line or appends one |
| PskFile.Config.LoadPsk | wsupp_config.c:423-440 | refines the line-level load and its error code, with the buffer left half written on a bad field |
| PskFile.Config.GotPskFor | wsupp_config.c:388-398 | true exactly when the map has the name |
| PskFile.Config.DropPsk | wsupp_config.c:476-489 | refines the line-level drop and says whether there was an entry |
| PskMap.LoadRefines | wsupp_config.c:423-440 | loading is looking the name up in the finite map the file stands for |
| PskMap.SaveRefines | wsupp_config.c:458-474 | saving an SSID that fits is updating the map at one name; names stay unique and the text well-formed |
| PskMap.DropRefines | wsupp_config.c:476-489 | dropping is removing one name from the map; names stay unique and the text well-formed |
| PskEffects.SaveThenLoad | wsupp_config.c:423-474 | a saved PSK is loaded back exactly when the SSID is not empty and its escaped name fits the room save_psk leaves; otherwise nothing is found |
| PskEffects.LongSsidIsLost | wsupp_config.c:458-474 | every SSID of 30 bytes or more fails that condition |
| PskEffects.LongSsidAnswersForAnother | wsupp_config.c:458-474 | the PSK saved for an SSID that does not fit is loaded for the shorter SSID whose name was written instead exactly when that SSID has no line in front of the one written (or loads the same PSK anyway); otherwise it loads what it did |
| PskEffects.LastEditCounts | wsupp_config.c:458-489 | after any history of saves and drops of SSIDs that fit, every SSID loads what its last edit says, and one never edited what it loaded before |
| PskEffects.DropThenLoad | wsupp_config.c:476-489 | on any file a dropped SSID loads what the next line of its name says, which in a file of unique names is nothing |
| PskEffects.SaveEffect | wsupp_config.c:458-474 | on any file, for any two SSIDs, exactly what saving the one does to what the other loads: the PSK saved, what its next line says, or no change |
| PskEffects.DropEffect | wsupp_config.c:476-489 | the same for dropping |
| PskEffects.SaveKeepsUnique | wsupp_config.c:458-474 | a save keeps names unique exactly when no other line bears the name it writes |
| PskEffects.TwoSavesTwoLines | wsupp_config.c:458-489 | two saves of one SSID that does not fit leave two lines of one name, and dropping that name leaves the second |
| PskEffects.OthersKept | wsupp_config.c:458-489 | on any file, saving or dropping an SSID that fits leaves what is loaded for every other unchanged |
| PskMap.EscapeInjective | wsupp_config.c:286-310 | different SSIDs have different escaped names |
| StaIes.ParseRsnIe | wsupp_sta_ies.c:45-77 | the loops compute the specified type bits for any bytes |
| StaIes.RsnOfSuites | wsupp_sta_ies.c:45-77 | an element encoded from a group suite, pairwise list and AKM list (section 8.4.2.27 of IEEE 802.11-2012) adds exactly the bits those suites justify |
| StaIes.NoBitFromNowhere | wsupp_sta_ies.c:29-77 | for any bytes at all, every bit added is spelled by four bytes inside the element |
| StaIes.SetStationSsid | wsupp_sta_ies.c:94-108 | at most 32 bytes are copied and trailing zeros trimmed from the length |
| StaIes.ParseStationIes | wsupp_sta_ies.c:110-130 | applies the elements up to the first that does not fit, for any bytes |
| StaIes.IesOfList | wsupp_sta_ies.c:110-130 | on a well-formed sequence the effects of the elements follow one another |
| ScanSlots.Slots.FindScanSlot | wsupp_slots.c:53-64 | the first live slot with the BSSID, or none |
| ScanSlots.Slots.GrabSlot | wsupp_slots.c:11-27 | the first zero slot below the count, else a new one, else none at thirty |
| ScanSlots.Slots.GrabScanSlot | wsupp_slots.c:66-91 | refines the table's grab: the station's own slot, a free one, or the first useless one emptied |
| ScanSlots.Slots.FreeScanSlot | wsupp_slots.c:29-41 | the slot is zeroed and the count drops below the zero slots at the end |
| ScanSlots.Slots.MarkStale | wsupp_netlink.c:180-200 | exactly the live slots on scanned frequencies get the stale mark |
| ScanSlots.Slots.DropStale | wsupp_netlink.c:489-496 | refines the table's sweep, whose bound is read again at each turn |
| ScanSlots.Slots.ParseScanResult | wsupp_netlink.c:224-246 | refines the table's taking of a report |
| ScanTable.TakeChangesOne | wsupp_netlink.c:224-246 | a report changes one slot, to its BSSID and without a stale mark, and BSSIDs stay distinct |
| ScanTable.DropSweeps | wsupp_netlink.c:489-496 | although the count shrinks under the sweep, exactly the stale slots are emptied and every other slot stays as and where it was |
| ScanTable.CycleIsSound | wsupp_netlink.c:180-246 | a cycle that starts without stale marks ends without any; BSSIDs stay distinct; every live slot was reported or is untouched on a frequency that was not scanned |
| StationTable.TableStaysSound | wsupp_slots.c:11-91 | in every run at most thirty slots are used, the unused ones are zero and no two live slots share a BSSID |
| StationTable.SweptSound | wsupp_netlink.c:489-517 | at the end of a dump no slot is stale |
| StationScans.SweepLeaves | wsupp_netlink.c:180-246 | from any table, and with any events in between, the sweep at the end of a dump leaves an unreported slot exactly when it was not marked before and is not on a frequency announced since; every live slot was reported or is as it was, and none is stale |
| StationScans.MarksLeft | wsupp_netlink.c:117-122 | an event leaves a station without a scan but with stale marks exactly when it breaks off a scan while there are some: an abort, a refused dump, a scan error, the network going down |
| StationScans.EveryScanStartsClean | wsupp_netlink.c:117-284 | in every run, every scan starts without stale marks exactly as long as no scan was broken off while there were some |
| StationExamples.BrokenScanCosts | wsupp_netlink.c:275-284 | a run from the start, event by event, at whose end an AP on 2412 is dropped although the scan that ends there was of 5180 alone |
| StationScans.StartIsClean | wsupp.c:239-241 | the state the program starts from meets what the properties of runs ask of a start |
| ApSelect.GetBestAp | wsupp_apsel.c:125-143 | the first candidate no candidate beats by band and then signal, or none exactly when there is no candidate |
| ApSelect.ChoicesDescend | wsupp_apsel.c:125-143 | repeated choices are of distinct slots and never rank higher than the ones before |
| ApSelect.ChoicesExhaust | wsupp_apsel.c:289-304 | choosing ends only when no candidate is left |
| StationMachine.Station.constructor | wsupp.c:239-240 | the state the program starts from, StationSpec.Start over the lines of the file |
| StationMachine.Station.StartScan | wsupp_netlink.c:127-168 | starts a scan, joins the one under way, or refuses, with the request bits this leaves |
| StationMachine.Station.TriggerScanDump | wsupp_netlink.c:202-216 | asks for the dump under a new number, or gives the scan up |
| StationMachine.Station.StartConnection | wsupp_netlink.c:286-312 | sends AUTHENTICATE for the selected AP exactly when both machines are idle |
| StationMachine.Station.StartDisconnect | wsupp_netlink.c:393-406 | sends DISCONNECT unless idle, down or disconnecting |
| StationMachine.Station.SetCurrentAp | wsupp_apsel.c:170-204 | marks the slot tried and takes its AP, with the PSK of its SSID unless one is fixed |
| StationMachine.Station.FindCurrentAp | wsupp_apsel.c:206-224 | the first slot with the selected SSID and BSSID, or none |
| StationMachine.Station.ConnectToSomething | wsupp_apsel.c:289-304 | refines the search; the loop ends because each failed turn removes a good slot |
| StationMachine.Station.ReassessWifiSituation | wsupp_apsel.c:467-497 | refines the reassessment: after a failed search back to neutral in one-shot mode, and otherwise the timer is set |
| StationMachine.Station.AbortConnection | wsupp_netlink.c:408-414 | disconnects, or reassesses when there is nothing to disconnect |
| StationMachine.Station.ReconnectToCurrentAp | wsupp_apsel.c:343-352 | connects to the selected AP if it is still in the table, else reassesses |
| StationMachine.Station.RescanCurrentAp | wsupp_apsel.c:334-341 | scans the one frequency of the selected AP |
| StationMachine.Station.TrySomeOtherAp | wsupp_apsel.c:354-362 | forgets the BSSID, and the SSID unless fixed, and reassesses |
| StationMachine.Station.HandleDisconnect | wsupp_apsel.c:389-414 | clears the timer, and exits, rescans, tries another AP or goes quiet, by mode |
| StationMachine.Station.CmdTriggerScan | wsupp_netlink.c:252-260 | refines the event: stale marks during a scan only |
| StationMachine.Station.CmdScanResult | wsupp_netlink.c:224-273 | refines the event: the report is taken in any state |
| StationMachine.Station.CmdScanDone | wsupp_netlink.c:267-273 | refines the event: the dump is asked for during a scan only |
| StationMachine.Station.CmdScanAborted | wsupp_netlink.c:275-284 | refines the event: the scan is forgotten |
| StationMachine.Station.SnapToDisabled | wsupp_netlink.c:339-349 | another supplicant is at work: external, neutral, EAPOL reset |
| StationMachine.Station.CmdAuthenticate | wsupp_netlink.c:356-366 | primes EAPOL and sends ASSOCIATE for the selected AP, or snaps to disabled |
| StationMachine.Station.CmdAssociate | wsupp_netlink.c:368-378 | allows EAPOL to send and waits for CONNECT, even after an abort |
| StationMachine.Station.CmdConnect | wsupp_netlink.c:380-388 | connected in any case, after snapping to disabled when out of order |
| StationMachine.Station.CmdDisconnect | wsupp_netlink.c:416-426 | resets EAPOL and handles the loss |
| StationMachine.Station.CheckNewScanResults | wsupp_apsel.c:366-385 | judges the slots not seen before, once each |
| StationMachine.Station.GenlDone | wsupp_netlink.c:498-517 | ends the dump: sweep, judgement, and what the requests ask for |
| StationMachine.Station.HandleAuthError | wsupp_netlink.c:558-569 | idle after a failed disconnect, a one-frequency scan after ENOENT, an abort otherwise |
| StationMachine.Station.GenlError | wsupp_netlink.c:523-579 | network down, scan error by number, or connection error |
| StationMachine.Station.HandleConnect | wsupp_apsel.c:306-332 | uploads two keys, fixes the AP, makes its slot eligible again and saves a new PSK |
| StationMachine.Station.RekeyGroup | wsupp_eapol.c:542 | one more key upload under the next number |
| StationMachine.Station.HandleRfKilled | wsupp_rfkill.c:102-104 | notes the kill and clears the timer |
| StationMachine.Station.RoutineBgScan | wsupp_apsel.c:438-442 | a scan of all frequencies, and the timer set again |
| StationMachine.Station.RoutineFgScan | wsupp_apsel.c:444-465 | mostly the one frequency, every sixth time all, and after thirty times the frequency is given up; the timer is set |
| StationMachine.Station.TimerExpired | wsupp.c:179-197 | exits, idles, scans or aborts, by state |
| StationMachine.Station.HandleRfRestored | wsupp_apsel.c:422-433 | rescans or reassesses after the network was down |
| StationMachine.Station.Shutdown | wsupp.c:199-219 | disconnects first when there is something to disconnect, and waits; a second request exits on the spot, after a DISCONNECT unless idle |
| StationMachine.Station.ResetScanCounters | wsupp_apsel.c:231-243 | live slots with the fixed SSID may be tried again |
| StationMachine.Station.SetFixed | wsupp_apsel.c:245-259 | fixes the SSID, or answers that the name is too long |
| StationMachine.Station.SetFixedSaved | wsupp_apsel.c:275-287 | loads the PSK first and answers why it could not be loaded, before the size of the SSID is looked at |
| StationMachine.Station.SetFixedGiven | wsupp_apsel.c:261-273 | takes the PSK given once the SSID is fixed, to be saved later |
| StationMachine.Station.ConfigureStation | wsupp_cntrl.c:304-325 | resets the AP, then takes the SSID with the PSK given or the one saved, and answers the error code of the first check that fails, in the order the code checks |
| StationMachine.Station.UserConnects | wsupp_cntrl.c:336-359 | refines the connect command and its error code: busy unless both machines are idle |
| StationMachine.Station.UserGoesNeutral | wsupp_cntrl.c:288-302 | refines the neutral command |
| StationMachine.Station.UserForgets | wsupp_cntrl.c:361-384 | drops the PSK and its mark on the slots with that SSID |
| StationSpec.TurnCostsGood | wsupp_apsel.c:289-304 | every failed turn leaves one good slot fewer |
| StationRuns.OneApPerAttempt | wsupp_netlink.c:286-378 | in every run, while an attempt is under way BSSID, SSID, frequency, PSK and group cipher are those of the AUTHENTICATE that opened it, and every ASSOCIATE names what the last AUTHENTICATE named |
| StationRuns.OpensOnlyWhenIdle | wsupp_netlink.c:300-312 | every event opens at most one attempt, with its last command, with scans idle, and only if the connection machine was idle or this event made it so |
| StationRuns.AllowFollowsPrime | wsupp_netlink.c:356-378 | in every run EAPOL sends are allowed only right after a priming |
| StationRuns.RequestsAreJoined | wsupp_netlink.c:117-168 | in every run scanreq is the join of the requests accepted since the current scan began; idle, it is zero with scanseq zero |
| StationRuns.DoneAnswersRequests | wsupp_netlink.c:498-517 | the end of a dump reconnects exactly when a request asked for it, and reassesses exactly when none did but one asked to connect |
| StationRuns.CommandErrorsSpareScans | wsupp_netlink.c:571-579 | an error answering a command that is not about scans is never handled as a scan error |
| StationRuns.FailureIsQuiet | wsupp_apsel.c:289-304 | a search that fails leaves both machines and the mode alone |
| StationRuns.SearchFails | wsupp_apsel.c:289-304 | a search that fails sends nothing |
| StationPicks.SearchChooses | wsupp_apsel.c:289-304 | the search selects the best candidates one after another and fails only when none is left |
| StationPicks.SearchStarts | wsupp_apsel.c:289-304 | with both machines idle a search starts an attempt exactly when some candidate has CCMP and, unless the SSID is fixed, a loadable PSK |
| StationPicks.SearchTakesBest | wsupp_apsel.c:125-304 | the AP a successful search selects is usable and no usable one is stronger: the named SSID's, or the strongest with a PSK in the file, with that PSK |
| StationPicks.FailureMeansNone | wsupp_apsel.c:289-304 | after a failed search there is no candidate |
| StationDescents.QuietKeepsSsid | wsupp_apsel.c:354-433 | an event other than a scan result, a configuring command or a successful connection never fixes an SSID, and gives up a fixed one exactly when another supplicant shows up, the AP is lost in neutral or one-shot mode, or a one-shot search that may start finds nothing usable |
| StationDescents.QuietRunInTwo | wsupp_apsel.c:125-304 | every run of such events selects first the best slots under the filter it starts with, then, only if a fixed SSID was given up, the best under none; without a fixed SSID at the end exactly if it started without or gave one up |
| StationDescents.SelectionsDescend | wsupp_apsel.c:125-304 | in every such run no slot is tried twice, and one ranks above an earlier one only if a fixed SSID was given up between the two |
| StationDescents.OpenSelectionsDescend | wsupp_apsel.c:125-304 | started without a fixed SSID, no slot in such a run ranks above an earlier one |
| StationExamples.RanksRise | wsupp_apsel.c:389-433 | a run from the start, event by event, in which a slot does rank above the one tried before it |
| StationDescents.NoSlotTwice | wsupp_apsel.c:170-304 | even when a fixed SSID is given up half-way, such a run tries no slot twice |
| StationStops.NeutralOpens | wsupp_cntrl.c:288-302 | after the user's disconnect an event other than connect opens an attempt exactly when it ends a scan that was to reconnect and the AP is still in the table |
| StationExamples.NeutralReconnects | wsupp_apsel.c:343-352 | a run from the start, event by event, in which the station connects after the user's disconnect |
| StationStops.RefusedDisconnectOpens | wsupp_netlink.c:558-569 | when the disconnect of a shutdown is answered with an error, the station does not exit but opens an attempt, exactly when no scan is under way and some slot is usable |
| StationExamples.ExitReconnects | wsupp_netlink.c:558-569 | a run from the start, event by event, in which it does |
| StationStops.ShutdownFate | wsupp_apsel.c:389-414 | for every event, exactly when a pending request to exit is met (the awaited notification, a second request, the timer while the network is down), forgotten (the user's disconnect, another supplicant, a connect command carried out), or stands |
| StationWaits.StuckExactly | wsupp.c:165-258 | for every state and event, exactly when a station that wants a connection is left idle with no scan, no timer and nothing to wait for but the user |
| StationWaits.EverStuckExactly | wsupp.c:165-258 | a run ever gets there exactly if some event of it is one of those |
| StationWaits.DownInEveryRun | wsupp_netlink.c:529-543 | in every run a station whose network is down has its timer set or waits for an rfkill to be lifted, unless it exits (commands come before main's last turn) |
| StationExamples.LossIsFinal | wsupp_apsel.c:389-414 | a run from the start, event by event, in which the user's attempt ends with a disconnect notification and the station is stuck in one-shot mode |
| StationExamples.AbortedRescanIsFinal | wsupp_netlink.c:275-284 | a run from the start in which a working connection is lost, the card aborts the scan for it, and the station is stuck |
| StationExamples.RfkillIsFinal | wsupp_apsel.c:416-433 | a run from the start in which rfkill ends a working connection and, once lifted, leaves the station stuck |
| UcFormat.FindIsLookup | nlusctl/get.c:97-117 | the walk of uc_get finds the first visited attribute with the key, on any bytes |
| UcFormat.AttrsReadBack | nlusctl/get.c:38-75 | a list of attributes written one after another is visited exactly, in order |
| UcFormat.ItemsReadBack | nlusctl/get.c:77-117 | a list with one nesting level reads back: every item, every member, the first of each key |
| UcFormat.PutItemsFits | nlusctl/put.c:6-24 | for any items and any room the buffer holds exactly the puts before the first that did not fit, also inside a nest, and over tells whether there was one |
| UcMessage.MessageReadsBack | nlusctl/put.c:44-120 | what is in the buffer is a message with its command and length that reads back as exactly the puts kept |
| UcMessage.FitsWhole | nlusctl/put.c:6-24 | nothing is lost exactly when header and items fit the buffer |
| UcBuffer.UcBuf.Alloc | nlusctl/put.c:6-24 | room with padding or the sticky overflow mark; the pointer stays within the buffer |
| UcBuffer.UcBuf.PutHdr | nlusctl/put.c:44-55 | refines the header put |
| UcBuffer.UcBuf.PutEnd | nlusctl/put.c:57-65 | refines the filling in of the length |
| UcBuffer.UcBuf.PutAttr | nlusctl/put.c:67-79 | header and zero padding around room for the payload, or nothing at all |
| UcBuffer.UcBuf.PutBin | nlusctl/put.c:81-89 | appends the encoded attribute or marks the overflow; nothing past the end is written |
| UcBuffer.UcBuf.PutInt | nlusctl/put.c:91-99 | the same for a 32-bit int |
| UcBuffer.UcBuf.PutStr | nlusctl/put.c:101-104 | the same for a string and its final zero |
| UcBuffer.UcBuf.PutEmpty | nlusctl/put.c:106-114 | the same for a flag or the opening of a nest |
| UcBuffer.UcBuf.EndNest | nlusctl/put.c:116-120 | the nest's length becomes what has been written since it was opened |
| UcBuffer.GetFirst | nlusctl/get.c:38-48 | the first attribute if it lies in the region |
| UcBuffer.GetNext | nlusctl/get.c:50-75 | the next attribute if it lies in the region |
| UcBuffer.Get | nlusctl/get.c:97-117 | the loop returns the first attribute with the key, or none exactly when no visited attribute has it |
| UcStatus.StatusFits | wsupp_cntrl.c:162-261 | for any number of slots with any contents the status reply fits the estimated block and reads back whole |
| UcStatus.PutStatusWifi | wsupp_cntrl.c:204-216 | writes exactly the items that describe the interface and the AP |
| UcStatus.PutStatusScans | wsupp_cntrl.c:218-240 | writes one nest for each live slot, in order |
| UcStatus.CmdStatus | wsupp_cntrl.c:162-261 | the reply built in the block is a complete message with all items |
| UcRecv.UrBuf.ShiftBuf | nlusctl/recv.c:9-21 | the bytes held move to the front, none lost |
| UcRecv.UrBuf.TakeCompleteMsg | nlusctl/recv.c:23-34 | takes the first message exactly when it is complete |
| UcRecv.UrBuf.UcRecv | nlusctl/recv.c:36-71 | refines one receive call, in which only the first read may be told not to wait; messages returned and bytes held always make up the bytes received |
| UcRecv.RecvIsHonest | nlusctl/recv.c:36-71 | with messages that fit the buffer a call returns the next message, EAGAIN for a pause if it may not wait, a failure of the socket, or the end; never ENOBUFS or EBADMSG of its own |
| UcRecv.MessagesInOrder | nlusctl/recv.c:36-71 | however the bytes are cut into arrivals, and however many calls find nothing or fail in between, the messages come in order, and enough calls on one buffer return them all |
| UcConn.AllDispatchedIff | wsupp_cntrl.c:420-448 | over all the calls of handle_conn, each with a buffer of its own, the messages sent are dispatched completely and in order exactly when no pause meets a call that holds part of a message before it has read anything, and nothing fails before the last message is through |
| UcConn.OneAtATimeIsWhole | wsupp_cntrl.c:420-448 | if no arrival runs over the end of a message, all messages are dispatched, wherever the pauses fall |
| UcConn.PartBehindIsLost | wsupp_cntrl.c:420-448 | for any two messages, the beginning of the second is lost if it arrives behind the end of the first and a pause follows |
| UcConn.DispatchedIsBounded | wsupp_cntrl.c:420-448 | whatever arrives, no more bytes are dispatched than came in |
| NlAttr.NlCheckNest | netlink/attr_nst.c:11-29 | the cursor loop with its 16-bit skip is the specified check, on regions of any size |
| NlAttr.CheckLicensesWalk | netlink/attr_buf.c:11-61 | in a buffer the check accepts, every attribute visited is 4-aligned and wholly inside |
| NlAttr.PackedIsAccepted | netlink/attr_nst.c:11-29 | a packed list is accepted exactly when it is longer than a bare header and no attribute is too long to step over; the walk visits its attributes and finds the first of each type |
| NlAttr.NlAttr0In | netlink/attr_buf.c:11-24 | the first attribute if its length fits |
| NlAttr.NlAttrNIn | netlink/attr_buf.c:26-50 | the next position by the current length alone |
| NlAttr.NlAttrKIn | netlink/attr_buf.c:52-61 | the first visited attribute of the type |
| NlPack.Netlink.Alloc | netlink/pack.c:8-22 | refuses without marking, or gives zeroed room and keeps everything else |
| NlPack.Netlink.NewCmd | netlink/pack.c:24-40 | a fresh message with the generic header and the next sequence number |
| NlPack.Netlink.Put | netlink/pack.c:42-59 | one attribute more and the message length updated, or no change at all |
| NlPack.Netlink.PutNest | netlink/pack_sub.c:5-15 | an attribute header without payload, or no change |
| NlPack.Netlink.EndNest | netlink/pack_sub.c:17-27 | header and members become one attribute; a refused or empty nest spoils the message |
| NlCommands.TriggerScanMessage | wsupp_netlink.c:127-168 | the message carries the interface and the frequency, if any, and always fits |
| NlCommands.AuthenticateMessage | wsupp_netlink.c:286-298 | the message carries the AP's address, frequency and SSID, and always fits |
| NlCommands.AssociateMessage | wsupp_netlink.c:314-325 | the message carries the AP's address, frequency, SSID and the RSN element of its group cipher, and always fits |
| NlCommands.ScanMessageReads | wsupp_netlink.c:159-164 | a reader finds the frequency list, the check passes it for a nest, and its member is the frequency asked for |

## Left out

- Sockets, the poll loop, signals, the durations of timers, the DHCP client, rfkill ioctls and sysfs, and reading and writing files: events, parameters and buffers stand for them.
- The `wifi` front end, all printing and reporting, and `nlusctl/recv_msg.c`, which repeats `recv.c`: they would only add easy members.
- Random numbers: the supplicant nonce is a parameter of the frame that makes the code draw it.
- PskFile.Config.SavePsk: the block the file is mapped to must have 100 bytes to spare, because `insert_line` computes its target before the block may move; growth by mremap is not modelled.
- PskFile.Config.ChangePart: the block must have room for the change; growth by mremap is not modelled.
- PskFile.Config.InsertLine: the same.
- PskFile.Config.FindLine: texts must end in a newline; a file without a final newline is outside the model.
- HmacBuffers.HmacInto: keys above 64 bytes are cut to 64 as the code does, so for them the result is not the HMAC of RFC 2104.
- Handshake.HonestMessage3IsTaken: the authenticator's frame is at most as large as the packet buffer, and a group key element with index 0 or a broken element in front is outside an honest offer.
- EapolMachine.Supplicant.HandleRawsock: the AP's address, elements, group cipher and PSK are passed with each event instead of being read from the globals; key buffers are fields holding sequences.
- StationRuns.CommandErrorsSpareScans: sequence numbers are taken not to wrap around 32 bits.
- StationMachine.Station.StartScan: whether the message is taken for sending is a parameter; `NlCommands` shows that the buffer never overflows, and a failing socket counts as success in `nl_send`.
- StationMachine.Station.Shutdown: the end of the process on a second request is modelled as the exit mode.
- StationMachine.Station.CmdConnect: nothing is claimed about CONNECTED following CONNECTING, because the out-of-order branch falls through.
- StationMachine.Station.HandleConnect: the two key uploads are numbered commands, whose attributes are not modelled; saving needs 100 bytes to spare in the block of the PSK file.
- StaIes.ParseStationIes: a lone byte left at the end has its length read from behind the elements, so then one byte must be there; its value does not matter.
- UcBuffer.Get: a message or nest that declares a length smaller than its own header is outside the model, as is a message region behind its end.
- UcStatus.StatusFits: interface names have at most 40 bytes, where the kernel allows 15.
- UcConn.AllDispatchedIff: a failing dispatch, which ends a call of `handle_conn` and the connection, is not modelled; calls are counted by messages, because one that declares no bytes is returned for ever.
- NlAttr.NlAttrNIn: as for NlAttr.NlAttrKIn.
- NlAttr.NlAttrKIn: behind a region whose size is no multiple of four the padding must be there, because the walk reads whole headers.
- JointRuns.KeysOfTheAttempt: nothing is claimed while the station is idle, authenticating, disconnecting, down or external, where keys of an older attempt may still be held.
- NlPack.Netlink.Alloc: the transmit buffer's size is a multiple of four; the room check does not count padding.
- Liveness of reconnecting, the table of control connections, and the strength of the cryptography.
