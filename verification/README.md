# libSRTP in Dafny

A model of libSRTP's protected packets, from the AES and SHA-1 code up to two sessions that
talk to each other through an unreliable network, with proofs of what the library is for.

Code that works in place is modelled in place: packet buffers are arrays, and the cipher
context, the hash context, the replay databases, the stream list and the session are classes.
Each of their methods is proved equal to a function on values, and the theorems are about those
functions, over all inputs and over whole runs of calls.

| part | modules |
|---|---|
| octet strings, numbers, headers | `Results`, `Octets`, `Numbers`, `RtpPackets` |
| packet index and replay window | `Replay`, `PacketIndex`, `BitVectors`, `StreamIndexes`, `RtcpReplay` |
| counter mode | `Keystreams`, `Ciphers`, `CounterBlocks` |
| RFC 6904 header extensions, RFC 9335 cryptex | `HeaderExtensions`, `HeaderEncryption`, `ElementTables`, `Cryptex` |
| SRTP in counter mode | `SrtpBodies`, `SrtpPackets`, `SrtpCode` |
| SRTP under AES-GCM | `AeadPackets`, `AeadCode` |
| SRTCP | `SrtcpPackets`, `SrtcpCode` |
| packets on the wire, octet by octet | `WireFormats`, `AeadFormats`, `SrtcpFormats` |
| sessions | `Sessions`, `SessionRuns`, `SessionLaws`, `Directions`, `KeystreamRuns`, `ControlRuns`, `Delivery`, `Streams`, `SessionCode`, `Rekeying` |
| SHA-1, HMAC, AES | `Sha1`, `Sha1Code`, `Sha1Example`, `HmacCode`, `AesTables`, `Aes`, `AesCode`, `AesExample`, `Primitives` |

`dafny verify dfyconfig.toml` checks everything.

## Main results

- **Delivery.** Between two sessions with the same settings, through a network that loses,
  repeats and reorders packets, every packet that arrives is handed up exactly as it was sent if
  its index is new and in the window, and is refused otherwise; nothing is handed up twice
  (`Delivery.HandedUpIffNew`, `Delivery.DeliveredOnceAndUnchanged`).
- **Round trips**, as if-and-only-if statements, for counter mode, AES-GCM and SRTCP, with every
  combination of MKI, rollover counter carrying, header extension encryption, cryptex and
  services, in place and between buffers.
- **Wire formats.** Every octet that is sent, and every octet that is handed up from whatever
  arrives, is given in terms of slices of the packet, the keystream of RFC 3711 computed on numbers,
  the authentication function and the AEAD, rather than the stages of the model: payload, encrypted
  extension elements with their places in the keystream, cryptex, MKI, tag, carried counter, SRTCP
  trailer and both forms of GCM packets, with every error (`WireFormats`, `AeadFormats`,
  `SrtcpFormats`, `ElementTables.WalkIsByElements`, `CounterBlocks.KeystreamIs`).
- **Authenticity.** A packet is refused for its tag if and only if the tag differs from the
  authentication function over the packet and its rollover counter (`WireFormats.TagDecides`,
  `SrtcpFormats.RtcpTagDecides`); so whatever a session accepts has the right tag
  (`SessionLaws.AcceptedIsAuthentic`).
- **One direction.** Over any run of calls no SSRC both sends and receives, unless its stream is
  removed in between (`Directions.OneDirection`).
- **No keystream twice** in counter mode. Over any run of srtp_protect, srtp_unprotect and
  srtp_stream_set_roc on cipher contexts and packet buffers, with any number of streams that share
  the keys, the block functions of the packet ciphers and of the header extension ciphers never see
  a block twice while the streams stay below 2^48 packets (`KeystreamRuns.Run`). The exception is a
  received packet that is refused halfway, at its CSRCs or at its header extension elements; both
  cases are given as an if-and-only-if, and a packet of either kind that arrives twice does repeat
  a block.
- **No nonce twice** among the packets that are sent or accepted, over any run of calls of a
  session (`SessionRuns.NoAeadIvUsedTwice` for SRTP, `ControlRuns.NoControlIvUsedTwice` for SRTCP).
  Packets that are refused are opened under the nonce of the index that they claim.
- **No index accepted twice** over any run of a stream, including the path that re-bases the
  window (`PacketIndex.NoIndexAcceptedTwice`).
- **Memory.** Every block of a session is freed exactly once, though streams made from the
  template share its keys, and re-keying replaces the template under them
  (`SessionCode.SessionContext.Destroy`, `Rekeying.UpdateTemplate`).
- **Primitives.** Streaming SHA-1 and HMAC-SHA1, and the table-driven AES, agree with
  FIPS 180-4, RFC 2104 and FIPS 197; counter mode agrees with a keystream defined block by block. The
  definitions themselves give the published values of a SHA-1 and an AES test case
  (`Sha1Example.HashOfMessage`, `AesExample.EncryptsExample`).

## Where the expected property fails

- The round trip fails exactly for packets that have a cryptex profile of their own while cryptex
  is on and the confidentiality service off: the sender leaves them alone, the receiver changes
  the profile back. `SrtpPackets.CryptexProfileIsMangled` is such a packet,
  `SrtpPackets.OpenOfProtect` gives the exact condition. Under AES-GCM a receiver also refuses
  packets with CSRCs and cryptex between buffers (`AeadPackets.OpenOfProtectAead`, with
  `AeadPackets.CsrcsNeedOneBuffer` as an example).
- A carried rollover counter is the sender's only with the authentication service on: without
  it the tag field is sent as it was in the output buffer (`SrtpPackets.CarriesSendersRoc`, with
  `SrtpPackets.CarriesCounterOfBuffer` as an example).
- A receiver can encrypt a block twice if it refuses a packet halfway. For the packet cipher that
  is a cryptex packet that goes from one buffer to another, whose CSRCs are decrypted before its
  keystream runs out. For the header extension cipher it is a packet whose first extension element
  has taken keystream when a later element turns out malformed, or the keystream for elements or
  payload runs out (`SrtpPackets.RefusedUsesKeystreamIff`, `KeystreamRuns.RefusedUsesNothing`).
  When such a packet arrives twice, the block is repeated (`KeystreamRuns.ArrivesTwice`, with
  `KeystreamRuns.LongPacketTwice` and `KeystreamRuns.MalformedTwice` as examples).
- The estimated index is a 48-bit value that comes round at 2^48
  (`Replay.EstimateExactIff`, `PacketIndex.PacketIndexReusedPastLimit`).
- The hash writes a 32-bit length, so it is SHA-1 exactly as long as the message has less than
  2^29 octets (`Sha1Code.PaddingAgrees`).
- An index is used twice on an SSRC only if the stream is removed in between, and then it can be
  (`SessionRuns.NoIndexUsedTwice`, `SessionRuns.RemovalRepeatsIndex`).
- The comment in include/srtp_priv.h:133-136 speaks of windows below 2^15; the bit vector is
  rounded up to whole words, so a window can have exactly 2^15 bits. The proofs cover that.

## Model

| member | source | states |
|---|---|---|
| BitVectors.BitVector.constructor | crypto/math/datatypes.c:263-291 | all bits are clear, and their number is the length rounded up to whole words |
| BitVectors.BitVector.SetBit | crypto/include/datatypes.h:247-248 | exactly one bit of the flattened words changes |
| BitVectors.BitVector.LeftShift | crypto/math/datatypes.c:375-403 | the loops over 32-bit words shift the flattened bit string by any number of places, dropping what falls out |
| Replay.EstimateIsClosest | crypto/replay/rdbx.c:280-299 | the estimate is the number with the packet's sequence number that lies closest to the local index (section 3.3.1 of RFC 3711), reduced to 48 bits; no other candidate is closer |
| Replay.GuessIsTrueIndexModulo | crypto/replay/rdbx.c:112-145 | the guess moves by at most 2^15, matches the sequence number, and equals the true index modulo 2^48 although the counter wraps at 32 bits |
| Replay.EstimateExactIff | crypto/replay/rdbx.c:280-299 | the estimate is index plus delta if and only if the 32-bit rollover counter does not wrap |
| StreamIndexes.ReplayDb.constructor | crypto/replay/rdbx.c:156-169 | an empty window of whole words at index 0 |
| StreamIndexes.ReplayDb.Check | crypto/replay/rdbx.c:227-243 | the status that the window gives to a distance: ahead, too old, seen or new |
| StreamIndexes.ReplayDb.AddIndex | crypto/replay/rdbx.c:253-270 | the bit vector code does what recording an index does to the window |
| StreamIndexes.ReplayDb.SetRocSeq | crypto/replay/rdbx.c:323-338 | re-bases to the given index with an empty window, and refuses a smaller rollover counter |
| StreamIndexes.StreamIndex.Find | srtp/srtp.c:2064-2083 | estimate, pending or carried counter and replay check give the located index |
| StreamIndexes.StreamIndex.FindSend | srtp/srtp.c:2771-2793 | the same for a sender, which may be allowed to repeat an index |
| StreamIndexes.StreamIndex.Commit | srtp/srtp.c:3360-3366 | records the packet, or re-bases the window and drops the pending counter |
| PacketIndex.EstimateWithRocFacts | srtp/srtp.c:2040-2062 | with a given counter the index is exact, ahead by more than 2^15 only on the advance path |
| PacketIndex.LocateFacts | srtp/srtp.c:2040-2083 | whatever way the index is found, it has the packet's sequence number and its 48-bit value is the true index modulo 2^48 |
| PacketIndex.AdvanceNeverMovesBack | srtp/srtp.c:3360-3366 | the ignored result of srtp_rdbx_set_roc_seq is ok on the advance path |
| PacketIndex.PassesIffFresh | crypto/replay/rdbx.c:227-243 | a packet passes if and only if its index has not left the window and was not recorded |
| PacketIndex.RecordTracks | crypto/replay/rdbx.c:253-270 | recording keeps the window in step with the set of all indices seen, also when it is re-based |
| PacketIndex.RebaseTracks | srtp/srtp.c:2049-2058 | a jump of more than 2^15 leaves every index seen before behind the window, which has at most 2^15 bits |
| PacketIndex.RunTracks | srtp/srtp.c:3031-3058 | over every run of packets and set counters the window is in step with what was accepted |
| PacketIndex.NoIndexAcceptedTwice | srtp/srtp.c:2938-3371 | over every run of a stream, with counters carried or set at any point, no index is accepted twice |
| PacketIndex.NoPacketIndexAcceptedTwice | srtp/srtp.c:2938-3371 | the same for the 48-bit index, as long as the stream stays below 2^48 |
| PacketIndex.PacketIndexReusedPastLimit | crypto/replay/rdbx.c:112-145 | past 2^48 a run accepts the 48-bit index 0 twice |
| PacketIndex.CarriedCounterResynchronises | srtp/srtp.c:3096-3126 | a carried counter ahead brings the receiver to exactly the sender's index; it is refused as old if and only if it is more than 2^15 behind |
| PacketIndex.LocatesIffNew | srtp/srtp.c:2040-2083 | a receiver that is near, or is told the counter, lets a packet pass if and only if its true index is new and in the window, and finds that index |
| PacketIndex.SendsIffNew | srtp/srtp.c:2771-2793 | a sender that is near sends at the true index if and only if that is not too old, and new unless the stream may repeat itself |
| PacketIndex.SentAtSequenceNumber | srtp/srtp.c:2771-2793 | a sender's index is a 48-bit value that ends in the sequence number, also when repeats are allowed |
| Keystreams.IncrementIsNext | crypto/cipher/aes_icm.c:267-283 | clocking the two counter octets moves to the next counter block and carries into nothing else |
| Keystreams.CryptConcat | crypto/cipher/aes_icm.c:298-415 | the keystream does not depend on how the data is cut |
| Ciphers.EncipherInvolutive | crypto/cipher/aes_icm.c:298-415 | encryption undoes itself, at any position of the keystream |
| Ciphers.EncipherConcat | crypto/cipher/aes_icm.c:298-415 | two calls in a row encrypt like one call on the joined data, at any position |
| Ciphers.WrappedSubtractionIsHarmless | crypto/cipher/aes_icm.c:317-322 | the wrapping size_t subtraction counts the right number of new blocks, because at most 15 octets are buffered |
| Ciphers.TerminusIff | crypto/cipher/aes_icm.c:317-322 | the check refuses exactly the lengths for which the 16-bit block counter would run out |
| Ciphers.Cipher.constructor | crypto/cipher/aes_icm.c:182-230 | a new context is at the start of the keystream, with nothing encrypted yet |
| Ciphers.Cipher.SetIv | crypto/cipher/aes_icm.c:237-259 | the context starts over at position 0 of the keystream of the new IV |
| Ciphers.Cipher.Advance | crypto/cipher/aes_icm.c:267-283 | refills the buffer with the block function of the current counter block, notes that block, and moves on |
| Ciphers.Cipher.IcmEncrypt | crypto/cipher/aes_icm.c:298-415 | the buffered loops, in place or not, add the keystream from the current position; exact error conditions; on an error counter, buffer and output are unchanged; exactly the expected blocks went through the block function |
| Ciphers.Cipher.Encrypt | crypto/cipher/cipher.c:114-125 | the cipher interface over counter mode and the null cipher |
| Ciphers.Cipher.Output | crypto/cipher/cipher.c:102-112 | returns the next octets of the keystream |
| CounterBlocks.BlockOfOctet | crypto/cipher/aes_icm.c:236-283 | an octet of keystream comes from the block whose first 14 octets are salt plus vector, octet by octet, and whose last two count the blocks from there, for any salt, vector and position |
| CounterBlocks.BlocksAreLogged | crypto/cipher/aes_icm.c:267-283 | the log of a cipher has the block of every octet that was taken, and no other |
| CounterBlocks.FirstBlockIs | srtp/srtp.c:2795-2810 | section 4.1.1 of RFC 3711 on numbers: the first counter block of a packet is salt times 2^16, SSRC times 2^64 and index times 2^16, under exclusive-or |
| CounterBlocks.ReachesIff | crypto/cipher/aes_icm.c:317-322 | a packet has exactly 2^16 - 1 blocks of keystream |
| CounterBlocks.KeystreamIs | crypto/cipher/aes_icm.c:267-283 | octet p of the keystream of a packet is octet p mod 16 of the block function at that number plus p / 16 |
| HeaderExtensions.WalkInvolutive | srtp/srtp.c:1781-1873 | a second pass over the encrypted elements, from the same keystream position, finds the same elements and restores every octet |
| HeaderExtensions.WalkUseReaches | srtp/srtp.c:1781-1873 | the keystream that a pass takes, complete or not, is within reach of the block counter |
| HeaderExtensions.WalkChangesOnlyListed | srtp/srtp.c:1758-1873 | positions, ids, lengths and padding of elements are kept, and octets change only in the data of listed elements |
| ElementTables.WalkIsByElements | srtp/srtp.c:1758-1873 | the pass goes from element to element over the padding, each with its place in the keystream; octets of listed elements are under the keystream at that place, all others unchanged; it ends at the end or at id 15, and fails exactly at an element that is cut off or out of reach of the keystream |
| HeaderExtensions.PaddingUnique | srtp/srtp.c:1781-1873 | padding ends at the first octet that is not zero |
| HeaderEncryption.SkipPadding | srtp/srtp.c:1781-1873 | the loop stops at the end of the padding or of the extension |
| HeaderEncryption.ProcessElement | srtp/srtp.c:1781-1873 | one turn of the loop, with a keystream buffer of 257 octets: keystream for header and data is used, listed data is changed, the next header is found |
| HeaderEncryption.ProcessElements | srtp/srtp.c:1781-1873 | the loop ends, equals the recursive walk, changes nothing outside the extension, and takes exactly the keystream of the elements that it got to, whether or not it gets to the end |
| HeaderEncryption.Process | srtp/srtp.c:1781-1873 | the whole pass in the packet buffer, for one- and two-byte headers, with its errors and the keystream that it takes |
| HeaderEncryption.HeaderCryptInvolutive | srtp/srtp.c:1781-1873 | a successful pass undoes itself, for every profile |
| Cryptex.MovesAreInverse | srtp/srtp.c:135-161 | the two moves of the extension header are inverse to each other, for every number of CSRCs |
| Cryptex.MoveXtnBeforeCsrc | srtp/srtp.c:135-147 | the overlapping memmoves put the extension header before the CSRCs |
| Cryptex.MoveCsrcBeforeXtn | srtp/srtp.c:149-161 | and back |
| Cryptex.InPlaceAgrees | srtp/srtp.c:195-226 | moving, encrypting in one go and moving back gives the same octets as encrypting CSRCs and the rest apart |
| Cryptex.InPlaceShort | srtp/srtp.c:267-288 | the same for a packet that ends inside its CSRC list |
| SrtpBodies.XtnStageInvolutive | srtp/srtp.c:2848-2857 | the header extension stage undoes itself |
| SrtpBodies.CryptexCryptInvolutive | srtp/srtp.c:195-226 | encryption of CSRCs, extension and payload undoes itself |
| SrtpBodies.CryptexRoundTrip | srtp/srtp.c:163-305 | a cryptex packet is recognised by its profile and opens to what was sent, in place or not |
| SrtpBodies.PlainRoundTrip | srtp/srtp.c:2848-2882 | so does a packet without cryptex |
| SrtpBodies.ProtectedKeepsLayout | srtp/srtp.c:2578-2936 | sending keeps the fixed header and the length of the extension, so that the receiver parses the same layout |
| SrtpPackets.MkiAgreement | srtp/srtp.c:1940-2014 | the receiver looks for the MKI where the sender put it and selects the sender's key, for every trailer and every set of distinct MKIs |
| SrtpPackets.TagFieldMatches | srtp/srtp.c:3208-3261 | the tag that the sender computes is the one that the receiver accepts, also when it is shortened for the counter |
| SrtpPackets.OpenBody | srtp/srtp.c:3281-3313 | the body opens to what was sent if and only if the receiver can tell what the sender did |
| SrtpPackets.OpenOfProtect | srtp/srtp.c:2938-3371 | a protected packet opens to exactly what was sent if and only if it has no cryptex profile of its own without the confidentiality service |
| SrtpPackets.CryptexProfileIsMangled | srtp/srtp.c:237-305 | a 16-octet packet that is sent unchanged and does not come back unchanged |
| SrtpPackets.SrtpRoundTrip | srtp/srtp.c:2938-3371 | the whole receiver undoes the whole sender if and only if the packet survives, for every key, MKI, counter mode, extension, service and buffer choice |
| SrtpPackets.CarriesSendersRoc | srtp/srtp.c:2884-2924 | the counter that arrives is the sender's if and only if the tag is written, or the buffer held it already |
| SrtpPackets.CarriesCounterOfBuffer | srtp/srtp.c:2884-2924 | packet number 2^16 in mode 2, without the authentication service and from a buffer of zeros, carries counter 0 instead of 1 |
| SrtpPackets.RefusedUsesKeystreamIff | srtp/srtp.c:3281-3313 | a packet that is refused has used keystream of the packet cipher if and only if it is a cryptex packet with CSRCs between buffers that passes the checks and whose keystream runs out behind the CSRCs, and keystream of the header extension cipher if and only if it passes the checks, an element has taken keystream, and then an element is malformed or the keystream for elements or payload runs out |
| WireFormats.HeaderIs | srtp/srtp.c:307-336 | where the CSRC list, the header extension and the payload of an RTP packet are, and when its header is accepted, from its octets |
| WireFormats.SentBody | srtp/srtp.c:2617-2882 | octet by octet what is sent: which octets are under which octet of keystream, with and without confidentiality, encrypted elements and cryptex with its new profile; and when there is an error |
| WireFormats.SentPacket | srtp/srtp.c:2883-2936 | body, MKI, and the leading octets of the authentication function over the body and the rollover counter; a carrying packet has the counter in front of a tag that is 4 octets shorter |
| WireFormats.RefusedToSend | srtp/srtp.c:2578-2793 | which error a packet that is not sent gets, and when |
| WireFormats.TagDecides | srtp/srtp.c:3158-3262 | for any octets that arrive: length and room are checked first, and then the packet is refused for its tag if and only if the tag octets differ from the leading octets of the authentication function over packet and counter, without the first four tag octets in a carrying packet |
| WireFormats.OpenedPacket | srtp/srtp.c:3281-3318 | octet by octet what is handed up, in one buffer or between two, with restored cryptex profile, also for a packet that ends inside its CSRC list |
| WireFormats.RefusedPlace | srtp/srtp.c:2938-3126 | which error a packet gets before its key is used |
| SrtpCode.CryptXtn | srtp/srtp.c:2848-2857 | the header extension stage in the output buffer, with nothing else changed, and the keystream that it takes |
| SrtpCode.SessionKeys.LogOfPacket | srtp/srtp.c:2795-2882 | the logs of both ciphers of a key have grown by the keystream of the packet in hand, from its start |
| SrtpCode.CryptexInPlace | srtp/srtp.c:195-235 | move, encrypt, move back in one buffer |
| SrtpCode.InPlaceIsCryptex | srtp/srtp.c:195-226 | the result is the value-level cryptex encryption, and octets behind the packet are untouched |
| SrtpCode.CryptexRun | srtp/srtp.c:195-226 | CSRCs, extension data and payload, in place or between buffers |
| SrtpCode.WriteTag | srtp/srtp.c:2888-2924 | the tag over packet and counter, shifted behind a carried counter |
| SrtpCode.Seal | srtp/srtp.c:2795-2936 | the part of srtp_protect behind the packet index, on the buffers: exact output, exact errors, and from both ciphers keystream of this packet only |
| SrtpCode.Protect | srtp/srtp.c:2578-2936 | srtp_protect on one stream, buffers aliased or not, is the value-level sender; a refused packet uses no keystream, another one from both ciphers the blocks of its own IV only |
| SrtpCode.OpenInPlace | srtp/srtp.c:237-305 | a cryptex packet in one buffer |
| SrtpCode.OpenPacket | srtp/srtp.c:3060-3371 | the part of srtp_unprotect behind the packet index, on the buffers |
| SrtpCode.FindKey | srtp/srtp.c:1940-1979 | the loop over the master keys finds the first one with the packet's MKI |
| SrtpCode.Choose | srtp/srtp.c:2938-3126 | the place of the packet and its key, before a cipher is touched, with every error |
| SrtpCode.Unprotect | srtp/srtp.c:2938-3371 | srtp_unprotect on one stream, buffers aliased or not, is the value-level receiver, with every error; for each key exactly which blocks its packet cipher and its header extension cipher encrypt, whether the packet is accepted or refused |
| AeadPackets.AeadIvInjective | srtp/srtp.c:1904-1938 | different SSRCs or 48-bit indices give different IVs (section 8.1 of RFC 7714) |
| AeadFormats.AeadIvIs | srtp/srtp.c:1904-1938 | section 8.1 of RFC 7714 on numbers: the IV under the salt is SSRC times 2^48 plus packet index |
| AeadPackets.RocIsAtEnd | srtp/srtp.c:2345-2391 | the last four octets of a carrying packet are the sender's counter |
| AeadPackets.AeadPlainRoundTrip | srtp/srtp.c:2306-2576 | without cryptex both sides form the same IV and associated data, and the packet comes back |
| AeadPackets.AeadCryptexRoundTrip | srtp/srtp.c:2306-2576 | with cryptex both sides move the extension header to the same place, and the packet comes back |
| AeadPackets.OpenOfProtectAead | srtp/srtp.c:2306-2576 | a sealed packet opens to exactly what was sent if and only if the receiver sees the same use of cryptex and can handle CSRCs in place |
| AeadPackets.CsrcsNeedOneBuffer | srtp/srtp.c:2415-2426 | a packet with one CSRC under cryptex that opens in place and does not open between buffers |
| AeadPackets.AeadRoundTrip | srtp/srtp.c:2090-2576 | the whole receiver undoes the whole sender under the same condition, with every MKI and with the counter in mode 3 |
| AeadFormats.SealedPlain | srtp/srtp.c:2090-2304 | what is sent: the header with its encrypted elements, the payload sealed with that header as associated data, MKI and carried counter |
| AeadFormats.SealedCryptex | srtp/srtp.c:2090-2304 | with cryptex: the fixed header and the extension header with its new profile are associated data, CSRCs and everything behind are sealed and sent around it; and every error |
| AeadFormats.OpenedAead | srtp/srtp.c:2306-2576 | for any octets that arrive: which check decides, what is opened with which associated data, and what is handed up |
| AeadCode.SealInto | srtp/srtp.c:2254-2272 | sealing in the output buffer with the header as associated data |
| AeadCode.SealCryptex | srtp/srtp.c:2246-2277 | sealing around the two moves, with the profile replaced |
| AeadCode.SealBodyInto | srtp/srtp.c:2212-2277 | the sealed packet before MKI and counter, with its errors |
| AeadCode.Protect | srtp/srtp.c:2090-2297 | srtp_protect_aead on buffers is the value-level sender |
| AeadCode.OpenMoved | srtp/srtp.c:2477-2516 | opening a cryptex packet in one buffer |
| AeadCode.OpenPacket | srtp/srtp.c:2393-2576 | opening with every error |
| AeadCode.Unprotect | srtp/srtp.c:2306-2576 | srtp_unprotect_aead on buffers is the value-level receiver |
| RtcpReplay.PassesIffNew | crypto/replay/rdb.c:74-93 | an SRTCP index passes if and only if it is new and less than 128 behind everything seen |
| RtcpReplay.AddTracks | crypto/replay/rdb.c:103-126 | recording keeps the window in step with everything seen |
| RtcpReplay.NoRtcpIndexAcceptedTwice | crypto/replay/rdb.c:74-126 | over every sequence of arrivals at one database no SRTCP index is accepted twice |
| RtcpReplay.IssuedAreConsecutive | crypto/replay/rdb.c:128-135 | a sender's indices are consecutive and stop at 2^31 - 1 |
| RtcpReplay.RtcpDb.Check | crypto/replay/rdb.c:74-93 | the bit vector code gives the status of the window |
| RtcpReplay.RtcpDb.Add | crypto/replay/rdb.c:103-126 | the shifts of the 128-bit vector record the index; an index before the window is refused |
| RtcpReplay.RtcpDb.Increment | crypto/replay/rdb.c:128-135 | counts up, and refuses at the last index |
| SrtcpPackets.RtcpIvIsCmIv | srtp/srtp.c:4457-4467 | the SRTCP IV is the SRTP IV of the same number |
| SrtcpPackets.TrailerFields | srtp/srtp.c:4418-4452 | E bit and index come back out of the trailer word |
| SrtcpPackets.RtcpRoundTrip | srtp/srtp.c:4299-4838 | the SRTCP receiver undoes the sender for the layout body, E and index, MKI, tag, encrypted or only authenticated |
| SrtcpPackets.RtcpAeadIvInjective | srtp/srtp.c:3897-3936 | different SSRCs or indices give different IVs (section 9.1 of RFC 7714) |
| SrtcpPackets.RtcpAeadRoundTrip | srtp/srtp.c:3942-4297 | the same for the layout body, tag, E and index, MKI under AES-GCM |
| SrtcpFormats.SentRtcp | srtp/srtp.c:4299-4544 | what is sent: octets from 8 on under the keystream of the index if confidentiality is on, E bit and index, MKI, and the leading octets of the authentication function over packet and index word |
| SrtcpFormats.RtcpTagDecides | srtp/srtp.c:4546-4838 | for any octets that arrive: length, E bit, index and tag decide in this order; refused for the tag if and only if it differs from the authentication function over packet and index word; and what is handed up |
| SrtcpFormats.RtcpAeadIvIs | srtp/srtp.c:3897-3936 | section 9.1 of RFC 7714 on numbers: the IV under the salt is SSRC times 2^48 plus SRTCP index |
| SrtcpFormats.SealedRtcpIs | srtp/srtp.c:3942-4103 | with confidentiality octets from 8 on are sealed and the first 8 and the index word are associated data; without it the whole packet and the word are |
| SrtcpFormats.OpenedRtcpIs | srtp/srtp.c:4105-4297 | the E bit of the packet says which of the two it is opened as; and every error |
| SrtcpCode.Protect | srtp/srtp.c:4299-4544 | srtp_protect_rtcp on buffers, aliased or not, is the value-level sender |
| SrtcpCode.OpenPacket | srtp/srtp.c:4645-4790 | the part of srtp_unprotect_rtcp behind the choice of the key |
| SrtcpCode.Unprotect | srtp/srtp.c:4546-4838 | srtp_unprotect_rtcp on buffers is the value-level receiver |
| SrtcpCode.ProtectAead | srtp/srtp.c:3942-4097 | srtp_protect_rtcp_aead on buffers is the value-level sender |
| SrtcpCode.UnprotectAead | srtp/srtp.c:4105-4297 | srtp_unprotect_rtcp_aead on buffers is the value-level receiver |
| Sessions.FindStream | srtp/srtp.c:5242-5255 | the first stream with the SSRC, or none |
| Sessions.PristineEstimate | srtp/srtp.c:3031-3037 | on a pristine stream the index is the sequence number itself, which is what the code takes for a provisional stream without looking at the database |
| Sessions.SendFits | srtp/srtp.c:2712-2720 | a stream's own trailer length is enough room, and bounds the growth, for every mode and sequence number |
| Sessions.TrailerIsEnough | srtp/srtp.c:4912-5006 | a buffer with the reported trailer length is never too small, for any packet of any stream, and no packet grows by more |
| Sessions.ControlGrowsByTrailer | srtp/srtp.c:4912-4950 | an SRTCP packet grows by exactly the reported length, and the buffer is too small only below that |
| SessionLaws.GrowsByTrailer | srtp/srtp.c:4912-4950 | an RTP packet grows by exactly the trailer length of its stream, except that in mode 1 a packet that does not carry has no tag, and in mode 3 no counter |
| SessionLaws.TrailerIsReached | srtp/srtp.c:4952-5006 | the length reported for a session is that of one of its streams or of the template |
| SessionLaws.SetRocDecides | srtp/srtp.c:5087-5101 | after srtp_stream_set_roc the next packet of the stream passes if and only if the index that the counter and its sequence number make is new and in the window; it is used at that index, and the newest index moves up to it; other streams are untouched |
| SessionLaws.CounterAfterwards | srtp/srtp.c:3360-3366 | a packet more than 2^15 ahead takes up the counter, and the stream counts on from there; otherwise the counter stays for the packets to come |
| SessionLaws.SentAfterSetRoc | srtp/srtp.c:2064-2083 | the two calls in a row on a session: the packet is sent at that index, and the stream goes on from there |
| SessionLaws.ReceivedAfterSetRoc | srtp/srtp.c:2064-2083 | so it is for a received packet that carries no counter itself |
| SessionLaws.SentIs | srtp/srtp.c:2578-2936 | what srtp_protect sends on a session: under the key with the given number, at the index of its own stream, or of a new one with the settings and keys of the template; only that stream changes |
| SessionLaws.ReceivedIs | srtp/srtp.c:2938-3371 | what srtp_unprotect accepts: with the first key that has its MKI, at the place found from the stream and the counter that the packet carries; only that stream changes |
| SessionLaws.ControlSentIs | srtp/srtp.c:4299-4544 | the same for srtp_protect_rtcp, with the next index |
| SessionLaws.ControlReceivedIs | srtp/srtp.c:4546-4838 | and for srtp_unprotect_rtcp |
| SessionLaws.AcceptedIsAuthentic | srtp/srtp.c:2938-3371 | whatever a session accepts with authentication on ends in the tag that a key of its stream gives to the packet and the rollover counter of the index it is put at |
| Directions.OneDirection | srtp/srtp.c:2661-2668 | over any run of calls no SSRC both sends a packet and accepts one, RTP and RTCP together, unless its stream is removed in between |
| Directions.RefusedByDirection | srtp/srtp.c:2617-2668 | which error the wrong direction and an unknown SSRC get, as if-and-only-if |
| SessionRuns.StreamTakes | srtp/srtp.c:2771-2793 | an index at which a stream lets a packet pass was never used on its SSRC, and taking it keeps the window in step |
| SessionRuns.ReceivingInStep | srtp/srtp.c:2938-3030 | a packet of an unknown SSRC can be checked against the template, because nothing was ever received on that SSRC |
| SessionRuns.CallStepsWell | srtp/srtp.c:2578-3371 | every call of the library keeps the session in step with the indices used by packets that were sent or accepted, and uses none again |
| SessionRuns.RunInStep | srtp/srtp.c:2578-3371 | so does every run of calls, with streams made from the template and removed on the way |
| SessionRuns.NoIndexUsedTwice | srtp/srtp.c:2771-2793 | over any run, with failed calls and set counters in between, an SSRC sends or accepts two packets with the same index only if its stream is removed between them |
| SessionRuns.NoNonceUsedTwice | srtp/srtp.c:2771-2810 | the same for the 48-bit index, as long as all streams stay below 2^48 |
| SessionRuns.NoAeadIvUsedTwice | srtp/srtp.c:1904-1938 | so under AES-GCM no IV comes up twice among the packets that are sent or accepted under a key; refused packets, which are opened under the IV of the index they claim, are not counted |
| SessionRuns.RemovalForgets | srtp/srtp.c:3573-3598 | removing a stream made from the template takes the session back to before its first packet |
| SessionRuns.RemovalRepeatsIndex | srtp/srtp.c:3573-3598 | sending a packet, removing its stream and sending it again uses one index twice |
| KeystreamRuns.BlocksNeverMeet | srtp/srtp.c:2795-2810 | counter blocks of packets with different SSRC or index never meet |
| KeystreamRuns.BlocksOfPacketDiffer | crypto/cipher/aes_icm.c:317-322 | within a packet the block counter does not come round |
| KeystreamRuns.LogGrows | crypto/cipher/aes_icm.c:267-283 | the blocks of a new packet are new to the log of a cipher, and no two of them are equal |
| KeystreamRuns.TakesUp | srtp/srtp.c:2771-2793 | an index that a stream takes up is new among all streams that share the keys, as long as they stay below 2^48 |
| KeystreamRuns.UsesKeystream | srtp/srtp.c:2795-2882 | a packet that is sent or accepted keeps the logs of both ciphers of all keys free of repetitions |
| KeystreamRuns.OpenSpentWithin | srtp/srtp.c:3281-3313 | what a received packet takes from both ciphers is within reach of their block counters |
| KeystreamRuns.RefusedBlocks | srtp/srtp.c:3281-3313 | a packet that is refused has made the packet cipher encrypt blocks if and only if it stops at the CSRCs, and the header extension cipher if and only if that is not the null cipher and the packet stops at the elements |
| KeystreamRuns.RefusedUsesNothing | srtp/srtp.c:3031-3313 | a packet that is refused leaves the logs of both ciphers of every key as they were if and only if it was not refused halfway |
| KeystreamRuns.LongPacketStopsHalfway | srtp/srtp.c:267-288 | a cryptex packet of 2^20 octets with one CSRC, without authentication and between buffers, is refused after its CSRC was decrypted |
| KeystreamRuns.MalformedStopsHalfway | srtp/srtp.c:3281-3288 | a packet of 20 octets whose second header extension element is too long, without authentication, is refused after its first element has taken keystream |
| KeystreamRuns.HalfwayRepeatsBlocks | srtp/srtp.c:267-288 | when a packet that is refused halfway is opened twice, the log of the cipher that it stops at has a block twice |
| KeystreamRuns.SafeIsNotHalfway | srtp/srtp.c:3281-3313 | on a stream without encrypted header extension elements, no packet is refused halfway without cryptex, without confidentiality or in one buffer |
| KeystreamRuns.KeySharers.Protect | srtp/srtp.c:2578-2936 | srtp_protect on real contexts and buffers, with a new stream for a new SSRC, keeps the indices in step and the logs of both ciphers free of repetitions |
| KeystreamRuns.KeySharers.Unprotect | srtp/srtp.c:2938-3371 | so does srtp_unprotect, unless it refuses a packet halfway, which is said exactly; then no stream changes and the logs grow by exactly the blocks of that packet |
| KeystreamRuns.KeySharers.SetRoc | srtp/srtp.c:5087-5101 | and srtp_stream_set_roc; the counter decides the index of every packet that can come next, and other streams are untouched |
| KeystreamRuns.Run | crypto/cipher/aes_icm.c:267-283 | over any run of these calls on any number of streams that share the keys, no block goes twice through the block function of a packet cipher or of a header extension cipher, as long as the streams stay below 2^48 and no packet is refused halfway; runs that only send refuse none halfway, nor do runs without encrypted elements that receive in place, without cryptex or without confidentiality |
| KeystreamRuns.ArrivesTwice | srtp/srtp.c:2938-3371 | two srtp_unprotect calls on a packet that is refused halfway, in any state of the session: the cipher at which it stops has encrypted a block twice |
| KeystreamRuns.LongPacketTwice | srtp/srtp.c:267-288 | so it is for the long cryptex packet on a new stream, and the packet cipher |
| KeystreamRuns.MalformedTwice | srtp/srtp.c:1781-1873 | and for the malformed header extension, and the header extension cipher |
| ControlRuns.EveryCallSteps | srtp/srtp.c:4299-4838 | every call keeps the SRTCP counters and windows of a session in step with the indices used, and uses none again |
| ControlRuns.NoControlIndexUsedTwice | srtp/srtp.c:4299-4838 | over any run an SSRC sends or accepts two SRTCP packets with the same index only if its stream is removed between them |
| ControlRuns.NoControlIvUsedTwice | srtp/srtp.c:3897-3936 | so no SRTCP IV comes up twice among the packets that are sent or accepted under a key, in counter mode or GCM |
| Delivery.SentIsWrapped | srtp/srtp.c:2578-2936 | whatever a stream sends is protected under one of its keys at the index it was admitted to |
| Delivery.StreamHandles | srtp/srtp.c:2938-3371 | a stream hands up exactly what was sent if the index is new to it, and else refuses the packet, in counter mode and GCM |
| Delivery.ProtectServesAlike | srtp/srtp.c:2620-2670 | sending changes nobody's settings and keys, also when it makes a stream from the template |
| Delivery.AcceptServesAlike | srtp/srtp.c:3320-3354 | nor does accepting a packet |
| Delivery.ArrivalOutcome | srtp/srtp.c:2938-3371 | on a session, a new packet is handed up as sent, and any other one refused |
| Delivery.RunLinked | srtp/srtp.c:2578-3371 | over every run between two sessions everything underway stays readable and everything handed up was sent |
| Delivery.DeliveredOnceAndUnchanged | srtp/srtp.c:2578-3371 | through a network that loses, repeats and reorders, whatever is handed up is what was sent, and nothing is handed up twice |
| Delivery.HandedUpIffNew | srtp/srtp.c:2578-3371 | at any point of such a run an arriving packet is handed up if and only if its index was not handed up before and has not left the window |
| Streams.Dealloc | srtp/srtp.c:377-511 | frees exactly the blocks that the stream does not share with the template, each once |
| Streams.SharedOwn | srtp/srtp.c:377-511 | for a stream made from the template these are its MKIs, its arrays and itself |
| Streams.IndependentOwn | srtp/srtp.c:377-511 | a stream with its own keys owns the same blocks whatever the template is |
| Streams.CloneStream | srtp/srtp.c:722-827 | a stream that shares all key objects of the template and has empty replay databases |
| Streams.AllocStream | srtp/srtp.c:554-712 | a stream with new key objects for every master key |
| Streams.StreamList.constructor | srtp/srtp.c:5134-5155 | an empty list |
| Streams.StreamList.Grow | srtp/srtp.c:5174-5218 | doubling the array keeps the streams and frees the old array |
| Streams.StreamList.Insert | srtp/srtp.c:5174-5218 | appends the stream, with room made if there is none |
| Streams.StreamList.Remove | srtp/srtp.c:5225-5240 | the loop removes the first stream with the SSRC and keeps the order of the rest |
| Streams.StreamList.Get | srtp/srtp.c:5242-5255 | the first stream with the SSRC, or none |
| SessionCode.SessionContext.constructor | srtp/srtp.c:3518-3571 | an empty session that accounts for its blocks |
| SessionCode.SessionContext.Protect | srtp/srtp.c:2578-2936 | the call on the list and the template is the call on session values, and memory stays accounted for |
| SessionCode.SessionContext.ProtectControl | srtp/srtp.c:4299-4544 | the same for SRTCP |
| SessionCode.SessionContext.Unprotect | srtp/srtp.c:2938-3371 | the same for receiving; a refused packet leaves streams, databases, pending counters, directions, list and memory as they were, and the template pristine |
| SessionCode.SessionContext.UnprotectControl | srtp/srtp.c:4546-4838 | the same for SRTCP |
| SessionCode.SessionContext.SetRoc | srtp/srtp.c:5087-5101 | only the pending counter of the stream changes; an unknown SSRC is an error |
| SessionCode.SessionContext.AddStream | srtp/srtp.c:3449-3516 | the new stream is last and shares nothing with the template |
| SessionCode.SessionContext.AddTemplate | srtp/srtp.c:3449-3516 | sets the template if there is none; otherwise the new stream is freed again |
| SessionCode.SessionContext.RemoveStream | srtp/srtp.c:3573-3598 | the stream leaves the list and its own blocks are freed, the template's stay |
| SessionCode.SessionContext.RemoveAll | srtp/srtp.c:544-552 | the iteration whose callback removes the current entry empties the list |
| SessionCode.SessionContext.Destroy | srtp/srtp.c:3412-3447 | every block that the session holds is freed, each exactly once |
| SessionCode.SessionContext.TrailerLength | srtp/srtp.c:4976-5006 | the iteration over the list computes the longest trailer |
| SessionCode.IndependentIsNotShared | srtp/srtp.c:3630-3679 | a stream with keys of its own never looks like a clone of the template |
| Rekeying.AuthTellsClones | srtp/srtp.c:3630-3679 | comparing the first authentication object tells exactly whether a stream shares everything with the template |
| Rekeying.RekeyOne | srtp/srtp.c:3630-3679 | a clone is replaced by a clone of the new template with its packet index, SRTCP database and direction, and freed; any other stream is kept |
| Rekeying.RekeyAll | srtp/srtp.c:5257-5283 | the iteration visits each stream exactly once although every callback removes one, and keeps the order |
| Rekeying.RekeySession | srtp/srtp.c:3719-3786 | the new list and template take the place of the old ones, which are freed |
| Rekeying.UpdateTemplate | srtp/srtp.c:3681-3786 | each stream keeps its place, SSRC, direction, packet index and SRTCP database, streams with keys of their own stay the same objects, incompatible policies change nothing, and no block is leaked or freed twice |
| SessionLaws.RekeyedGoesOn | srtp/srtp.c:3630-3679 | a stream of the old template has the keys and settings of the new one, and its next packet the index that it would have had; other streams are left alone |
| Sha1.LogicalFunctions | crypto/hash/sha1.c:63-66 | the logical functions written with "or" are those of section 4.1.1 of FIPS 180-4 |
| Sha1.Run | crypto/hash/sha1.c:91-212 | the schedule and the four loops of rounds are the compression of section 6.1.2 of FIPS 180-4 |
| Sha1.PaddedShape | crypto/hash/sha1.c:278-400 | the padding is the octet 0x80, as many zeros as the last block needs and no more, and the length in bits |
| Sha1Example.HashOfMessage | crypto/test/sha1_driver.c:166 | the definition gives the published hash of the message a8 |
| Sha1Code.PaddingAgrees | crypto/hash/sha1.c:278-463 | the padding with a 32-bit length is that of section 5.1.1 of FIPS 180-4 if and only if the message has less than 2^29 octets |
| Sha1Code.HashHereIsSha1 | crypto/hash/sha1.c:278-463 | for these messages the result is SHA-1 |
| Sha1Code.Context.Init | crypto/hash/sha1.c:214-228 | the context stands for the empty message |
| Sha1Code.Context.Update | crypto/hash/sha1.c:230-271 | the context stands for the message with the new octets behind it, for every number of buffered octets |
| Sha1Code.Context.Pad | crypto/hash/sha1.c:278-463 | the last words, with the mark in the right octet and the length if there is room |
| Sha1Code.Context.Final | crypto/hash/sha1.c:278-463 | the hash of everything taken in, with one or two last blocks |
| Sha1Code.HashChunks | crypto/hash/sha1.c:214-463 | however a message is cut into updates, the result is the hash of the whole |
| HmacCode.HmacHereIsHmac | crypto/hash/hmac.c:115-229 | the value is HMAC-SHA1 (section 2 of RFC 2104) |
| HmacCode.HmacByPads | crypto/hash/hmac.c:120-215 | RFC 2104 with the two pads written out octet by octet |
| HmacCode.Authenticator.Init | crypto/hash/hmac.c:115-155 | keys of at most 20 octets are taken, and a message can begin |
| HmacCode.Authenticator.Start | crypto/hash/hmac.c:157-164 | whatever was computed before, a new message begins |
| HmacCode.Authenticator.Update | crypto/hash/hmac.c:166-179 | takes in more of the message |
| HmacCode.Authenticator.Compute | crypto/hash/hmac.c:181-229 | the leading octets of the HMAC value of the joined message; the context can be used again |
| HmacCode.Sign | crypto/hash/hmac.c:157-229 | one keyed context gives the right tag for each of any number of messages, however they are cut |
| Aes.RowsShift | crypto/cipher/aes.c:1698-1732 | row r of the state moves r places (section 5.1.2 of FIPS 197) |
| Aes.SboxIsInverse | crypto/cipher/aes.c:1177-1210 | all 256 entries of the S-box are the multiplicative inverse in GF(2^8), or 0, under the affine transformation of section 5.1.1 of FIPS 197 |
| Aes.TableT0 | crypto/cipher/aes.c:67-132 | all 256 entries of the first table are the S-box value times the first column of MixColumns |
| Aes.TableT1 | crypto/cipher/aes.c:136-201 | the second table |
| Aes.TableT2 | crypto/cipher/aes.c:205-270 | the third table |
| Aes.TableT3 | crypto/cipher/aes.c:274-339 | the fourth table |
| AesCode.TableColumnIs | crypto/cipher/aes.c:1648-1671 | four lookups and a round key word are SubBytes, MixColumns and AddRoundKey of a column |
| AesCode.Round | crypto/cipher/aes.c:1648-1671 | the table round is SubBytes, ShiftRows, MixColumns and AddRoundKey for every state |
| AesCode.FinalRound | crypto/cipher/aes.c:1698-1732 | the swaps in place are SubBytes, ShiftRows and AddRoundKey |
| AesCode.Expand128 | crypto/cipher/aes.c:1404-1443 | all eleven round keys are those of section 5.2 of FIPS 197 |
| AesCode.Expand256 | crypto/cipher/aes.c:1445-1496 | all fifteen round keys, with the alternating steps of the loop |
| AesCode.ExpandKey | crypto/cipher/aes.c:1498-1515 | the key length decides; other lengths are an error |
| AesCode.Encrypt | crypto/cipher/aes.c:2102-2130 | the block is encrypted as section 5.1 of FIPS 197 says |
| AesExample.EncryptsExample | crypto/test/aes_calc.c:48-55 | the definition encrypts the first test case of FIPS 197 as published, round by round |
| AesExample.NextLongWord | crypto/cipher/aes.c:1445-1500 | the words of an expanded key of 256 bits, with their extra substitution |
| Primitives.EncryptBlock | crypto/cipher/aes_icm.c:267-283 | the block function of counter mode is AES as implemented |
| Primitives.KeyAndSalt | crypto/cipher/aes_icm.c:182-230 | the block function is AES under the first part of the key, and the offset is the 14-octet salt with two zero octets |
| Primitives.Authenticate | crypto/hash/hmac.c:181-229 | a packet's tag is the start of the HMAC value as implemented |

## Left out

- The policy API, the crypto kernel, self-checks, events, logging and user data: tables and plumbing.
- Key derivation: session keys are parameters; the streams of a template share them.
- Key usage limits: all calls come before the first limit event.
- AES-GCM itself and the OpenSSL, wolfSSL, mbedTLS and NSS back ends: an abstract cipher for which opening undoes sealing.
- AES decryption, AES-192, and the RISC, 16-bit and big-endian forms of the rounds.
- srtp_stream_update for a single SSRC: the update of one stream instead of all streams of the template.
- Allocation failures, overwriting of freed keys, and timing.
- What a failed call leaves in the output buffer; the session itself is covered.
- Authentication functions with a keystream prefix (a prefix length other than 0).
- The index as a 64-bit word: it is a natural number; the 48-bit and 16-bit truncations of the code are written out.
- SessionCode.SessionContext.Protect: works on packet values; buffers and cipher contexts are in SrtpCode, AeadCode, SrtcpCode and KeystreamRuns, which meet the same functions.
- SessionCode.SessionContext.ProtectControl: works on packet values, as SessionContext.Protect does.
- SessionCode.SessionContext.Unprotect: works on packet values, as SessionContext.Protect does.
- SessionCode.SessionContext.UnprotectControl: works on packet values, as SessionContext.Protect does.
- SessionRuns.NoAeadIvUsedTwice: does not count packets that are refused; they are opened under the nonce of the index that they claim, and nothing is put on record.
- KeystreamRuns.Run: counter mode only, so not the header extension cipher of AES-GCM streams; streams are neither removed nor re-keyed on the way, and none may repeat an index; directions are left to Sessions.
- RtcpReplay.NoRtcpIndexAcceptedTwice: about one database; ControlRuns.NoControlIndexUsedTwice is about sessions.
- Delivery.HandedUpIffNew: no rollover counter is pending at the receiver, and a packet without a carried counter is at most about 2^15 indices away; farther away the estimate is another index, and only the tag stands against it.
