# lorawan-send-payload, modelled in Dafny

`lorawan-send-payload` is a LoRaWAN end-device simulator. It joins a
network over the air (OTAA), sends periodic data uplinks, and talks to a
gateway over the Semtech UDP packet-forwarder protocol. This project models
its core and proves properties of the model:

- **AES-CMAC** (`crypto.dfy`, module `Crypto`). AES-128 is an abstract keyed
  permutation of 16-byte blocks (`BlockCipher`). The ECB wrappers are built on
  it, and so is the from-scratch CMAC of `aesCmac`, which has four parts:
  - the `leftShift` loop;
  - K1/K2 derivation by doubling;
  - the `0x80`/zero padding;
  - the in-place XOR of the last block, then the CBC-MAC loop.

  The imperative parts (`LeftShift`, `XorLastBlock`, `XorInto`, `CbcMac`,
  `AesCmac`) are methods over arrays, proved against pure functions
  (`ShiftedLeft`, `LastBlockXored`, `CbcChain`, `CmacAsWritten`). Those
  functions' properties are proved as lemmas. `Rfc4493Cmac` is the algorithm
  of section 2.4 of RFC 4493, beside the code's version (see Findings).
- **The session record** (`device_state.dfy`, module `DeviceStateModel`). The
  global `deviceState` is a class whose constructor builds the initial record.
  `DeviceRecord` is the same fields as one value.
- **LoRaWAN device logic** (`lorawan.dfy`, module `LoRaWAN`), covering:
  - the DevNonce encoders;
  - `createJoinRequest`;
  - the gating and updates of `processJoinAccept`, `createDataUplink` and
    `processDataDownlink`.

  The `lora-packet` library is a parameter (`LoraPacket`). Each operation on
  the record is a pure step function plus a method on `DeviceState` that is
  proved to perform that step. The simulator's routing of received payloads
  and its uplink timer are step functions too. Lemmas about runs of events
  use them.
- **Packet-forwarder framing** (`packet_forwarder.dfy`, module
  `PacketForwarder`). This covers PULL_DATA, PUSH_DATA and TX_ACK as encoders
  of (token, gateway EUI, body) to bytes. It also covers the receive handler
  as `Dispatch`, from a datagram to the actions taken: send a TX_ACK, deliver
  a PHY payload. JSON, base64 and UTF-8 are a parameter (`JsonCodec`).
- **Helpers** (`utils.dfy`, module `HexUtils`; `util.dfy`, module
  `PrintableUtil`). These are `hexToBytes` (including `parseInt`'s lenient
  reading of non-hex characters below U+10000) and `bytesToHex`, with both round trips. They also
  include the two printable-character tests and `getPrintableBuf`.

A byte is a number from 0 to 255 (`Bytes.byte`), as in a Node `Buffer`. The
source's bit operations are stated as arithmetic: `^` is `XorByte`, and
`((b << 1) | carry) & 0xFF` is `ShiftByte`. Tokens and DevNonces are
`uint16`, the values `writeUInt16LE` accepts.

## Model

| member | source | states |
|---|---|---|
| Crypto.Aes128Encrypt | src/crypto.ts:4-8 | fails with an invalid-key error unless the key is 16 bytes and with a final-block error unless the input is whole blocks (auto-padding off); otherwise the output is as long as the input |
| Crypto.Aes128Decrypt | src/crypto.ts:10-14 | the same failure conditions and length preservation for decryption |
| Crypto.EcbInverse | src/crypto.ts:4-14 | ECB decryption undoes ECB encryption block by block under the same key, given a cipher that is a permutation |
| Crypto.DecryptInvertsEncrypt | src/crypto.ts:4-14 | whenever encryption succeeds, decrypting its output under the same key succeeds and returns the plaintext |
| Crypto.EncryptOneBlock | src/crypto.ts:4-8 | encrypting a single block is one application of the block cipher |
| Crypto.ShiftByteValue | src/crypto.ts:29-30 | one shifted byte is twice the byte, less 256 when its top bit was set, plus the incoming carry |
| Crypto.ShiftedLeftAt | src/crypto.ts:28-32 | byte i of the shift is byte i moved up one bit, with the top bit of byte i+1 carried into bit 0 |
| Crypto.ShiftedLeftValue | src/crypto.ts:25-34 | as a big-endian number the shifted buffer is twice the input, less 2^(8n) when the top bit was set: a shift of the whole value with the top bit dropped |
| Crypto.LeftShift | src/crypto.ts:25-34 | the loop from the last byte to the first, carrying the top bit, yields exactly the shifted buffer, of the same length |
| Crypto.DoubleSpec | src/crypto.ts:36-39 | the code's single-byte `[15] ^= 0x87` is the doubling of section 2.3 of RFC 4493 on whole blocks: the shift, XORed with R_128 = 0^120 0x87 exactly when the most significant bit of the input is set |
| Crypto.DoubleBlock | src/crypto.ts:36-39 | the shift followed by the conditional in-place `[15] ^= 0x87` computes the doubling |
| Crypto.DeriveSubkeys | src/crypto.ts:36-45 | K1 is L doubled and K2 is K1 doubled, by the same rule |
| Crypto.PaddingShape | src/crypto.ts:48-56 | an incomplete message is padded to the next multiple of 16: the input as a prefix, then 0x80, then zeros |
| Crypto.PaddedLength | src/crypto.ts:48-56 | the padded length is a multiple of 16 and is zero only for the empty message |
| Crypto.XorLastBlock | src/crypto.ts:58-63 | the XOR through the `slice(-16)` view changes `padded` itself: the last 16 bytes (all of a shorter buffer) are XORed with the subkey, the rest stays |
| Crypto.SubkeyChoice | src/crypto.ts:58-63 | for a non-empty message the last block is XORed with K1 when the length is a multiple of 16 and with K2 otherwise; earlier bytes are untouched |
| Crypto.XorInto | src/crypto.ts:68-71 | the inner loop XORs the chaining value into the 16-byte view at the offset and leaves every other byte of the buffer as it was |
| Crypto.CbcMac | src/crypto.ts:65-73 | the loop's final `c` is the CBC chain c0 = 0^128, c(i+1) = AES(key, block(i) XOR c(i)) over the padded message |
| Crypto.CbcChainOneBlock | src/crypto.ts:67-72 | one round of the chain enciphers the block XOR the chaining value |
| Crypto.CbcChainAppend | src/crypto.ts:66-73 | appending a block to the message adds one round: AES(key, block XOR the previous tag) |
| Crypto.AesCmac | src/crypto.ts:17-76 | the tag is exactly the function of key and data described above, 16 bytes, or the key-length error; `data` is read only, since the method may not modify it |
| Crypto.EmptyMessageTagIsZero | src/crypto.ts:48-75 | for the empty message the tag is 16 zero bytes, whatever the key and the cipher |
| Crypto.Rfc4493Cmac | src/crypto.ts:17-76 | the RFC 4493 definition fails only on a bad key length and equals the code's tag on every non-empty message |
| Crypto.Rfc4493EmptyMessage | src/crypto.ts:48-63 | under RFC 4493 the empty message is padded to 0x80 0^120, XORed with K2 and enciphered once |
| Crypto.EmptyMessageDeviation | src/crypto.ts:48-75 | there is a permutation (the identity) for which the code's tag of the empty message differs from RFC 4493's |
| Bytes.ReadU16Le | src/packet-forwarder.ts:137 | `readUInt16LE` yields a 16-bit value whose low byte is the byte at the offset and whose high byte is the next one |
| Bytes.U16LeRoundTrip | src/packet-forwarder.ts:12-16 | a token written little-endian at any offset is read back unchanged by the little-endian read at that offset |
| LoRaWAN.GetDevNonceBufferLe | src/lorawan.ts:8-12 | a RangeError outside 0..65535; otherwise two bytes, `n & 0xFF` then `n >> 8` |
| LoRaWAN.GetDevNonceBufferBe | src/lorawan.ts:14-18 | a RangeError outside 0..65535; otherwise two bytes, `n >> 8` then `n & 0xFF` |
| LoRaWAN.DevNonceEncodings | src/lorawan.ts:8-18 | the big-endian buffer is the little-endian one reversed, and the little-endian buffer reads back as n |
| LoRaWAN.CreateJoinRequest | src/lorawan.ts:21-56 | an out-of-range DevNonce throws a RangeError; otherwise the library gets the decoded AppEUI, DevEUI and AppKey and the little-endian DevNonce, and its PHY payload is returned unchanged, or the call throws when there is none |
| LoRaWAN.JoinAcceptStep | src/lorawan.ts:59-102 | accepted exactly when the frame has at least 12 bytes, parses as a Join Accept and decrypts; refused with the record unchanged otherwise; on acceptance the address and both session keys (derived with the recorded DevNonce, little-endian) are stored, the device is activated, both counters are 0 (on a re-join too) and the DevNonce and RX delays are kept |
| LoRaWAN.ProcessJoinAccept | src/lorawan.ts:59-102 | the result and the new record are those of the step above, applied to the old record |
| LoRaWAN.UplinkStep | src/lorawan.ts:105-144 | null exactly when there is no session; a throw only for a missing PHY payload; fCntUp goes up by exactly 1 when a frame is returned and nothing else changes; otherwise nothing changes; the frame is the library's for the stored address and keys |
| LoRaWAN.CreateDataUplink | src/lorawan.ts:105-144 | the result and the new record are those of the uplink step, applied to the old record |
| LoRaWAN.UplinkFrameIgnoresCounter | src/lorawan.ts:119-134 | the frame does not depend on fCntUp: FCnt is written as the constant 1 |
| LoRaWAN.DownlinkStep | src/lorawan.ts:146-157 | false exactly when there is no session; otherwise always the "not implemented" throw |
| LoRaWAN.ProcessDataDownlink | src/lorawan.ts:146-157 | returns the downlink step's result; the method cannot change the record |
| LoRaWAN.StartJoin | src/simulator.ts:31-33 | the fresh DevNonce is stored, nothing else in the record changes, and the Join Request is built with that DevNonce |
| LoRaWAN.ReceiveStep | src/simulator.ts:57-65 | a received payload never changes an activated record; before activation it changes the record only by activating it; consistency is kept |
| LoRaWAN.TickStep | src/simulator.ts:43-53 | the uplink timer does nothing before activation; when a frame is sent the record had a session and only fCntUp went up by 1; when none is sent nothing changes |
| LoRaWAN.Run | src/simulator.ts:43-65 | a run never sends more frames than it has events |
| LoRaWAN.OnPullResp | src/simulator.ts:57-65 | a delivered payload goes to the downlink path when activated and to Join Accept processing before, with exactly that effect on the record |
| LoRaWAN.RunKeepsConsistent | src/lorawan.ts:88-94 | over any run of timer ticks and received payloads, an activated record always has an address and both session keys |
| LoRaWAN.ActivatedSessionIsStable | src/simulator.ts:43-65 | once activated, the address, keys and fCntDown never change, and fCntUp grows by exactly the number of frames sent |
| LoRaWAN.UnjoinedDeviceSendsNothing | src/simulator.ts:43-53 | before activation the uplink timer sends nothing and leaves the record as it is |
| DeviceStateModel.DeviceState.constructor | src/device-state.ts:4-14 | the initial record: not activated, no address or keys, DevNonce and both counters 0, RX delays 1 and 2 |
| DeviceStateModel.InitialRefusesFrames | src/device-state.ts:4-14 | the initial record is consistent and has no session, so uplinks and downlinks start out refused |
| PacketForwarder.PullDataPacket | src/packet-forwarder.ts:10-21 | version 2, the token little-endian in bytes 1-2 (reading back as the token), identifier 0x02, then the gateway EUI and nothing more |
| PacketForwarder.RxpkFor | src/packet-forwarder.ts:44-58 | the record's size is the PHY payload's length and its data the payload's base64 text |
| PacketForwarder.PushDataPacket | src/packet-forwarder.ts:60-73 | version 2, the token little-endian, identifier 0x00, the gateway EUI, then the JSON of `{rxpk: [rxpk]}` |
| PacketForwarder.PushDataCarriesPayload | src/packet-forwarder.ts:56-57 | given base64 that round-trips, the PHY payload is recovered from the record's data field |
| PacketForwarder.AsciiBytes | src/packet-forwarder.ts:95-100 | `Buffer.from` of ASCII text is one byte per character, with the character's code |
| PacketForwarder.TxAckPacket | src/packet-forwarder.ts:88-106 | version 2, exactly the given token little-endian, identifier 0x05, the gateway EUI, then the `txpk_ack` JSON |
| PacketForwarder.Dispatch | src/packet-forwarder.ts:125-178 | actions are produced exactly when the datagram has at least 4 bytes, is a PULL_RESP, and its body parses with a `txpk` that has `data`; they are then a TX_ACK with the received token followed by the delivery of the base64 decoding of `txpk.data`; short datagrams, other identifiers, parse failures and a missing `txpk` or `data` give none |
| PacketForwarder.HandleMessage | src/packet-forwarder.ts:129-177 | the handler's branches produce exactly the dispatch actions, in order |
| PacketForwarder.PullRespIsAcknowledged | src/packet-forwarder.ts:153-172 | a PULL_RESP whose body has a `txpk` with data yields a TX_ACK with the same token, then the decoded payload, once each |
| PacketForwarder.TxAckEchoesToken | src/packet-forwarder.ts:137-168 | the TX_ACK sent in reply reads back as the token of the datagram that caused it |
| PacketForwarder.VersionIsNotChecked | src/packet-forwarder.ts:136-143 | changing the protocol-version byte never changes the actions |
| PacketForwarder.AcknowledgementsAreDropped | src/packet-forwarder.ts:143-152 | PULL_ACK and PUSH_ACK produce no action whatever follows the header |
| HexUtils.HexDigit | src/utils.ts:10-12 | the digit written for a value below 16 is a lower-case hex digit whose value is that value |
| HexUtils.ParseIntHex | src/utils.ts:5 | `parseInt` of a chunk of one or two characters is NaN or a number from -15 to 255 |
| HexUtils.ToUint8 | src/utils.ts:7 | `Buffer.from` stores NaN as 0 and a number from 0 to 255 as itself |
| HexUtils.HexChunkValue | src/utils.ts:5 | a chunk of hex digits reads as its hex value, first digit more significant |
| HexUtils.NonHexChunkIsZero | src/utils.ts:5-7 | a chunk with no hex digit becomes the byte 0 |
| HexUtils.NegativeChunkWraps | src/utils.ts:5-7 | a chunk `-d` becomes 256 minus the digit's value |
| HexUtils.HexDecoded | src/utils.ts:2-8 | one byte per two characters, rounded up |
| HexUtils.HexDecodedAt | src/utils.ts:4-6 | for hex text, byte i is 16 * digit(2i) + digit(2i+1), and a trailing odd digit gives its own value |
| HexUtils.HexToBytes | src/utils.ts:2-8 | the loop with step 2 returns exactly the decoded bytes, ceil(len/2) of them |
| HexUtils.BytesToHex | src/utils.ts:10-12 | two characters per byte, all lower-case hex digits |
| HexUtils.HexRoundTrip | src/utils.ts:2-12 | decoding the hex text of any byte sequence gives the bytes back |
| HexUtils.HexRoundTripText | src/utils.ts:2-12 | re-encoding the bytes of even-length lower-case hex gives the text back |
| PrintableUtil.HasNonPrintableAscii | src/util.ts:1-3 | true exactly when some character lies outside 0x20-0x7E |
| PrintableUtil.HasNonPrintableUnicode | src/util.ts:5-7 | true exactly when some character is a control, 0x7F, or one of the listed invisible formatting characters |
| PrintableUtil.UnicodeTestIsRedundant | src/util.ts:1-7 | the second test never holds when the first does not |
| PrintableUtil.GetPrintableBuf | src/util.ts:9-17 | the `txt: ` form when every decoded character is printable ASCII, the `hex: ` form when some is not; the prefix never forces the hex form |

## Left out

- AES-128 itself is not modelled. It is a parameter, and decryption inverting encryption is assumed only where a lemma says so (`IsPermutation`).
- The internals of `lora-packet` are not modelled: frame layout, MIC, payload encryption, Join Accept decryption and session-key derivation. They are parameters that may yield nothing, standing for a throw or a missing PHY payload.
- `generateSessionKeys` throwing on a Join Accept that lacks NetID or AppNonce is not modelled; the model takes the decrypted fields as present.
- JSON stringify and parse, base64, and UTF-8 decoding (`toString()`) are not modelled; they are parameters.
- Dispatch: when `txpk.data` is a non-string that `Buffer.from` accepts, the model takes the field as absent.
- `Buffer.from(config.gatewayEUI, "hex")` is not modelled; the gateway EUI is given as bytes.
- The UDP socket, callbacks, timers, `console` output, the clock and `Math.random` are not modelled. Tokens, DevNonces and clock readings are parameters.
- The uplink timer's crash is not modelled. `createDataUplink` throwing inside the timer callback stops the process, but `TickStep` drops the frame and carries on.
- `createDataUplink` takes the payload as bytes; the conversion of a string payload with `Buffer.from` is not modelled.
- The frequency plans, configuration loading and the command-line tools are not modelled; they are static tables and I/O.
- PushDataPacket: frequency, RSSI and SNR are Dafny `real`s, not IEEE doubles. The JSON rendering of the numbers is inside the abstract encoder.
- HexDecoded, HexToBytes: a character above U+FFFF is chunked as one character, while `hex.length` and `substr` count it as two UTF-16 code units; on such text the model's chunks, and so its length ceil(n/2), differ from the code's.
- HasNonPrintableAscii and HasNonPrintableUnicode test characters (Unicode scalar values), while the regular expressions test UTF-16 code units. A character above U+FFFF is in neither class in both readings, so the answers agree.
- `rx1Delay` is never updated from the Join Accept: that assignment is commented out in `processJoinAccept`, and the model keeps both RX delays.

## Findings

| source | as written | input that shows it | evidently intended | confidence | as-written member | corrected member |
|---|---|---|---|---|---|---|
| src/crypto.ts:48-75 | an empty message counts as complete (`0 % 16 === 0`), so it is not padded, the last-block XOR writes into an empty view and no CBC round runs: the tag is sixteen zero bytes for every key | `aesCmac(key, Buffer.alloc(0))` for any 16-byte key | section 2.4 of RFC 4493: the empty message is incomplete, is padded to 0x80 0^120, XORed with K2 and enciphered once | not executed | Crypto.EmptyMessageTagIsZero | Crypto.Rfc4493Cmac |
