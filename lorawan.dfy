/**
 * The device side of LoRaWAN activation and data exchange: the DevNonce
 * encoders, the Join Request, and the gating and updates that
 * `processJoinAccept`, `createDataUplink` and `processDataDownlink` apply to
 * the session record. Frame building, Join Accept decryption and session-key
 * derivation belong to the `lora-packet` library and are parameters here.
 *
 * Each operation on the record is a pure step function on `DeviceRecord`,
 * and a method on `DeviceState` that is proved to perform that step.
 */
module LoRaWAN {
  import opened Wrappers
  import opened Bytes
  import opened DeviceStateModel
  import HexUtils

  /** Message types as `lora-packet` names them. */
  datatype MType =
    | JoinRequest | JoinAccept | UnconfirmedDataUp | UnconfirmedDataDown
    | ConfirmedDataUp | ConfirmedDataDown | RejoinRequest | Proprietary

  datatype FCtrl = FCtrl(adr: bool, ack: bool, adrAckReq: bool, fPending: bool)

  /** The fields handed to `lora.fromFields` for a data uplink. */
  datatype DataUpFields = DataUpFields(mType: MType, devAddr: seq<byte>, fCtrl: FCtrl, fCnt: nat, payload: seq<byte>)

  /** The fields of a decrypted Join Accept that the device reads. */
  datatype JoinAcceptFields = JoinAcceptFields(appNonce: seq<byte>, netID: seq<byte>, devAddr: seq<byte>)

  datatype SessionKeys = SessionKeys(appSKey: seq<byte>, nwkSKey: seq<byte>)

  /**
   * The parts of `lora-packet` the device calls. `None` stands for a call
   * that throws or a packet without a PHY payload.
   *  - joinRequest(appEUI, devEUI, devNonce, appKey): `fromFields`, `calculateMIC`, `getPHYPayload`
   *  - messageType(bytes): `fromWire(bytes).getMType()`
   *  - decryptJoinAccept(bytes, appKey): `fromWire(decryptJoinAccept(fromWire(bytes), appKey))`
   *  - sessionKeys(appKey, netID, appNonce, devNonce): `generateSessionKeys`
   *  - dataUp(fields, appSKey, nwkSKey): `fromFields(...).getPHYPayload()`
   */
  datatype LoraPacket = LoraPacket(
    joinRequest: (seq<byte>, seq<byte>, seq<byte>, seq<byte>) -> Option<seq<byte>>,
    messageType: seq<byte> -> Option<MType>,
    decryptJoinAccept: (seq<byte>, seq<byte>) -> Option<JoinAcceptFields>,
    sessionKeys: (seq<byte>, seq<byte>, seq<byte>, seq<byte>) -> SessionKeys,
    dataUp: (DataUpFields, seq<byte>, seq<byte>) -> Option<seq<byte>>)

  /** What the operations throw. */
  datatype LoraError = RangeError | PhyPayloadFailed | NotImplemented

  // ---------------------------------------------------------------------
  // DevNonce encoders

  /** `getDevNonceBufferLe(n)`: `writeUint16LE` throws a RangeError outside 0..65535. */
  function GetDevNonceBufferLe(n: int): (r: Result<seq<byte>, LoraError>)
    ensures r.Success? <==> 0 <= n < 0x1_0000
    ensures r.Success? ==> |r.value| == 2 && r.value[0] as int == n % 256 && r.value[1] as int == n / 256
  {
    if 0 <= n < 0x1_0000 then Success(U16Le(n)) else Failure(RangeError)
  }

  /** `getDevNonceBufferBe(n)`: high byte first. */
  function GetDevNonceBufferBe(n: int): (r: Result<seq<byte>, LoraError>)
    ensures r.Success? <==> 0 <= n < 0x1_0000
    ensures r.Success? ==> |r.value| == 2 && r.value[0] as int == n / 256 && r.value[1] as int == n % 256
  {
    if 0 <= n < 0x1_0000 then Success(U16Be(n)) else Failure(RangeError)
  }

  /** The big-endian buffer is the little-endian one reversed, and reading it little-endian gives n back. */
  lemma DevNonceEncodings(n: uint16)
    ensures GetDevNonceBufferBe(n).value == [GetDevNonceBufferLe(n).value[1], GetDevNonceBufferLe(n).value[0]]
    ensures ReadU16Le(GetDevNonceBufferLe(n).value, 0) == n
  {
    U16LeRoundTrip(n, [], []);
    assert [] + U16Le(n) + [] == U16Le(n);
  }

  // ---------------------------------------------------------------------
  // Join Request

  /**
   * `createJoinRequest(devEUI, appEUI, devNonce)` with `config.appKey` as
   * `appKeyHex`: the EUIs and key are decoded from hex and the DevNonce goes
   * in little-endian; the library's PHY payload is returned as it is.
   */
  function CreateJoinRequest(lib: LoraPacket, appKeyHex: string, devEUI: string, appEUI: string, devNonce: int): (r: Result<seq<byte>, LoraError>)
    ensures !(0 <= devNonce < 0x1_0000) ==> r == Failure(RangeError)
    ensures 0 <= devNonce < 0x1_0000 ==>
      var phy := lib.joinRequest(HexUtils.HexDecoded(appEUI), HexUtils.HexDecoded(devEUI), U16Le(devNonce), HexUtils.HexDecoded(appKeyHex));
      (r.Success? <==> phy.Some?) && (phy.Some? ==> r.value == phy.value) && (phy.None? ==> r == Failure(PhyPayloadFailed))
  {
    var joinEUI := HexUtils.HexDecoded(appEUI);
    var deviceEUI := HexUtils.HexDecoded(devEUI);
    var appKey := HexUtils.HexDecoded(appKeyHex);
    match GetDevNonceBufferLe(devNonce)
    case Failure(e) => Failure(e)
    case Success(nonce) =>
      match lib.joinRequest(joinEUI, deviceEUI, nonce, appKey)
      case None => Failure(PhyPayloadFailed)
      case Some(phy) => Success(phy)
  }

  // ---------------------------------------------------------------------
  // Steps on the session record

  /**
   * `processJoinAccept`: refused, with the record untouched, when the frame is
   * shorter than 12 bytes, does not parse, is not a Join Accept or does not
   * decrypt. Otherwise the address and both session keys (derived with the
   * recorded DevNonce, little-endian) are stored, the device is activated and
   * both counters restart at 0, on a re-join too; the RX delays are kept.
   */
  function JoinAcceptStep(lib: LoraPacket, appKey: seq<byte>, s: DeviceRecord, data: seq<byte>): (r: (bool, DeviceRecord))
    ensures r.0 <==> |data| >= 12 && lib.messageType(data) == Some(JoinAccept) && lib.decryptJoinAccept(data, appKey).Some?
    ensures !r.0 ==> r.1 == s
    ensures r.0 ==>
      var f := lib.decryptJoinAccept(data, appKey).value;
      var keys := lib.sessionKeys(appKey, f.netID, f.appNonce, U16Le(s.devNonce));
      HasSession(r.1) &&
      r.1.devAddr == Some(f.devAddr) && r.1.nwkSKey == Some(keys.nwkSKey) && r.1.appSKey == Some(keys.appSKey) &&
      r.1.fCntUp == 0 && r.1.fCntDown == 0 &&
      r.1.devNonce == s.devNonce && r.1.rx1Delay == s.rx1Delay && r.1.rx2Delay == s.rx2Delay
  {
    if |data| < 12 then (false, s)
    else if lib.messageType(data) != Some(JoinAccept) then (false, s)
    else match lib.decryptJoinAccept(data, appKey)
      case None => (false, s)
      case Some(f) =>
        var keys := lib.sessionKeys(appKey, f.netID, f.appNonce, U16Le(s.devNonce));
        (true, s.(devAddr := Some(f.devAddr), nwkSKey := Some(keys.nwkSKey), appSKey := Some(keys.appSKey),
                  activated := true, fCntUp := 0, fCntDown := 0))
  }

  /** The fields of every uplink: Unconfirmed Data Up, all FCtrl flags clear, and FCnt the constant 1. */
  function UplinkFields(devAddr: seq<byte>, payload: seq<byte>): DataUpFields
  {
    DataUpFields(UnconfirmedDataUp, devAddr, FCtrl(false, false, false, false), 1, payload)
  }

  /**
   * `createDataUplink`: `null` with nothing changed unless the record has a
   * session; a throw with nothing changed when the library yields no PHY
   * payload; otherwise the library's frame, and fCntUp one higher.
   */
  function UplinkStep(lib: LoraPacket, s: DeviceRecord, payload: seq<byte>): (r: (Result<Option<seq<byte>>, LoraError>, DeviceRecord))
    ensures r.0 == Success(None) <==> !HasSession(s)
    ensures r.0.Success? && r.0.value.Some? ==> r.1 == s.(fCntUp := s.fCntUp + 1)
    ensures !(r.0.Success? && r.0.value.Some?) ==> r.1 == s
    ensures r.0.Failure? ==> r.0.error == PhyPayloadFailed
    ensures HasSession(s) ==>
      var phy := lib.dataUp(UplinkFields(s.devAddr.value, payload), s.appSKey.value, s.nwkSKey.value);
      (r.0.Success? <==> phy.Some?) && (phy.Some? ==> r.0.value == phy)
  {
    if !HasSession(s) then (Success(None), s)
    else match lib.dataUp(UplinkFields(s.devAddr.value, payload), s.appSKey.value, s.nwkSKey.value)
      case None => (Failure(PhyPayloadFailed), s)
      case Some(phy) => (Success(Some(phy)), s.(fCntUp := s.fCntUp + 1))
  }

  /** The frame an uplink produces does not depend on fCntUp: FCnt is written as 1 whatever the counter says. */
  lemma UplinkFrameIgnoresCounter(lib: LoraPacket, s: DeviceRecord, payload: seq<byte>, n: nat)
    ensures UplinkStep(lib, s, payload).0 == UplinkStep(lib, s.(fCntUp := n), payload).0
  {
  }

  /** `processDataDownlink`: false without a session, otherwise a "not implemented" throw; the record never changes. */
  function DownlinkStep(s: DeviceRecord): (r: Result<bool, LoraError>)
    ensures r == Success(false) <==> !HasSession(s)
    ensures r.Failure? <==> HasSession(s)
    ensures r.Failure? ==> r.error == NotImplemented
  {
    if !HasSession(s) then Success(false) else Failure(NotImplemented)
  }

  // ---------------------------------------------------------------------
  // The operations on the shared record

  method ProcessJoinAccept(st: DeviceState, lib: LoraPacket, appKeyHex: string, data: seq<byte>) returns (ok: bool)
    modifies st
    ensures (ok, st.Snapshot()) == JoinAcceptStep(lib, HexUtils.HexDecoded(appKeyHex), old(st.Snapshot()), data)
  {
    if |data| < 12 {
      return false;
    }
    var appKey := HexUtils.HexToBytes(appKeyHex);
    var mtype := lib.messageType(data);
    if mtype != Some(JoinAccept) {
      return false;
    }
    var packet := lib.decryptJoinAccept(data, appKey);
    if packet.None? {
      return false;
    }
    var nonce := GetDevNonceBufferLe(st.devNonce);
    var keys := lib.sessionKeys(appKey, packet.value.netID, packet.value.appNonce, nonce.value);
    st.devAddr := Some(packet.value.devAddr);
    st.nwkSKey := Some(keys.nwkSKey);
    st.appSKey := Some(keys.appSKey);
    st.activated := true;
    st.fCntUp := 0;
    st.fCntDown := 0;
    return true;
  }

  method CreateDataUplink(st: DeviceState, lib: LoraPacket, payload: seq<byte>) returns (r: Result<Option<seq<byte>>, LoraError>)
    modifies st
    ensures (r, st.Snapshot()) == UplinkStep(lib, old(st.Snapshot()), payload)
  {
    if !st.activated || st.devAddr.None? || st.appSKey.None? || st.nwkSKey.None? {
      return Success(None);
    }
    var p := lib.dataUp(UplinkFields(st.devAddr.value, payload), st.appSKey.value, st.nwkSKey.value);
    if p.None? {
      return Failure(PhyPayloadFailed);
    }
    st.fCntUp := st.fCntUp + 1;
    return Success(p);
  }

  method ProcessDataDownlink(st: DeviceState, data: seq<byte>) returns (r: Result<bool, LoraError>)
    ensures r == DownlinkStep(st.Snapshot())
  {
    if !st.activated || st.devAddr.None? || st.appSKey.None? || st.nwkSKey.None? {
      return Success(false);
    }
    return Failure(NotImplemented);
  }

  // ---------------------------------------------------------------------
  // How the simulator drives the record

  /** The start of a join: the fresh DevNonce is recorded, then the Join Request is built with it. */
  method StartJoin(st: DeviceState, lib: LoraPacket, appKeyHex: string, devEUI: string, appEUI: string, devNonce: uint16)
    returns (r: Result<seq<byte>, LoraError>)
    modifies st
    ensures st.Snapshot() == old(st.Snapshot()).(devNonce := devNonce)
    ensures r == CreateJoinRequest(lib, appKeyHex, devEUI, appEUI, devNonce)
  {
    st.devNonce := devNonce;
    r := CreateJoinRequest(lib, appKeyHex, devEUI, appEUI, devNonce);
  }

  /** A delivered PHY payload goes to `processDataDownlink` once activated, to `processJoinAccept` before. */
  function ReceiveStep(lib: LoraPacket, appKey: seq<byte>, s: DeviceRecord, phy: seq<byte>): (r: DeviceRecord)
    ensures s.activated ==> r == s
    ensures Consistent(s) ==> Consistent(r)
    ensures !s.activated && !r.activated ==> r == s
  {
    if s.activated then s else JoinAcceptStep(lib, appKey, s, phy).1
  }

  method OnPullResp(st: DeviceState, lib: LoraPacket, appKeyHex: string, phy: seq<byte>)
    modifies st
    ensures st.Snapshot() == ReceiveStep(lib, HexUtils.HexDecoded(appKeyHex), old(st.Snapshot()), phy)
  {
    if st.activated {
      var _ := ProcessDataDownlink(st, phy);
    } else {
      var _ := ProcessJoinAccept(st, lib, appKeyHex, phy);
    }
  }

  /** The uplink timer: only an activated device builds a frame; a frame that fails to build is not sent. */
  function TickStep(lib: LoraPacket, s: DeviceRecord, payload: seq<byte>): (r: (Option<seq<byte>>, DeviceRecord))
    ensures !s.activated ==> r == (None, s)
    ensures r.0.Some? ==> HasSession(s) && r.1 == s.(fCntUp := s.fCntUp + 1)
    ensures r.0.None? ==> r.1 == s
  {
    if !s.activated then (None, s)
    else
      var (r, t) := UplinkStep(lib, s, payload);
      if r.Success? then (r.value, t) else (None, t)
  }

  datatype Event = UplinkTick(payload: seq<byte>) | Received(phy: seq<byte>)

  /** The frames sent and the final record after a sequence of timer ticks and received payloads. */
  function Run(lib: LoraPacket, appKey: seq<byte>, s: DeviceRecord, events: seq<Event>): (r: (seq<seq<byte>>, DeviceRecord))
    ensures |r.0| <= |events|
    decreases |events|
  {
    if events == [] then ([], s)
    else
      var (sent, t) := match events[0]
        case UplinkTick(p) => TickStep(lib, s, p)
        case Received(phy) => (None, ReceiveStep(lib, appKey, s, phy));
      var (rest, u) := Run(lib, appKey, t, events[1..]);
      (if sent.Some? then [sent.value] + rest else rest, u)
  }

  /** Every reachable record is consistent: activation never comes without an address and both keys. */
  lemma {:induction false} RunKeepsConsistent(lib: LoraPacket, appKey: seq<byte>, s: DeviceRecord, events: seq<Event>)
    requires Consistent(s)
    ensures Consistent(Run(lib, appKey, s, events).1)
    decreases |events|
  {
    if events != [] {
      var t := match events[0]
        case UplinkTick(p) => TickStep(lib, s, p).1
        case Received(phy) => ReceiveStep(lib, appKey, s, phy);
      RunKeepsConsistent(lib, appKey, t, events[1..]);
    }
  }

  /**
   * Once activated, the session is kept for good: received payloads go to
   * the downlink path, which changes nothing, so the address and keys never
   * change again, fCntDown stays put and fCntUp grows by exactly the number
   * of frames sent.
   */
  lemma {:induction false} ActivatedSessionIsStable(lib: LoraPacket, appKey: seq<byte>, s: DeviceRecord, events: seq<Event>)
    requires HasSession(s)
    ensures var (sent, t) := Run(lib, appKey, s, events);
      HasSession(t) && t.devAddr == s.devAddr && t.nwkSKey == s.nwkSKey && t.appSKey == s.appSKey &&
      t.fCntDown == s.fCntDown && t.fCntUp == s.fCntUp + |sent|
    decreases |events|
  {
    if events != [] {
      var (sent, t) := match events[0]
        case UplinkTick(p) => TickStep(lib, s, p)
        case Received(phy) => (None, ReceiveStep(lib, appKey, s, phy));
      assert HasSession(t) && t.devAddr == s.devAddr && t.nwkSKey == s.nwkSKey && t.appSKey == s.appSKey;
      assert t.fCntDown == s.fCntDown && t.fCntUp == s.fCntUp + (if sent.Some? then 1 else 0);
      ActivatedSessionIsStable(lib, appKey, t, events[1..]);
    }
  }

  /** Before activation the uplink timer sends nothing and changes nothing: uplinks are dropped, not queued. */
  lemma {:induction false} UnjoinedDeviceSendsNothing(lib: LoraPacket, appKey: seq<byte>, s: DeviceRecord, events: seq<Event>)
    requires !s.activated
    requires forall i :: 0 <= i < |events| ==> events[i].UplinkTick?
    ensures Run(lib, appKey, s, events) == ([], s)
    decreases |events|
  {
    if events != [] {
      UnjoinedDeviceSendsNothing(lib, appKey, s, events[1..]);
    }
  }
}
