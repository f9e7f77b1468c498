/**
 * The Semtech UDP packet-forwarder framing the device speaks to the
 * gateway: a 4-byte header (protocol version 2, a 16-bit token written
 * little-endian, an identifier), the 8-byte gateway EUI where the message
 * has one, and a JSON body. Section 3 of Semtech's PROTOCOL.TXT covers
 * PUSH_DATA/PUSH_ACK, section 5 PULL_DATA/PULL_ACK/PULL_RESP/TX_ACK.
 *
 * Sending is a set of encoders from (token, gateway EUI, body) to bytes; the
 * token and the clock readings are parameters. Receiving is `Dispatch`,
 * from a datagram to the actions the handler takes. JSON, base64 and UTF-8
 * are library calls, passed in as `JsonCodec`.
 */
module PacketForwarder {
  import opened Wrappers
  import opened Bytes

  const ProtocolVersion: byte := 0x02

  const PushData: byte := 0x00
  const PushAck: byte := 0x01
  const PullData: byte := 0x02
  const PullResp: byte := 0x03
  const PullAck: byte := 0x04
  const TxAck: byte := 0x05

  /** Version, token in bytes 1-2 low byte first, identifier in byte 3. */
  function Header(token: uint16, identifier: byte): (h: seq<byte>)
    ensures |h| == 4
  {
    [ProtocolVersion] + U16Le(token) + [identifier]
  }

  /** One received-packet record of a PUSH_DATA body, field for field. */
  datatype Rxpk = Rxpk(
    time: string, tmst: int, chan: int, rfch: int, freq: real, stat: int,
    modu: string, datr: string, codr: string, rssi: real, lsnr: real,
    size: nat, data: string)

  datatype PushMessage = PushMessage(rxpk: seq<Rxpk>)

  /** The `txpk` object of a PULL_RESP; `data` is absent when the field is missing or not a string. */
  datatype Txpk = Txpk(data: Option<string>)

  /** A parsed PULL_RESP body; `Malformed` is any JSON error, `txpk` is absent when the field is missing or falsy. */
  datatype PullRespBody = Malformed | Parsed(txpk: Option<Txpk>)

  /**
   * The library calls: `Buffer.from(JSON.stringify(m))` for a PUSH_DATA body,
   * `JSON.parse(bytes.toString())` for a PULL_RESP body, and base64 both ways.
   */
  datatype JsonCodec = JsonCodec(
    encodePush: PushMessage -> seq<byte>,
    parsePullResp: seq<byte> -> PullRespBody,
    base64: seq<byte> -> string,
    unbase64: string -> seq<byte>)

  /** What is assumed of base64: decoding an encoding gives the bytes back. */
  ghost predicate Base64RoundTrips(json: JsonCodec)
  {
    forall b :: json.unbase64(json.base64(b)) == b
  }

  // ---------------------------------------------------------------------
  // Sending

  /** `sendPullData`: the header with identifier 0x02, then the gateway EUI. */
  function PullDataPacket(token: uint16, gatewayEui: seq<byte>): (p: seq<byte>)
    ensures |p| == 4 + |gatewayEui| && p[4..] == gatewayEui
    ensures p[0] == ProtocolVersion && p[3] == PullData && ReadU16Le(p, 1) == token
  {
    var p := Header(token, PullData) + gatewayEui;
    U16LeRoundTrip(token, [ProtocolVersion], [PullData] + gatewayEui);
    assert p == [ProtocolVersion] + U16Le(token) + ([PullData] + gatewayEui);
    p
  }

  /** JavaScript's `x || d`: the default replaces a missing value and also a zero. */
  function OrReal(x: Option<real>, d: real): real
  {
    if x.None? || x.value == 0.0 then d else x.value
  }

  /**
   * The single rxpk record `sendPushData` builds: fixed channel, chain,
   * status, modulation and coding rate; frequency, RSSI, SNR and data rate
   * from the arguments or their defaults (868.1, -100, 5.0, "SF7BW125");
   * `size` the PHY payload's length and `data` its base64 text. `isoTime` and
   * `nowMs` are the clock readings.
   */
  function RxpkFor(json: JsonCodec, phyPayload: seq<byte>, rssi: Option<real>, snr: Option<real>,
                   frequency: Option<real>, datarate: Option<string>, isoTime: string, nowMs: nat): (r: Rxpk)
    ensures r.size == |phyPayload| && r.data == json.base64(phyPayload)
  {
    Rxpk(isoTime, nowMs / 1000, 0, 0, OrReal(frequency, 868.1), 1, "LORA",
         if datarate.None? || datarate.value == "" then "SF7BW125" else datarate.value,
         "4/5", OrReal(rssi, -100.0), OrReal(snr, 5.0), |phyPayload|, json.base64(phyPayload))
  }

  /** `sendPushData`: the header with identifier 0x00, the gateway EUI, then `{"rxpk":[rxpk]}`. */
  function PushDataPacket(json: JsonCodec, token: uint16, gatewayEui: seq<byte>, rxpk: Rxpk): (p: seq<byte>)
    ensures |p| >= 4 + |gatewayEui|
    ensures p[0] == ProtocolVersion && p[3] == PushData && ReadU16Le(p, 1) == token
    ensures p[4..4 + |gatewayEui|] == gatewayEui && p[4 + |gatewayEui|..] == json.encodePush(PushMessage([rxpk]))
  {
    var body := json.encodePush(PushMessage([rxpk]));
    var p := Header(token, PushData) + gatewayEui + body;
    U16LeRoundTrip(token, [ProtocolVersion], [PushData] + gatewayEui + body);
    assert p == [ProtocolVersion] + U16Le(token) + ([PushData] + gatewayEui + body);
    p
  }

  /** The PHY payload carried by a PUSH_DATA record comes back unchanged from its base64 text. */
  lemma PushDataCarriesPayload(json: JsonCodec, phyPayload: seq<byte>, rssi: Option<real>, snr: Option<real>,
                               frequency: Option<real>, datarate: Option<string>, isoTime: string, nowMs: nat)
    requires Base64RoundTrips(json)
    ensures var r := RxpkFor(json, phyPayload, rssi, snr, frequency, datarate, isoTime, nowMs);
      json.unbase64(r.data) == phyPayload && r.size == |phyPayload|
  {
  }

  /** `JSON.stringify({txpk_ack: {error: "NONE"}})`. */
  const TxAckJson: string := "{\"txpk_ack\":{\"error\":\"NONE\"}}"

  /** `Buffer.from(s)` for text that is all ASCII: one byte per character. */
  function AsciiBytes(s: string): (b: seq<byte>)
    requires forall i :: 0 <= i < |s| ==> s[i] as int < 128
    ensures |b| == |s| && forall i :: 0 <= i < |s| ==> b[i] as int == s[i] as int
  {
    seq(|s|, i requires 0 <= i < |s| => ByteOf(s[i] as int))
  }

  /** `sendTxAck(token)`: the header with identifier 0x05 and the given token, the gateway EUI, then the acknowledgement JSON. */
  function TxAckPacket(token: uint16, gatewayEui: seq<byte>): (p: seq<byte>)
    ensures |p| == 4 + |gatewayEui| + |TxAckJson|
    ensures p[0] == ProtocolVersion && p[3] == TxAck && ReadU16Le(p, 1) == token
    ensures p[4..4 + |gatewayEui|] == gatewayEui && p[4 + |gatewayEui|..] == AsciiBytes(TxAckJson)
  {
    var body := AsciiBytes(TxAckJson);
    var p := Header(token, TxAck) + gatewayEui + body;
    U16LeRoundTrip(token, [ProtocolVersion], [TxAck] + gatewayEui + body);
    assert p == [ProtocolVersion] + U16Le(token) + ([TxAck] + gatewayEui + body);
    p
  }

  // ---------------------------------------------------------------------
  // Receiving

  datatype Action = SendTxAck(token: uint16) | DeliverPhyPayload(phyPayload: seq<byte>)

  /**
   * The message handler: datagrams under 4 bytes and the two acknowledgements
   * are dropped, the version byte is never looked at, and a PULL_RESP whose
   * body parses and has a `txpk` with `data` is answered with a TX_ACK echoing
   * its token, then its PHY payload is delivered. A parse error or a throw
   * while extracting the payload is caught and leaves no action; unknown
   * identifiers are ignored.
   */
  function Dispatch(json: JsonCodec, msg: seq<byte>): (actions: seq<Action>)
    ensures |msg| < 4 ==> actions == []
    ensures |msg| >= 4 && msg[3] != PullResp ==> actions == []
    ensures actions == [] || (|msg| >= 4 && |actions| == 2 &&
      actions[0] == SendTxAck(ReadU16Le(msg, 1)) && actions[1].DeliverPhyPayload?)
    ensures actions != [] <==>
      |msg| >= 4 && msg[3] == PullResp && json.parsePullResp(msg[4..]).Parsed? &&
      json.parsePullResp(msg[4..]).txpk.Some? && json.parsePullResp(msg[4..]).txpk.value.data.Some?
    ensures actions != [] ==>
      actions[1] == DeliverPhyPayload(json.unbase64(json.parsePullResp(msg[4..]).txpk.value.data.value))
  {
    if |msg| < 4 then []
    else
      var token := ReadU16Le(msg, 1);
      var identifier := msg[3];
      if identifier == PullAck then []
      else if identifier == PushAck then []
      else if identifier == PullResp then
        match json.parsePullResp(msg[4..])
        case Parsed(Some(Txpk(Some(data)))) => [SendTxAck(token), DeliverPhyPayload(json.unbase64(data))]
        case _ => []
      else []
  }

  /** `setupMessageHandler`'s callback for one datagram, returning what it sends and delivers, in order. */
  method HandleMessage(json: JsonCodec, msg: seq<byte>) returns (actions: seq<Action>)
    ensures actions == Dispatch(json, msg)
  {
    actions := [];
    if |msg| < 4 {
      return;
    }
    var protocolVersion := msg[0];
    var token := ReadU16Le(msg, 1);
    var identifier := msg[3];
    if identifier == PullAck {
      return;
    } else if identifier == PushAck {
      return;
    } else if identifier == PullResp {
      var body := json.parsePullResp(msg[4..]);
      if body.Parsed? && body.txpk.Some? {
        var txpk := body.txpk.value;
        if txpk.data.Some? {
          var phyPayload := json.unbase64(txpk.data.value);
          actions := actions + [SendTxAck(token)];
          actions := actions + [DeliverPhyPayload(phyPayload)];
        }
      }
    }
  }

  /**
   * The exchange of section 5 of PROTOCOL.TXT: a PULL_RESP built with a token
   * and a body carrying a `txpk` is answered with one TX_ACK bearing that
   * same token, and its payload is delivered exactly once, after the TX_ACK.
   */
  lemma {:induction false} PullRespIsAcknowledged(json: JsonCodec, token: uint16, body: seq<byte>, data: string)
    requires json.parsePullResp(body) == Parsed(Some(Txpk(Some(data))))
    ensures Dispatch(json, Header(token, PullResp) + body) == [SendTxAck(token), DeliverPhyPayload(json.unbase64(data))]
  {
    var msg := Header(token, PullResp) + body;
    U16LeRoundTrip(token, [ProtocolVersion], [PullResp] + body);
    assert msg == [ProtocolVersion] + U16Le(token) + ([PullResp] + body);
    assert msg[4..] == body;
  }

  /** The TX_ACK sent in answer to a datagram carries the token read from it, so the reply reads back the same token. */
  lemma TxAckEchoesToken(json: JsonCodec, msg: seq<byte>, gatewayEui: seq<byte>)
    requires Dispatch(json, msg) != []
    ensures var ack := TxAckPacket(Dispatch(json, msg)[0].token, gatewayEui);
      ReadU16Le(ack, 1) == ReadU16Le(msg, 1) && ack[3] == TxAck
  {
  }

  /** The version byte plays no part in dispatch. */
  lemma VersionIsNotChecked(json: JsonCodec, msg: seq<byte>, v: byte)
    requires |msg| >= 1
    ensures Dispatch(json, msg[0 := v]) == Dispatch(json, msg)
  {
    if |msg| >= 4 {
      assert msg[0 := v][4..] == msg[4..];
    }
  }

  /** PULL_ACK and PUSH_ACK are dropped whatever follows the header. */
  lemma AcknowledgementsAreDropped(json: JsonCodec, token: uint16, rest: seq<byte>)
    ensures Dispatch(json, Header(token, PullAck) + rest) == []
    ensures Dispatch(json, Header(token, PushAck) + rest) == []
  {
  }
}
