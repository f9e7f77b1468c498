/**
 * The device's session record: address, session keys, the DevNonce of the
 * current join, the two frame counters, the activation flag and the two
 * receive-window delays. One mutable object, created not activated.
 */
module DeviceStateModel {
  import opened Wrappers
  import opened Bytes

  /** The record's fields as one value, so that a change of state can be stated as a function. */
  datatype DeviceRecord = DeviceRecord(
    devAddr: Option<seq<byte>>,
    nwkSKey: Option<seq<byte>>,
    appSKey: Option<seq<byte>>,
    devNonce: uint16,
    fCntUp: nat,
    fCntDown: nat,
    activated: bool,
    rx1Delay: int,
    rx2Delay: int)

  /** Activated, with an address and both session keys: the condition every frame operation checks first. */
  predicate HasSession(s: DeviceRecord)
  {
    s.activated && s.devAddr.Some? && s.appSKey.Some? && s.nwkSKey.Some?
  }

  /** Activation always comes with an address and both keys. */
  predicate Consistent(s: DeviceRecord)
  {
    s.activated ==> HasSession(s)
  }

  /** The record the process starts with. */
  function Initial(): DeviceRecord
  {
    DeviceRecord(None, None, None, 0, 0, 0, false, 1, 2)
  }

  /** The initial record is consistent and has no session, so frame construction starts out refused. */
  lemma InitialRefusesFrames()
    ensures Consistent(Initial()) && !HasSession(Initial())
  {
  }

  class DeviceState {
    var devAddr: Option<seq<byte>>
    var nwkSKey: Option<seq<byte>>
    var appSKey: Option<seq<byte>>
    var devNonce: uint16
    var fCntUp: nat
    var fCntDown: nat
    var activated: bool
    var rx1Delay: int
    var rx2Delay: int

    function Snapshot(): DeviceRecord
      reads this
    {
      DeviceRecord(devAddr, nwkSKey, appSKey, devNonce, fCntUp, fCntDown, activated, rx1Delay, rx2Delay)
    }

    /** The initial `deviceState`: not activated, no keys, counters 0, delays of 1 and 2 seconds. */
    constructor ()
      ensures !activated && devAddr.None? && nwkSKey.None? && appSKey.None?
      ensures fCntUp == 0 && fCntDown == 0 && devNonce == 0
      ensures rx1Delay == 1 && rx2Delay == 2
      ensures Snapshot() == Initial()
    {
      devAddr := None;
      nwkSKey := None;
      appSKey := None;
      devNonce := 0;
      fCntUp := 0;
      fCntDown := 0;
      activated := false;
      rx1Delay := 1;
      rx2Delay := 2;
    }
  }
}
