/** `BluetoothService` and its `CBCentralManagerDelegate` extension: one
    candidate peripheral, chosen by name prefix during a scan, guarded scan
    and connect requests, and loss of radio power treated as scan stop plus
    disconnect. */
module BleService {
  import opened Collections
  import opened Radio

  /** `dataServiceUuid` and `dataCharacteristicUuid`: declared by the
      service, but no operation uses them. */
  const DataServiceUuid: string := "180A"
  const DataCharacteristicUuid: string := "2A29"
  const ExpectedNamePrefix: string := "WhisprSpeaker"

  /** The discovery filter: a name that starts with "WhisprSpeaker". */
  predicate Accepts(p: PeripheralRef) {
    p.name.Some? && ExpectedNamePrefix <= p.name.value
  }

  /** The peripheral kept after a series of discoveries: the last accepted
      one, or `current` when none was accepted. */
  function LastAccepted(current: Option<PeripheralRef>, ps: seq<PeripheralRef>): (r: Option<PeripheralRef>)
    ensures (forall j :: 0 <= j < |ps| ==> !Accepts(ps[j])) ==> r == current
    ensures (exists j :: 0 <= j < |ps| && Accepts(ps[j])) ==>
      exists k :: 0 <= k < |ps| && Accepts(ps[k]) && r == Some(ps[k]) &&
        forall j :: k < j < |ps| ==> !Accepts(ps[j])
    decreases |ps|
  {
    if ps == [] then current
    else if Accepts(ps[|ps| - 1]) then Some(ps[|ps| - 1])
    else LastAccepted(current, ps[..|ps| - 1])
  }

  class BluetoothService {
    /** The state of the central manager, which the platform changes. */
    var centralState: ManagerState
    var peripheral: Option<PeripheralRef>
    var dataCharacteristic: Option<Characteristic>
    /** Every request made of the radio stack or of the flow controller. */
    ghost var log: seq<RadioCall>

    /** `bluetoothState`: whatever the central manager reports. */
    function BluetoothState(): ManagerState
      reads this`centralState
    {
      centralState
    }

    /** `init()`: the central manager is created in the given state. */
    constructor (initialState: ManagerState)
      ensures centralState == initialState
      ensures peripheral == None && dataCharacteristic == None && log == []
    {
      centralState := initialState;
      peripheral := None;
      dataCharacteristic := None;
      log := [];
    }

    /** `startScan()`: forgets the candidate even when the radio is off. */
    method StartScan()
      modifies this`peripheral, this`log
      ensures peripheral == None
      ensures BluetoothState() == PoweredOn ==> log == old(log) + [ScanForPeripherals(Some([]))]
      ensures BluetoothState() != PoweredOn ==> log == old(log)
    {
      peripheral := None;
      if BluetoothState() != PoweredOn {
        return;
      }
      log := log + [ScanForPeripherals(Some([]))];
    }

    /** `stopScan()`: always asks the radio to stop, and changes no field. */
    method StopScan()
      modifies this`log
      ensures log == old(log) + [RadioCall.StopScan]
    {
      log := log + [RadioCall.StopScan];
    }

    /** `connect()`: only with the radio on and a candidate peripheral. */
    method Connect()
      modifies this`log
      ensures BluetoothState() == PoweredOn && peripheral.Some? ==>
        log == old(log) + [RadioCall.Connect(peripheral.value)]
      ensures BluetoothState() != PoweredOn || peripheral.None? ==> log == old(log)
    {
      if BluetoothState() != PoweredOn {
        return;
      }
      if peripheral.None? {
        return;
      }
      log := log + [RadioCall.Connect(peripheral.value)];
    }

    /** `disconnect()`: cancels the connection but keeps the candidate. */
    method Disconnect()
      modifies this`log
      ensures peripheral.Some? ==> log == old(log) + [CancelConnection(peripheral.value)]
      ensures peripheral.None? ==> log == old(log)
    {
      if peripheral.None? {
        return;
      }
      log := log + [CancelConnection(peripheral.value)];
    }

    // The delegate methods of the extension in ConnectionHandler.swift.

    /** `centralManagerDidUpdateState`: the platform has moved the central
        manager to `state`; anything but powered-on stops the scan and then
        cancels the connection. */
    method CentralManagerDidUpdateState(state: ManagerState)
      modifies this`centralState, this`log
      ensures centralState == state
      ensures state != PoweredOn ==>
        log == old(log) + [RadioCall.StopScan] + (if peripheral.Some? then [CancelConnection(peripheral.value)] else [])
      ensures state == PoweredOn ==> log == old(log) + [FlowControllerBluetoothOn]
    {
      centralState := state;
      if state != PoweredOn {
        StopScan();
        Disconnect();
      } else {
        log := log + [FlowControllerBluetoothOn];
      }
    }

    /** `centralManager(_:didDiscover:advertisementData:rssi:)` */
    method DidDiscover(p: PeripheralRef)
      modifies this`peripheral
      ensures peripheral == LastAccepted(old(peripheral), [p])
      ensures Accepts(p) ==> peripheral == Some(p)
      ensures !Accepts(p) ==> peripheral == old(peripheral)
    {
      if !Accepts(p) {
        return;
      }
      peripheral := Some(p);
    }

    /** `centralManager(_:didConnect:)`: discovers every service of the
        peripheral that connected. */
    method DidConnect(p: PeripheralRef)
      modifies this`log
      ensures log == old(log) + [DiscoverServices(p, None)]
    {
      log := log + [DiscoverServices(p, None)];
    }

    /** `centralManager(_:didDisconnectPeripheral:error:)` */
    method DidDisconnectPeripheral(p: PeripheralRef)
      modifies this`dataCharacteristic
      ensures dataCharacteristic == None
    {
      dataCharacteristic := None;
    }

    /** `centralManager(_:didFailToConnect:error:)` */
    method DidFailToConnect(p: PeripheralRef)
      modifies this`dataCharacteristic
      ensures dataCharacteristic == None
    {
      dataCharacteristic := None;
    }
  }

  /** A later accepted discovery replaces an earlier one, and a rejected
      discovery after it changes nothing. */
  lemma LastAcceptedAppend(current: Option<PeripheralRef>, ps: seq<PeripheralRef>, p: PeripheralRef)
    ensures LastAccepted(current, ps + [p]) ==
      if Accepts(p) then Some(p) else LastAccepted(current, ps)
  {
    assert (ps + [p])[..|ps|] == ps;
  }

  /** Power loss followed by a connect request: the scan is stopped, the
      connection cancelled, and the connect request is refused. */
  method PowerLossScenario(p: PeripheralRef)
    requires Accepts(p)
  {
    var service := new BluetoothService(PoweredOn);
    service.StartScan();
    service.DidDiscover(p);
    service.Connect();
    assert service.log == [ScanForPeripherals(Some([])), RadioCall.Connect(p)];
    service.CentralManagerDidUpdateState(PoweredOff);
    assert service.log == [ScanForPeripherals(Some([])), RadioCall.Connect(p), RadioCall.StopScan, CancelConnection(p)];
    service.Connect();
    assert service.log == [ScanForPeripherals(Some([])), RadioCall.Connect(p), RadioCall.StopScan, CancelConnection(p)];
    assert service.peripheral == Some(p);
  }
}
