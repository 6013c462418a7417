/** The part of CoreBluetooth that the three Bluetooth session classes touch,
    as plain values: the central manager's power state, handles for
    peripherals, services and characteristics, and one entry per outbound
    request the app makes of the radio stack. Callbacks are delivered as
    ordinary method calls, one at a time. */
module Radio {
  import opened Collections

  /** `CBManagerState` */
  datatype ManagerState =
    | Unknown
    | Resetting
    | Unsupported
    | Unauthorized
    | PoweredOff
    | PoweredOn

  /** A `CBPeripheral`: an opaque handle and the name it currently reports. */
  datatype PeripheralRef = PeripheralRef(handle: nat, name: Option<string>)

  /** A `CBService` and a `CBCharacteristic`: a handle and a UUID, the UUID
      in its canonical upper-case text form. */
  datatype Service = Service(handle: nat, uuid: string)
  datatype Characteristic = Characteristic(handle: nat, uuid: string)

  /** Swift's `UInt8` */
  newtype byte = x: int | 0 <= x < 256

  /** `CBCharacteristicWriteType` */
  datatype WriteType = WithResponse | WithoutResponse

  /** An outbound request to the central manager or to a peripheral. A
      `None` service list stands for Swift's `nil` (no filter), which is not
      the same argument as an empty list. */
  datatype RadioCall =
    | ScanForPeripherals(services: Option<seq<string>>)
    | StopScan
    | Connect(peripheral: PeripheralRef)
    | CancelConnection(peripheral: PeripheralRef)
    | DiscoverServices(peripheral: PeripheralRef, serviceUuids: Option<seq<string>>)
    | DiscoverCharacteristics(peripheral: PeripheralRef, service: Service)
    | SetNotifyValue(peripheral: PeripheralRef, enabled: bool, characteristic: Characteristic)
    | WriteValue(peripheral: PeripheralRef, data: seq<byte>, characteristic: Characteristic, writeType: WriteType)
    /** `flowController?.bluetoothOn()`, a call into app code outside this model */
    | FlowControllerBluetoothOn
}
