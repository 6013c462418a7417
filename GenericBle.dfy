/** `BLEManager` of the WhisprGenericViews package: a registry of discovered
    peripherals deduplicated by name, one active peripheral, the binding of
    the speaker's input and output characteristics, and the one-byte volume
    write. */
module GenericBle {
  import opened Collections
  import opened Radio

  /** `serviceUUID`: declared by the manager, but no operation uses it. */
  const ServiceUuid: string := "C0F6F394-FDE3-46F6-827C-104034304184"
  const InputCharUuid: string := "214A8DD4-04CF-48E5-BB1D-F6018E28D7A2"
  const OutputCharUuid: string := "643954A4-A6CC-455C-825C-499190CE7DB0"

  /** A registry entry (`struct Peripheral`). */
  datatype Peripheral = Peripheral(id: int, name: string, rssi: int, peripheral: PeripheralRef)

  /** One `didDiscover` callback. */
  datatype Discovery = Discovery(peripheral: PeripheralRef, rssi: int)

  /** What the registry keeps true: each entry's id is its position, and no
      two entries share a name. */
  ghost predicate RegistryValid(reg: seq<Peripheral>) {
    && (forall i :: 0 <= i < |reg| ==> reg[i].id == i)
    && (forall i, j :: 0 <= i < j < |reg| ==> reg[i].name != reg[j].name)
  }

  /** The predicate `{ $0.name == peripheralName }`. */
  function HasName(name: string): Peripheral -> bool {
    (e: Peripheral) => e.name == name
  }

  /** The registry after one discovery: nameless peripherals and names
      already present are dropped (the stored signal strength is not
      refreshed); a new name is appended with the next id. */
  function Register(reg: seq<Peripheral>, d: Discovery): (r: seq<Peripheral>)
    ensures |reg| <= |r| <= |reg| + 1 && r[..|reg|] == reg
  {
    match d.peripheral.name
    case None => reg
    case Some(name) =>
      if Contains(reg, HasName(name)) then reg
      else reg + [Peripheral(|reg|, name, d.rssi, d.peripheral)]
  }

  /** The registry after a series of discoveries, in order. */
  function RegisterAll(reg: seq<Peripheral>, ds: seq<Discovery>): seq<Peripheral>
    decreases |ds|
  {
    if ds == [] then reg else RegisterAll(Register(reg, ds[0]), ds[1..])
  }

  /** The names in a registry. */
  ghost function Names(reg: seq<Peripheral>): set<string> {
    set i | 0 <= i < |reg| :: reg[i].name
  }

  /** The names reported by a series of discoveries. */
  ghost function SeenNames(ds: seq<Discovery>): set<string> {
    set i | 0 <= i < |ds| && ds[i].peripheral.name.Some? :: ds[i].peripheral.name.value
  }

  /** One discovery keeps the registry valid, never changes or reorders the
      entries already there, and adds an entry exactly for a new name. */
  lemma RegisterSpec(reg: seq<Peripheral>, d: Discovery)
    requires RegistryValid(reg)
    ensures RegistryValid(Register(reg, d))
    ensures d.peripheral.name.None? ==> Register(reg, d) == reg
    ensures d.peripheral.name.Some? ==>
      if d.peripheral.name.value in Names(reg) then Register(reg, d) == reg
      else Register(reg, d) == reg + [Peripheral(|reg|, d.peripheral.name.value, d.rssi, d.peripheral)]
  {
    if d.peripheral.name.Some? {
      var name := d.peripheral.name.value;
      assert name in Names(reg) <==> exists j :: 0 <= j < |reg| && HasName(name)(reg[j]);
    }
  }

  /** A valid registry holds as many entries as it has names. */
  lemma {:induction false} NamesCount(reg: seq<Peripheral>)
    requires RegistryValid(reg)
    ensures |Names(reg)| == |reg|
  {
    if reg != [] {
      var last := |reg| - 1;
      var init := reg[..last];
      assert RegistryValid(init);
      NamesCount(init);
      assert Names(reg) == Names(init) + {reg[last].name};
      assert reg[last].name !in Names(init);
    }
  }

  /** Appending an entry adds its name. */
  lemma NamesSnoc(reg: seq<Peripheral>, e: Peripheral)
    ensures Names(reg + [e]) == Names(reg) + {e.name}
  {
    var r := reg + [e];
    assert r[|reg|] == e;
    forall n | n in Names(reg) ensures n in Names(r) {
      var i :| 0 <= i < |reg| && reg[i].name == n;
      assert r[i] == reg[i];
    }
  }

  /** The names seen in a series are those of its first discovery and of the rest. */
  lemma SeenNamesCons(ds: seq<Discovery>)
    requires ds != []
    ensures SeenNames(ds) ==
      (if ds[0].peripheral.name.Some? then {ds[0].peripheral.name.value} else {}) + SeenNames(ds[1..])
  {
    var seen0 := if ds[0].peripheral.name.Some? then {ds[0].peripheral.name.value} else {};
    forall n | n in SeenNames(ds) ensures n in seen0 + SeenNames(ds[1..]) {
      var i :| 0 <= i < |ds| && ds[i].peripheral.name.Some? && ds[i].peripheral.name.value == n;
      if i > 0 { assert ds[1..][i - 1] == ds[i]; }
    }
    forall n | n in SeenNames(ds[1..]) ensures n in SeenNames(ds) {
      var i :| 0 <= i < |ds[1..]| && ds[1..][i].peripheral.name.Some? && ds[1..][i].peripheral.name.value == n;
      assert ds[i + 1] == ds[1..][i];
    }
  }

  /** Replaying discoveries keeps the registry valid, only ever appends,
      and collects exactly the non-empty names seen. */
  lemma {:induction false} RegisterAllNames(reg: seq<Peripheral>, ds: seq<Discovery>)
    requires RegistryValid(reg)
    ensures RegistryValid(RegisterAll(reg, ds))
    ensures Names(RegisterAll(reg, ds)) == Names(reg) + SeenNames(ds)
    ensures |RegisterAll(reg, ds)| >= |reg|
    ensures RegisterAll(reg, ds)[..|reg|] == reg
    decreases |ds|
  {
    if ds == [] {
      assert SeenNames(ds) == {};
    } else {
      var next := Register(reg, ds[0]);
      RegisterSpec(reg, ds[0]);
      RegisterAllNames(next, ds[1..]);
      SeenNamesCons(ds);
      if ds[0].peripheral.name.Some? && next != reg {
        NamesSnoc(reg, next[|reg|]);
        assert next == reg + [next[|reg|]];
      }
      var rest := RegisterAll(next, ds[1..]);
      assert rest[..|reg|] == rest[..|next|][..|reg|];
    }
  }

  /** Starting from an empty registry, its length is the number of distinct
      names seen, however often each one was reported and with whatever
      signal strength. */
  lemma RegistryCountsDistinctNames(ds: seq<Discovery>)
    ensures |RegisterAll([], ds)| == |SeenNames(ds)|
    ensures RegistryValid(RegisterAll([], ds))
  {
    RegisterAllNames([], ds);
    NamesCount(RegisterAll([], ds));
    assert Names([]) == {};
  }

  /** The binding a `for ch in characteristics` loop leaves for `uuid`: the
      last characteristic with that UUID, or the previous binding if none. */
  function LastWithUuid(chars: seq<Characteristic>, uuid: string, previous: Option<Characteristic>): (r: Option<Characteristic>)
    ensures (forall j :: 0 <= j < |chars| ==> chars[j].uuid != uuid) ==> r == previous
    ensures (exists j :: 0 <= j < |chars| && chars[j].uuid == uuid) ==>
      exists k :: 0 <= k < |chars| && r == Some(chars[k]) && chars[k].uuid == uuid &&
        forall j :: k < j < |chars| ==> chars[j].uuid != uuid
    decreases |chars|
  {
    if chars == [] then previous
    else if chars[|chars| - 1].uuid == uuid then Some(chars[|chars| - 1])
    else LastWithUuid(chars[..|chars| - 1], uuid, previous)
  }

  /** How many of `chars` carry `uuid`. */
  function CountUuid(chars: seq<Characteristic>, uuid: string): (n: nat)
    ensures n <= |chars|
    decreases |chars|
  {
    if chars == [] then 0
    else CountUuid(chars[..|chars| - 1], uuid) + (if chars[|chars| - 1].uuid == uuid then 1 else 0)
  }

  /** The notification subscriptions the loop requests: one per output
      characteristic, in order, on the active peripheral. */
  function NotifyRequests(p: PeripheralRef, chars: seq<Characteristic>): seq<RadioCall>
    decreases |chars|
  {
    if chars == [] then []
    else
      var last := chars[|chars| - 1];
      NotifyRequests(p, chars[..|chars| - 1]) +
        (if last.uuid == OutputCharUuid then [SetNotifyValue(p, true, last)] else [])
  }

  /** There is one request per output-UUID characteristic, every request is
      a subscription, on `p`, to an output-UUID characteristic, and without
      one there are none. */
  lemma {:induction false} NotifyRequestsOnlyOutput(p: PeripheralRef, chars: seq<Characteristic>)
    ensures |NotifyRequests(p, chars)| == CountUuid(chars, OutputCharUuid)
    ensures forall k :: 0 <= k < |NotifyRequests(p, chars)| ==>
      var r := NotifyRequests(p, chars);
      r[k].SetNotifyValue? && r[k] == SetNotifyValue(p, true, r[k].characteristic) && r[k].characteristic.uuid == OutputCharUuid
    ensures (forall j :: 0 <= j < |chars| ==> chars[j].uuid != OutputCharUuid) ==> NotifyRequests(p, chars) == []
    decreases |chars|
  {
    if chars != [] {
      var n := |chars| - 1;
      NotifyRequestsOnlyOutput(p, chars[..n]);
      assert forall j :: 0 <= j < n ==> chars[..n][j] == chars[j];
    }
  }

  /** Every output-UUID characteristic is subscribed to, and in the order of
      discovery: the subscription for `chars[j]` comes after one for each
      output characteristic before it. */
  lemma {:induction false} NotifyRequestsInOrder(p: PeripheralRef, chars: seq<Characteristic>)
    ensures forall j :: 0 <= j < |chars| && chars[j].uuid == OutputCharUuid ==>
      && CountUuid(chars[..j], OutputCharUuid) < |NotifyRequests(p, chars)|
      && NotifyRequests(p, chars)[CountUuid(chars[..j], OutputCharUuid)] == SetNotifyValue(p, true, chars[j])
    decreases |chars|
  {
    if chars != [] {
      var n := |chars| - 1;
      var init := chars[..n];
      NotifyRequestsInOrder(p, init);
      NotifyRequestsOnlyOutput(p, init);
      forall j | 0 <= j < |chars| && chars[j].uuid == OutputCharUuid
        ensures && CountUuid(chars[..j], OutputCharUuid) < |NotifyRequests(p, chars)|
                && NotifyRequests(p, chars)[CountUuid(chars[..j], OutputCharUuid)] == SetNotifyValue(p, true, chars[j])
      {
        if j < n {
          assert init[..j] == chars[..j];
          assert init[j] == chars[j];
        } else {
          assert chars[..j] == init;
        }
      }
    }
  }

  /** Characteristic discovery over a service holding one input, one output
      and one unrelated characteristic binds exactly the first two, and
      subscribes to notifications for the output one only. */
  lemma DiscoveryBindsKnownUuids(p: PeripheralRef, input: Characteristic, output: Characteristic, other: Characteristic,
                                 oldInput: Option<Characteristic>, oldOutput: Option<Characteristic>)
    requires input.uuid == InputCharUuid && output.uuid == OutputCharUuid
    requires other.uuid != InputCharUuid && other.uuid != OutputCharUuid
    ensures LastWithUuid([input, output, other], InputCharUuid, oldInput) == Some(input)
    ensures LastWithUuid([input, output, other], OutputCharUuid, oldOutput) == Some(output)
    ensures NotifyRequests(p, [input, output, other]) == [SetNotifyValue(p, true, output)]
  {
    assert InputCharUuid[0] != OutputCharUuid[0];
    var all := [input, output, other];
    assert all[..2] == [input, output] && all[..2][..1] == [input] && all[..2][..1][..0] == [];
    assert LastWithUuid(all, InputCharUuid, oldInput) == LastWithUuid([input, output], InputCharUuid, oldInput)
        == LastWithUuid([input], InputCharUuid, oldInput);
    assert LastWithUuid(all, OutputCharUuid, oldOutput) == LastWithUuid([input, output], OutputCharUuid, oldOutput);
    assert NotifyRequests(p, all) == NotifyRequests(p, [input, output])
        == NotifyRequests(p, [input]) + [SetNotifyValue(p, true, output)];
    assert NotifyRequests(p, [input]) == NotifyRequests(p, []);
  }

  class BleManager {
    var isSwitchedOn: bool
    var peripherals: seq<Peripheral>
    /** `myPeripheral` (an implicitly unwrapped optional) */
    var myPeripheral: Option<PeripheralRef>
    var inputChar: Option<Characteristic>
    var outputChar: Option<Characteristic>
    /** The one-byte write buffer `sound` */
    const sound: array<byte>
    /** Every request made of the radio stack, oldest first. */
    ghost var log: seq<RadioCall>

    ghost predicate Valid()
      reads this`peripherals
    {
      sound.Length == 1 && RegistryValid(peripherals)
    }

    constructor ()
      ensures Valid() && fresh(sound)
      ensures !isSwitchedOn && peripherals == [] && myPeripheral == None
      ensures inputChar == None && outputChar == None
      ensures sound[..] == [20] && log == []
    {
      isSwitchedOn := false;
      peripherals := [];
      myPeripheral := None;
      inputChar := None;
      outputChar := None;
      sound := new byte[1](_ => 20);
      log := [];
      new;
      assert sound[..] == [sound[0]];
    }

    /** `centralManagerDidUpdateState` */
    method CentralManagerDidUpdateState(state: ManagerState)
      modifies this`isSwitchedOn
      ensures isSwitchedOn <==> state == PoweredOn
    {
      if state == PoweredOn {
        isSwitchedOn := true;
      } else {
        isSwitchedOn := false;
      }
    }

    /** `centralManager(_:didDiscover:advertisementData:rssi:)` */
    method DidDiscover(peripheral: PeripheralRef, rssi: int)
      requires Valid()
      modifies this`peripherals
      ensures Valid()
      ensures peripherals == Register(old(peripherals), Discovery(peripheral, rssi))
      ensures |peripherals| >= |old(peripherals)| && peripherals[..|old(peripherals)|] == old(peripherals)
    {
      var peripheralName := peripheral.name;
      if peripheralName.Some? {
        if !Contains(peripherals, HasName(peripheralName.value)) {
          var newPeripheral := Peripheral(|peripherals|, peripheralName.value, rssi, peripheral);
          peripherals := peripherals + [newPeripheral];
        }
      }
      RegisterSpec(old(peripherals), Discovery(peripheral, rssi));
    }

    /** `connectToDevice(peripheral:)`: replaces any active peripheral
        without cancelling its connection. */
    method ConnectToDevice(peripheral: PeripheralRef)
      modifies this`myPeripheral, this`log
      ensures myPeripheral == Some(peripheral)
      ensures log == old(log) + [Connect(peripheral)]
    {
      myPeripheral := Some(peripheral);
      log := log + [Connect(peripheral)];
    }

    /** `centralManager(_:didConnect:)`: services are discovered on the
        active peripheral, which the source force-unwraps. */
    method DidConnect(peripheral: PeripheralRef)
      requires myPeripheral.Some?
      modifies this`log
      ensures log == old(log) + [DiscoverServices(myPeripheral.value, None)]
    {
      log := log + [DiscoverServices(myPeripheral.value, None)];
    }

    /** `disconnectToDevice()`: the characteristic bindings are left as they are. */
    method DisconnectToDevice()
      modifies this`myPeripheral, this`log
      ensures old(myPeripheral).None? ==> myPeripheral == None && log == old(log)
      ensures old(myPeripheral).Some? ==>
        myPeripheral == None && log == old(log) + [CancelConnection(old(myPeripheral).value)]
    {
      if myPeripheral.Some? {
        log := log + [CancelConnection(myPeripheral.value)];
        myPeripheral := None;
      }
    }

    /** `startScanning()` */
    method StartScanning()
      modifies this`log
      ensures log == old(log) + [ScanForPeripherals(None)]
    {
      log := log + [ScanForPeripherals(None)];
    }

    /** `stopScanning()` */
    method StopScanning()
      modifies this`log
      ensures log == old(log) + [StopScan]
    {
      log := log + [StopScan];
    }

    /** `send(volume:)`: a no-op unless a peripheral is active and the input
        characteristic is bound. The byte written is the system output
        volume (`systemVolume`), not the `volume` argument. */
    method Send(volume: byte, systemVolume: byte)
      requires Valid()
      modifies sound, this`log
      ensures myPeripheral.None? || inputChar.None? ==>
        log == old(log) && sound[..] == old(sound[..])
      ensures myPeripheral.Some? && inputChar.Some? ==>
        && sound[..] == [systemVolume]
        && log == old(log) + [WriteValue(myPeripheral.value, [systemVolume], inputChar.value, WithoutResponse)]
    {
      if myPeripheral.None? || inputChar.None? {
        return;
      }
      sound[0] := systemVolume;
      log := log + [WriteValue(myPeripheral.value, sound[..], inputChar.value, WithoutResponse)];
    }

    /** `peripheral(_:didDiscoverServices:)`: characteristics of every
        service are requested, on the peripheral passed in. */
    method DidDiscoverServices(peripheral: PeripheralRef, services: Option<seq<Service>>)
      modifies this`log
      ensures services.None? ==> log == old(log)
      ensures services.Some? ==>
        && |log| == |old(log)| + |services.value|
        && log[..|old(log)|] == old(log)
        && forall k :: 0 <= k < |services.value| ==>
             log[|old(log)| + k] == DiscoverCharacteristics(peripheral, services.value[k])
    {
      if services.None? {
        return;
      }
      var all := services.value;
      for i := 0 to |all|
        invariant |log| == |old(log)| + i
        invariant log[..|old(log)|] == old(log)
        invariant forall k :: 0 <= k < i ==> log[|old(log)| + k] == DiscoverCharacteristics(peripheral, all[k])
      {
        log := log + [DiscoverCharacteristics(peripheral, all[i])];
      }
    }

    /** `peripheral(_:didDiscoverCharacteristicsFor:error:)`: binds the input
        and output characteristics by UUID and subscribes to the output one;
        other UUIDs are ignored, and a missing list changes nothing. The
        active peripheral is force-unwrapped by the source. */
    method DidDiscoverCharacteristics(characteristics: Option<seq<Characteristic>>)
      requires myPeripheral.Some?
      modifies this`inputChar, this`outputChar, this`log
      ensures characteristics.None? ==>
        inputChar == old(inputChar) && outputChar == old(outputChar) && log == old(log)
      ensures characteristics.Some? ==>
        && inputChar == LastWithUuid(characteristics.value, InputCharUuid, old(inputChar))
        && outputChar == LastWithUuid(characteristics.value, OutputCharUuid, old(outputChar))
        && log == old(log) + NotifyRequests(myPeripheral.value, characteristics.value)
    {
      if characteristics.None? {
        return;
      }
      var chars := characteristics.value;
      for i := 0 to |chars|
        invariant inputChar == LastWithUuid(chars[..i], InputCharUuid, old(inputChar))
        invariant outputChar == LastWithUuid(chars[..i], OutputCharUuid, old(outputChar))
        invariant log == old(log) + NotifyRequests(myPeripheral.value, chars[..i])
      {
        var ch := chars[i];
        assert chars[..i + 1][..i] == chars[..i];
        if ch.uuid == InputCharUuid {
          inputChar := Some(ch);
        } else if ch.uuid == OutputCharUuid {
          outputChar := Some(ch);
          log := log + [SetNotifyValue(myPeripheral.value, true, ch)];
        }
      }
      assert chars[..|chars|] == chars;
    }
  }

  /** No write reaches the radio before characteristic discovery has bound
      the input channel, and disconnecting right after connecting leaves no
      active peripheral and no binding. */
  method SendBeforeDiscoveryScenario(p: PeripheralRef, volume: byte, systemVolume: byte)
  {
    var manager := new BleManager();
    manager.ConnectToDevice(p);
    manager.Send(volume, systemVolume);
    assert manager.log == [Connect(p)];
    assert manager.sound[..] == [20];
    manager.DisconnectToDevice();
    assert manager.myPeripheral == None && manager.inputChar == None && manager.outputChar == None;
    assert manager.log == [Connect(p), CancelConnection(p)];
    manager.DisconnectToDevice();
    assert manager.log == [Connect(p), CancelConnection(p)];
  }
}
