/** The app's older `BLEManager`: every discovery is listed under its
    advertised local name (or "Unknown"), without deduplication, and a
    peripheral advertising the hard-coded name "LE-Diamant noir" is
    connected to at once. */
module LegacyBle {
  import opened Collections
  import opened Radio

  const AutoConnectName: string := "LE-Diamant noir"
  const UnknownName: string := "Unknown"

  /** A registry entry (`struct Peripheral`, with no peripheral handle). */
  datatype Peripheral = Peripheral(id: int, name: string, rssi: int)

  /** One `didDiscover` callback: the peripheral, the local name in its
      advertisement data (if it holds a string there) and the reported RSSI. */
  datatype Advertisement = Advertisement(peripheral: PeripheralRef, localName: Option<string>, rssi: int)

  /** The name a discovery is listed under. */
  function ListedName(localName: Option<string>): (r: string)
    ensures localName.Some? ==> r == localName.value
    ensures localName.None? ==> r == UnknownName
  {
    match localName
    case Some(name) => name
    case None => UnknownName
  }

  /** Whether a discovery triggers the automatic connection. */
  predicate AutoConnects(localName: Option<string>) {
    localName == Some(AutoConnectName)
  }

  /** The list after a series of discoveries starting from `reg`. */
  function ListAll(reg: seq<Peripheral>, ads: seq<Advertisement>): (r: seq<Peripheral>)
    ensures |r| == |reg| + |ads|
    decreases |ads|
  {
    if ads == [] then reg
    else ListAll(reg + [Peripheral(|reg|, ListedName(ads[0].localName), ads[0].rssi)], ads[1..])
  }

  /** Each discovery adds exactly one entry: entry `k` of the result is the
      discovery at position `k`, with its id, its listed name and its RSSI,
      whatever names repeat. */
  lemma {:induction false} ListAllSpec(reg: seq<Peripheral>, ads: seq<Advertisement>)
    ensures |ListAll(reg, ads)| == |reg| + |ads|
    ensures ListAll(reg, ads)[..|reg|] == reg
    ensures forall k :: 0 <= k < |ads| ==>
      ListAll(reg, ads)[|reg| + k] == Peripheral(|reg| + k, ListedName(ads[k].localName), ads[k].rssi)
    decreases |ads|
  {
    if ads != [] {
      var next := reg + [Peripheral(|reg|, ListedName(ads[0].localName), ads[0].rssi)];
      ListAllSpec(next, ads[1..]);
      var r := ListAll(reg, ads);
      assert r[..|reg|] == r[..|next|][..|reg|];
      forall k | 0 <= k < |ads|
        ensures r[|reg| + k] == Peripheral(|reg| + k, ListedName(ads[k].localName), ads[k].rssi)
      {
        if k == 0 {
          assert r[|reg|] == r[..|next|][|reg|];
        } else {
          assert ads[1..][k - 1] == ads[k];
        }
      }
    }
  }

  class BleManager {
    var isSwitchedOn: bool
    var peripherals: seq<Peripheral>
    /** `myPeripheral` (an implicitly unwrapped optional) */
    var myPeripheral: Option<PeripheralRef>
    /** Every request made of the radio stack, oldest first. */
    ghost var log: seq<RadioCall>

    /** The list's invariant: each entry's id is its position. */
    ghost predicate Valid()
      reads this`peripherals
    {
      forall i :: 0 <= i < |peripherals| ==> peripherals[i].id == i
    }

    constructor ()
      ensures Valid()
      ensures !isSwitchedOn && peripherals == [] && myPeripheral == None && log == []
    {
      isSwitchedOn := false;
      peripherals := [];
      myPeripheral := None;
      log := [];
    }

    /** `centralManagerDidUpdateState` */
    method CentralManagerDidUpdateState(state: ManagerState)
      modifies this`isSwitchedOn
      ensures isSwitchedOn <==> state == PoweredOn
    {
      if state == PoweredOn {
        isSwitchedOn := true;
      } else {
        isSwitchedOn := false;
      }
    }

    /** `centralManager(_:didDiscover:advertisementData:rssi:)` */
    method DidDiscover(ad: Advertisement)
      requires Valid()
      modifies this`peripherals, this`myPeripheral, this`log
      ensures Valid()
      ensures peripherals == old(peripherals) + [Peripheral(|old(peripherals)|, ListedName(ad.localName), ad.rssi)]
      ensures peripherals == ListAll(old(peripherals), [ad])
      ensures AutoConnects(ad.localName) ==>
        myPeripheral == Some(ad.peripheral) && log == old(log) + [Connect(ad.peripheral)]
      ensures !AutoConnects(ad.localName) ==>
        myPeripheral == old(myPeripheral) && log == old(log)
    {
      var peripheralName: string;
      if ad.localName.Some? {
        var name := ad.localName.value;
        peripheralName := name;
        if name == AutoConnectName {
          myPeripheral := Some(ad.peripheral);
          log := log + [Connect(ad.peripheral)];
        }
      } else {
        peripheralName := UnknownName;
      }
      var newPeripheral := Peripheral(|peripherals|, peripheralName, ad.rssi);
      peripherals := peripherals + [newPeripheral];
    }

    /** `startScanning()` */
    method StartScanning()
      modifies this`log
      ensures log == old(log) + [ScanForPeripherals(None)]
    {
      log := log + [ScanForPeripherals(None)];
    }

    /** `stopScanning()` */
    method StopScanning()
      modifies this`log
      ensures log == old(log) + [StopScan]
    {
      log := log + [StopScan];
    }
  }

  /** One more discovery appends one more entry. */
  lemma {:induction false} ListAllSnoc(reg: seq<Peripheral>, ads: seq<Advertisement>, ad: Advertisement)
    ensures ListAll(reg, ads + [ad]) ==
      ListAll(reg, ads) + [Peripheral(|ListAll(reg, ads)|, ListedName(ad.localName), ad.rssi)]
    decreases |ads|
  {
    if ads == [] {
      assert [ad][1..] == [];
    } else {
      assert (ads + [ad])[1..] == ads[1..] + [ad];
      ListAllSnoc(reg + [Peripheral(|reg|, ListedName(ads[0].localName), ads[0].rssi)], ads[1..], ad);
    }
  }
}
