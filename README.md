# Whispr core, modelled in Dafny

Whispr is an iOS app for finding Bluetooth Low Energy speakers, connecting to
them and configuring them. Its logic sits in seven places, one Dafny module each:

- `Speakers` (Speaker.swift): the speaker store `ContentManager`. It holds a list
  of `Speaker` objects, and each speaker holds a list of saved `SpeakerConfig`s.
  The store has four mutators: add a speaker, add a configuration, delete a
  speaker, delete a configuration. Searches use the first speaker with a given
  id, and ids need not be unique.
- `GenericBle` (the `BLEManager` of the WhisprGenericViews package):
  - a peripheral registry deduplicated by name, with `id == position`;
  - one active peripheral;
  - binding of the input and output characteristics by UUID, with a
    notification subscription for the output one;
  - a guarded one-byte write.
- `LegacyBle` (the app's older `BLEManager`). Every discovery is listed, under its
  advertised local name or "Unknown". A peripheral advertising
  "LE-Diamant noir" is connected to at once.
- `BleService` (BluetoothService.swift plus its delegate extension in
  ConnectionHandler.swift):
  - one candidate peripheral, chosen by the name prefix "WhisprSpeaker";
  - scan and connect only while the radio is powered on;
  - loss of power runs stop-scan and then disconnect;
  - the data characteristic is cleared on disconnect or on a failed connect.
- `HighlightedText`: splits a text on spaces, flags the words found in a list,
  and joins the pieces with single spaces.
- `CustomSlider`: the thumb-offset and value arithmetic of the custom slider and
  the callbacks that update its state.
- Two shared modules. `Collections` holds Swift's `first(where:)`,
  `contains(where:)` and `removeAll(where:)`. `Radio` holds CoreBluetooth
  reduced to values: power states, handles for peripherals, services and
  characteristics, and one `RadioCall` per outbound request.

Every object whose fields the Swift code assigns is a Dafny `class`. This covers
`Speaker`, `ContentManager`, both `BLEManager`s, `BluetoothService` and the
slider's `@State`. Each `ensures` gives the whole new state in terms of the old
one. Each Bluetooth class keeps a ghost `log` of the requests it makes of the
radio, so that statements like "no write is issued" can be written down.
Delegate callbacks are ordinary method calls, delivered one at a time. Three
kinds of input come in as parameters:

- ids (for `UUID()`);
- the system output volume;
- the power state pushed by the platform.

The methods `Speakers.SharedIdScenario`, `GenericBle.SendBeforeDiscoveryScenario`
and `BleService.PowerLossScenario` are clients, written the way a caller would
use these classes. They show what the contracts imply for a whole sequence of
calls:

- with a shared id, only the first speaker gets the configuration;
- `send` before characteristic discovery writes nothing;
- connect and then disconnect leaves no peripheral;
- a second disconnect does nothing;
- after power loss, `connect` is refused.

`BleService.BluetoothService.BluetoothState` is the `bluetoothState` getter.
It returns the central manager's state, and the guards of `StartScan` and
`Connect` read that same value.

Behaviour of the code worth noting, which the model keeps:

- The generic `BLEManager` scans and connects without checking the power state.
- Its `disconnectToDevice` leaves `inputChar` and `outputChar` bound.
- `connectToDevice` replaces the active peripheral without cancelling the
  previous connection.
- `BluetoothService.disconnect` and the disconnect callbacks keep the
  `peripheral` reference. Only `dataCharacteristic` is cleared.

## Model

| member | source | states |
|---|---|---|
| `Collections.FirstIndex` | Whispr/Whispr/Fields/Speaker.swift:56-58 | `first(where:)`: the index found satisfies the predicate and no earlier element does; there is no index exactly when no element satisfies it |
| `Collections.Contains` | Whispr/Whispr/WhisprGenericViews/Sources/WhisprGenericViews/BLEManager.swift:69 | `contains(where:)` is true exactly when some element satisfies the predicate |
| `Collections.RemoveAll` | Whispr/Whispr/Fields/Speaker.swift:67-69 | `removeAll(where:)` keeps only elements that fail the predicate, keeps every such element, and never grows the list |
| `Collections.RemoveAllAppend` | Whispr/Whispr/Fields/Speaker.swift:67-69 | removal distributes over concatenation, so survivors keep their relative order |
| `Collections.RemoveAllCount` | Whispr/Whispr/Fields/Speaker.swift:77-79 | each surviving element keeps its number of occurrences; removed ones have none |
| `Collections.RemoveAllNoMatch` | Whispr/Whispr/Fields/Speaker.swift:66-80 | removing an absent id changes nothing |
| `Collections.RemoveAllIdempotent` | Whispr/Whispr/Fields/Speaker.swift:67-69 | removing the same id twice equals removing it once |
| `Speakers.Speaker.constructor` | Whispr/Whispr/Fields/Speaker.swift:12-24 | a new speaker has the given name, volume 50 and noise cancelling 50 by default, kind "portable2" and no configurations |
| `Speakers.ContentManager.constructor` | Whispr/Whispr/Fields/Speaker.swift:39 | with nothing stored, the store starts empty |
| `Speakers.ContentManager.Add` | Whispr/Whispr/Fields/Speaker.swift:49-52 | the speaker is appended; no speaker's fields change |
| `Speakers.ContentManager.AddConfig` | Whispr/Whispr/Fields/Speaker.swift:55-60 | the configuration is appended to the first speaker with that id; the list and every other speaker object are unchanged; without a match nothing changes |
| `Speakers.ContentManager.Delete` | Whispr/Whispr/Fields/Speaker.swift:66-71 | afterwards no speaker has the id; every speaker with another id is still there, in order; an absent id changes nothing |
| `Speakers.ContentManager.DeleteConfig` | Whispr/Whispr/Fields/Speaker.swift:74-80 | every configuration with that id leaves the first matching speaker only; its other configurations stay in order; other speaker objects are untouched; absent ids change nothing |
| `GenericBle.Register` | Whispr/Whispr/WhisprGenericViews/Sources/WhisprGenericViews/BLEManager.swift:64-75 | one discovery never changes or reorders the existing entries and adds at most one |
| `GenericBle.RegisterSpec` | Whispr/Whispr/WhisprGenericViews/Sources/WhisprGenericViews/BLEManager.swift:64-75 | one discovery keeps names distinct and `id == position`; a nameless peripheral or a known name leaves the registry as it was (RSSI not refreshed); a new name is appended with id equal to the previous count |
| `GenericBle.NamesCount` | Whispr/Whispr/WhisprGenericViews/Sources/WhisprGenericViews/BLEManager.swift:69-71 | a registry with distinct names has as many entries as names |
| `GenericBle.RegisterAllNames` | Whispr/Whispr/WhisprGenericViews/Sources/WhisprGenericViews/BLEManager.swift:64-75 | over any series of discoveries the registry stays valid, existing entries are never changed or reordered, and its names are the old names plus every name seen |
| `GenericBle.RegistryCountsDistinctNames` | Whispr/Whispr/WhisprGenericViews/Sources/WhisprGenericViews/BLEManager.swift:64-75 | from an empty registry, the number of entries equals the number of distinct non-nil names reported |
| `GenericBle.LastWithUuid` | Whispr/Whispr/WhisprGenericViews/Sources/WhisprGenericViews/BLEManager.swift:137-148 | after the loop a binding is the last characteristic with its UUID, or the previous binding when none matches |
| `GenericBle.NotifyRequests` | Whispr/Whispr/WhisprGenericViews/Sources/WhisprGenericViews/BLEManager.swift:137-148 | the subscriptions the loop requests, as a function of the characteristics; its properties are the next two rows |
| `GenericBle.NotifyRequestsOnlyOutput` | Whispr/Whispr/WhisprGenericViews/Sources/WhisprGenericViews/BLEManager.swift:141-144 | there are exactly as many requests as output-UUID characteristics; each is a `setNotifyValue(true)` on the peripheral for an output-UUID characteristic; none without one |
| `GenericBle.NotifyRequestsInOrder` | Whispr/Whispr/WhisprGenericViews/Sources/WhisprGenericViews/BLEManager.swift:137-148 | every output-UUID characteristic is subscribed to, in discovery order: the one at index `j` gets the request after those of the output characteristics before it |
| `GenericBle.DiscoveryBindsKnownUuids` | Whispr/Whispr/WhisprGenericViews/Sources/WhisprGenericViews/BLEManager.swift:137-148 | for input, output and unrelated characteristics, exactly the first two are bound and only the output one is subscribed to |
| `GenericBle.BleManager.constructor` | Whispr/Whispr/WhisprGenericViews/Sources/WhisprGenericViews/BLEManager.swift:42-62 | starts switched off, with no peripherals, no active peripheral, no bindings and the buffer `[20]` |
| `GenericBle.BleManager.CentralManagerDidUpdateState` | Whispr/Whispr/WhisprGenericViews/Sources/WhisprGenericViews/BLEManager.swift:31-38 | `isSwitchedOn` is true exactly when the state is poweredOn |
| `GenericBle.BleManager.DidDiscover` | Whispr/Whispr/WhisprGenericViews/Sources/WhisprGenericViews/BLEManager.swift:64-75 | the registry becomes `Register(old, discovery)`, stays valid, and keeps its old entries as a prefix |
| `GenericBle.BleManager.ConnectToDevice` | Whispr/Whispr/WhisprGenericViews/Sources/WhisprGenericViews/BLEManager.swift:77-82 | the given peripheral becomes active, replacing any other, and exactly one connect is requested |
| `GenericBle.BleManager.DidConnect` | Whispr/Whispr/WhisprGenericViews/Sources/WhisprGenericViews/BLEManager.swift:84-88 | one unfiltered service discovery is requested on the active peripheral |
| `GenericBle.BleManager.DisconnectToDevice` | Whispr/Whispr/WhisprGenericViews/Sources/WhisprGenericViews/BLEManager.swift:90-96 | with no active peripheral nothing happens; otherwise its connection is cancelled and it is cleared; bindings are untouched |
| `GenericBle.BleManager.StartScanning` | Whispr/Whispr/WhisprGenericViews/Sources/WhisprGenericViews/BLEManager.swift:98-101 | one unfiltered scan is requested |
| `GenericBle.BleManager.StopScanning` | Whispr/Whispr/WhisprGenericViews/Sources/WhisprGenericViews/BLEManager.swift:103-106 | one stop is requested |
| `GenericBle.BleManager.Send` | Whispr/Whispr/WhisprGenericViews/Sources/WhisprGenericViews/BLEManager.swift:108-118 | without an active peripheral or input binding nothing is written; otherwise one write-without-response of the one byte of system volume (not the `volume` argument) goes to the input characteristic |
| `GenericBle.BleManager.DidDiscoverServices` | Whispr/Whispr/WhisprGenericViews/Sources/WhisprGenericViews/BLEManager.swift:120-128 | a nil list requests nothing; otherwise one characteristic discovery per service, in order |
| `GenericBle.BleManager.DidDiscoverCharacteristics` | Whispr/Whispr/WhisprGenericViews/Sources/WhisprGenericViews/BLEManager.swift:130-149 | a nil list changes nothing; otherwise the bindings are the last matches and one subscription is requested per output match, in order |
| `LegacyBle.ListedName` | Whispr/Whispr/BLEManager.swift:43-53 | the listed name is the advertised local name, or "Unknown" without one |
| `LegacyBle.ListAll` | Whispr/Whispr/BLEManager.swift:40-58 | a series of discoveries adds exactly one entry per discovery |
| `LegacyBle.ListAllSpec` | Whispr/Whispr/BLEManager.swift:40-58 | each discovery adds exactly one entry, whatever names repeat; the old list stays as a prefix; entry `k` has id `k`, the listed name and the reported RSSI |
| `LegacyBle.ListAllSnoc` | Whispr/Whispr/BLEManager.swift:55-57 | one more discovery appends one more entry |
| `LegacyBle.BleManager.constructor` | Whispr/Whispr/BLEManager.swift:27-38 | starts switched off, with no peripherals and no active peripheral |
| `LegacyBle.BleManager.CentralManagerDidUpdateState` | Whispr/Whispr/BLEManager.swift:18-25 | `isSwitchedOn` is true exactly when the state is poweredOn |
| `LegacyBle.BleManager.DidDiscover` | Whispr/Whispr/BLEManager.swift:40-58 | one entry is appended; "LE-Diamant noir" makes the peripheral active with one connect request; otherwise the active peripheral and the log are unchanged |
| `LegacyBle.BleManager.StartScanning` | Whispr/Whispr/BLEManager.swift:60-63 | one unfiltered scan is requested |
| `LegacyBle.BleManager.StopScanning` | Whispr/Whispr/BLEManager.swift:65-68 | one stop is requested |
| `BleService.Accepts` | Whispr/Whispr/ConnectionHandler.swift:27 | the discovery filter: the name is non-nil and starts with "WhisprSpeaker" |
| `BleService.LastAccepted` | Whispr/Whispr/ConnectionHandler.swift:26-31 | after a series of discoveries the candidate is the last one whose name starts with "WhisprSpeaker", or unchanged if none did |
| `BleService.LastAcceptedAppend` | Whispr/Whispr/ConnectionHandler.swift:26-31 | a later accepted discovery replaces the candidate; a rejected one leaves it |
| `BleService.BluetoothService.constructor` | Whispr/Whispr/BluetoothService.swift:16-26 | starts with no candidate, no data characteristic and no requests |
| `BleService.BluetoothService.BluetoothState` | Whispr/Whispr/BluetoothService.swift:19-21 | the central manager's current state, the value the guards of `StartScan` and `Connect` test |
| `BleService.BluetoothService.StartScan` | Whispr/Whispr/BluetoothService.swift:28-34 | the candidate is always cleared; a scan is requested only when powered on |
| `BleService.BluetoothService.StopScan` | Whispr/Whispr/BluetoothService.swift:36-39 | always requests a stop and changes no field |
| `BleService.BluetoothService.Connect` | Whispr/Whispr/BluetoothService.swift:41-45 | requests a connect to the candidate only when powered on with a candidate; otherwise nothing |
| `BleService.BluetoothService.Disconnect` | Whispr/Whispr/BluetoothService.swift:47-50 | with no candidate nothing; otherwise a cancel is requested and the candidate is kept |
| `BleService.BluetoothService.CentralManagerDidUpdateState` | Whispr/Whispr/ConnectionHandler.swift:15-24 | any state but poweredOn requests a stop and then a cancel of the candidate, if any; poweredOn only notifies the flow controller |
| `BleService.BluetoothService.DidDiscover` | Whispr/Whispr/ConnectionHandler.swift:26-31 | a name starting with "WhisprSpeaker" becomes the candidate; nil or other names leave it |
| `BleService.BluetoothService.DidConnect` | Whispr/Whispr/ConnectionHandler.swift:33-42 | one unfiltered service discovery is requested on the connected peripheral |
| `BleService.BluetoothService.DidDisconnectPeripheral` | Whispr/Whispr/ConnectionHandler.swift:44-47 | the data characteristic is cleared and the candidate is kept |
| `BleService.BluetoothService.DidFailToConnect` | Whispr/Whispr/ConnectionHandler.swift:49-52 | the data characteristic is cleared and the candidate is kept |
| `HighlightedText.Split` | Whispr/Whispr/WhisprGenericViews/Sources/WhisprGenericViews/HighlightedText.swift:58 | `split(separator: " ")`: every piece is non-empty and contains no space |
| `HighlightedText.Join` | Whispr/Whispr/WhisprGenericViews/Sources/WhisprGenericViews/HighlightedText.swift:63 | the words with exactly one `" "` between consecutive ones; `SplitJoin` states its relation to `Split` |
| `HighlightedText.SplitAtSpace` | Whispr/Whispr/WhisprGenericViews/Sources/WhisprGenericViews/HighlightedText.swift:58 | splitting `a + " " + b` gives the words of `a` then those of `b`, so empty pieces between spaces are dropped |
| `HighlightedText.SplitWord` | Whispr/Whispr/WhisprGenericViews/Sources/WhisprGenericViews/HighlightedText.swift:58 | a word without spaces splits to itself |
| `HighlightedText.SplitAllSpaces` | Whispr/Whispr/WhisprGenericViews/Sources/WhisprGenericViews/HighlightedText.swift:58 | a text has no words exactly when it is empty or all spaces |
| `HighlightedText.SplitJoin` | Whispr/Whispr/WhisprGenericViews/Sources/WhisprGenericViews/HighlightedText.swift:58-64 | splitting words joined by single spaces gives back the same words |
| `HighlightedText.JoinSplitStable` | Whispr/Whispr/WhisprGenericViews/Sources/WhisprGenericViews/HighlightedText.swift:58-63 | splitting the rendered text again yields the original words |
| `HighlightedText.JoinSnoc` | Whispr/Whispr/WhisprGenericViews/Sources/WhisprGenericViews/HighlightedText.swift:63 | appending one word to the join adds one space and that word |
| `HighlightedText.HighlightByMembership` | Whispr/Whispr/WhisprGenericViews/Sources/WhisprGenericViews/HighlightedText.swift:60-62 | only membership in the highlight list matters, not order or repetition |
| `HighlightedText.BuildFinalText` | Whispr/Whispr/WhisprGenericViews/Sources/WhisprGenericViews/HighlightedText.swift:53-65 | `finalText` stays nil exactly when there are no words; otherwise word runs (highlighted iff listed) alternate with `" "` runs; the plain text is the words joined by single spaces |
| `CustomSlider.Round` | Whispr/Whispr/WhisprGenericViews/Sources/WhisprGenericViews/CustomSlider.swift:185 | rounds to within one half, with halfway cases away from zero |
| `CustomSlider.Percentage` | Whispr/Whispr/WhisprGenericViews/Sources/WhisprGenericViews/CustomSlider.swift:124-126 | the source's formula for `percentage`; `PercentageLinear` states its meaning |
| `CustomSlider.PercentageLinear` | Whispr/Whispr/WhisprGenericViews/Sources/WhisprGenericViews/CustomSlider.swift:124-126 | `percentage == (value - lower) / (upper - lower)`; 0 at `lower`, 1 at `upper`, in [0, 1] for values in bounds |
| `CustomSlider.FillWidth` | Whispr/Whispr/WhisprGenericViews/Sources/WhisprGenericViews/CustomSlider.swift:129-131 | for values in bounds, the fill lies between 0 and the track width |
| `CustomSlider.ClampOffset` | Whispr/Whispr/WhisprGenericViews/Sources/WhisprGenericViews/CustomSlider.swift:180-181 | the drag offset lies in `[0, trackWidth - thumbWidth]`; in-range offsets are kept and others go to the nearer end; a negative available width gives 0 |
| `CustomSlider.MapOffset` | Whispr/Whispr/WhisprGenericViews/Sources/WhisprGenericViews/CustomSlider.swift:184 | the offset's share of the available width, mapped onto the bounds; `MapOffsetBounds` states its range |
| `CustomSlider.MapOffsetBounds` | Whispr/Whispr/WhisprGenericViews/Sources/WhisprGenericViews/CustomSlider.swift:184 | offset 0 maps to `lower`, the full width to `upper`, and offsets in between to values in bounds |
| `CustomSlider.Snap` | Whispr/Whispr/WhisprGenericViews/Sources/WhisprGenericViews/CustomSlider.swift:185 | the stepped value is an integer multiple of `step` within `step / 2` of the unstepped value |
| `CustomSlider.ClampValue` | Whispr/Whispr/WhisprGenericViews/Sources/WhisprGenericViews/CustomSlider.swift:186 | the result lies in bounds, in-bounds values are kept, and others go to the nearer bound |
| `CustomSlider.DragValue` | Whispr/Whispr/WhisprGenericViews/Sources/WhisprGenericViews/CustomSlider.swift:184-186 | the value set by a drag always lies in bounds |
| `CustomSlider.DragEnds` | Whispr/Whispr/WhisprGenericViews/Sources/WhisprGenericViews/CustomSlider.swift:180-186 | dragging to an end of the track gives a value within half a step of that end's bound, inside the bounds |
| `CustomSlider.Slider.constructor` | Whispr/Whispr/WhisprGenericViews/Sources/WhisprGenericViews/CustomSlider.swift:84-88 | offsets and track size start at zero; whether an `onEditingChanged` handler was passed (nil by default) is fixed |
| `CustomSlider.Slider.MeasureSize` | Whispr/Whispr/WhisprGenericViews/Sources/WhisprGenericViews/CustomSlider.swift:144-153 | the track size is always updated; only the first measurement sets `xOffset := width * percentage` and `lastOffset := xOffset` |
| `CustomSlider.Slider.DragChanged` | Whispr/Whispr/WhisprGenericViews/Sources/WhisprGenericViews/CustomSlider.swift:173-186 | a translation under 0.1 sets `lastOffset` to the old `xOffset` and reports `true` if a handler exists; the offset is `ClampOffset` of the translated start, within `[0, trackWidth - thumbWidth]` when that is positive and 0 when it is negative; the value is `DragValue`, always in bounds |
| `CustomSlider.Slider.DragEnded` | Whispr/Whispr/WhisprGenericViews/Sources/WhisprGenericViews/CustomSlider.swift:187-190 | reports `false` to `onEditingChanged` if a handler exists; otherwise nothing |
| `CustomSlider.FirstPlacementBeyondDragRange` | Whispr/Whispr/WhisprGenericViews/Sources/WhisprGenericViews/CustomSlider.swift:147-152 | at `value == upper`, the first-measure offset (full track width) is beyond where a drag can reach, whenever the thumb has positive width |

## Left out

- Persistence: `save()` with JSONEncoder and UserDefaults, the decoding branch of
  `ContentManager.init`, and `objectWillChange.send()`. These are storage and
  observation plumbing. The constructor models only the branch where nothing is
  stored.
- Id and date generation. `UUID()` is replaced by ids passed in. The
  `startTime`/`endTime` of `SpeakerConfig` come from the calendar and the clock.
  `SpeakerConfig` is a value here because the store never mutates one.
- `Speaker` and `SpeakerConfig` being `Codable`: serialization only.
- `private(set)` on `ContentManager.speakers`. Dafny has no access control
  on fields, so any client of the model may assign `speakers`. The claim that
  only the four methods change it is therefore not stated or proved.
- `Speaker.id` is a `var` in Swift but a `const` here, since nothing assigns it
  after construction.
- String semantics. Strings are sequences of Unicode scalar values, compared
  scalar by scalar. Swift compares `String`s and `Character`s by extended
  grapheme clusters under canonical equivalence. Neither that nor
  normalisation is modelled. The string properties proved here hold for texts
  where each scalar is its own grapheme cluster and no two names differ only
  in canonical form. Four operations are affected:
  - `split(separator: " ")` (`HighlightedText.Split`): a space followed by a
    combining mark is not a separator in Swift;
  - `highlighted.contains` (`HighlightedText.BuildFinalText`);
  - the name comparison of the registry (`GenericBle.HasName`), where
    "caf\u{e9}" and "cafe\u{301}" are equal in Swift;
  - `starts(with:)` (`BleService.Accepts`).
- CoreBluetooth itself. Not modelled: asynchronous delivery, delegate queues,
  radio behaviour, the radio's replies, and `peripheral.delegate = self`
  assignments. Creating the `CBCentralManager` is not a logged request.
- The `flowController` property is not part of this model. `bluetoothOn()` is
  logged unconditionally, so the case where `flowController` is nil is not
  modelled.
- The system output volume read in `send` (`AVAudioSession`) and its Float to
  `UInt8` conversion. The byte is a parameter, `systemVolume`.
- `didUpdateValueFor` and `writeOutgoingValue`, with their UTF-8 decoding and
  encoding. Both depend on `rxCharacteristic`/`txCharacteristic`, which nothing
  assigns.
- `didUpdateNotificationStateFor`: it only prints.
- The unused members `cbperipherals`, `mychar`, `id`, `serviceUUID`,
  `dataServiceUuid` and `dataCharacteristicUuid`. The UUID constants are still
  declared in the model.
- GenericBle.BleManager.DidConnect: the crash when `myPeripheral` is nil (an
  implicitly unwrapped optional) is a precondition, not a modelled trap.
- GenericBle.BleManager.DidDiscoverCharacteristics: the same force-unwrap of
  `myPeripheral` is a precondition.
- CustomSlider, floating point: IEEE behaviour (NaN, infinities, rounding of
  intermediate results) and the CGFloat/Value conversions. Numbers are reals.
  Swift's `round` tie rule is modelled exactly.
- CustomSlider.Slider.DragChanged: requires `trackWidth != thumbWidth`. With
  equal widths the source computes `0 / 0`, a NaN, which reals do not have. A
  negative available width is modelled: the thumb goes to 0 and the value to
  the stepped, clamped lower bound. This happens, for example, on a drag
  before the first measurement.
- CustomSlider.Slider.MeasureSize: requires `lower < upper` and `step > 0`.
  `lower == upper` makes `percentage` divide by zero in the source.
- CustomSlider view building: `body`, the `measureSize` modifier plumbing and
  `SizePreferenceKey`.
- HighlightedText: the colours themselves, and SwiftUI `Text` concatenation.
  Each styled piece is a `Run` carrying a highlighted flag.
- The timer-driven `isClicked` resets, all SwiftUI views, layout and theming,
  and every `print`.
