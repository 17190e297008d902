/**
 * The output device id table of `AudioSystemManagerAdapterImpl`: ids are handed out by
 * `GetDeviceIdByDescriptor` and used by device enumeration, selection and the two default queries.
 */
module AudioDevices {
  import opened Options

  const ADAPTER_AUDIO_DEFAULT_DEVICE_ID := 1000000
  const ADAPTER_AUDIO_UNDEFINED_DEVICE_ID := 1000001

  datatype DeviceType =
    | TypeNone | TypeInvalid | Earpiece | Speaker | WiredHeadset | WiredHeadphones
    | BluetoothSco | BluetoothA2dp | Mic | UsbHeadset | FileSink | FileSource | TypeMax

  // `key` stands for every further attribute that IsSameDeviceDesc compares, so that
  // `Same` is an arbitrary equivalence that implies equal type and equal MAC.
  datatype Descriptor = Descriptor(deviceType: DeviceType, mac: string, key: string, deviceId: int, deviceName: string)

  predicate Same(d: Descriptor, e: Descriptor) {
    d.deviceType == e.deviceType && d.mac == e.mac && d.key == e.key
  }

  predicate Bluetooth(d: Descriptor) {
    d.deviceType == BluetoothSco || d.deviceType == BluetoothA2dp
  }

  // One entry of the std::map; a table lists its entries in key order.
  datatype Slot = Slot(id: int, desc: Descriptor)

  // std::map::emplace: insert in key order, unless the key is there.
  function Emplace(t: seq<Slot>, id: int, d: Descriptor): seq<Slot> {
    if t == [] then [Slot(id, d)]
    else if t[0].id == id then t
    else if id < t[0].id then [Slot(id, d)] + t
    else [t[0]] + Emplace(t[1..], id, d)
  }

  // ----- what a lookup means -----

  predicate Matches(d: Descriptor, e: Descriptor) {
    Same(d, e) || (Bluetooth(d) && d.mac == e.mac)
  }

  // The first matching slot, or |t|.
  function FirstMatch(t: seq<Slot>, d: Descriptor): (k: nat)
    ensures k <= |t|
    ensures k < |t| ==> Matches(d, t[k].desc)
    ensures forall i :: 0 <= i < k ==> !Matches(d, t[i].desc)
  {
    FirstMatchFrom(t, d, 0)
  }

  function FirstMatchFrom(t: seq<Slot>, d: Descriptor, from: nat): (k: nat)
    requires from <= |t|
    ensures from <= k <= |t|
    ensures k < |t| ==> Matches(d, t[k].desc)
    ensures forall i :: from <= i < k ==> !Matches(d, t[i].desc)
    decreases |t| - from
  {
    if from == |t| || Matches(d, t[from].desc) then from else FirstMatchFrom(t, d, from + 1)
  }

  function IdOf(t: seq<Slot>, d: Descriptor): int {
    FirstMatch(t, d) + 1
  }

  // The table after a lookup: a new slot at the end, or the first matching slot holding a descriptor
  // the same as `d`.
  function LookedUp(t: seq<Slot>, d: Descriptor): seq<Slot> {
    var k := FirstMatch(t, d);
    if k == |t| then t + [Slot(k + 1, d)]
    else if Same(d, t[k].desc) then t
    else t[k := Slot(k + 1, d)]
  }

  // The table after the first `n` lookups of a run.
  function Run(t: seq<Slot>, ds: seq<Descriptor>, n: nat): seq<Slot>
    requires n <= |ds|
  {
    if n == 0 then t else LookedUp(Run(t, ds, n - 1), ds[n - 1])
  }

  // The id returned by the i-th lookup of a run.
  function IdAt(t: seq<Slot>, ds: seq<Descriptor>, i: nat): int
    requires i < |ds|
  {
    IdOf(Run(t, ds, i), ds[i])
  }

  // ----- the table invariant -----

  ghost predicate Dense(t: seq<Slot>) {
    forall i :: 0 <= i < |t| ==> t[i].id == i + 1
  }

  ghost predicate NoDuplicates(t: seq<Slot>) {
    forall i, j :: 0 <= i < j < |t| ==> !Same(t[i].desc, t[j].desc)
  }

  // A Bluetooth descriptor sits in the first slot of its MAC.
  ghost predicate BluetoothIsFirst(t: seq<Slot>) {
    forall i, j :: 0 <= i < j < |t| && Bluetooth(t[j].desc) ==> t[i].desc.mac != t[j].desc.mac
  }

  ghost predicate Inv(t: seq<Slot>) {
    Dense(t) && NoDuplicates(t) && BluetoothIsFirst(t)
  }

  ghost predicate MacsKept(t: seq<Slot>, u: seq<Slot>) {
    |t| <= |u| && forall i :: 0 <= i < |t| ==> u[i].desc.mac == t[i].desc.mac
  }

  lemma LookupKeepsInv(t: seq<Slot>, d: Descriptor)
    requires Inv(t)
    ensures Inv(LookedUp(t, d)) && MacsKept(t, LookedUp(t, d))
    ensures Matches(d, LookedUp(t, d)[FirstMatch(t, d)].desc)
  {
    var k := FirstMatch(t, d);
    var u := LookedUp(t, d);
    forall i, j | 0 <= i < j < |u| ensures !Same(u[i].desc, u[j].desc) {
      if i == k {
        assert Matches(d, t[k].desc);
      }
    }
  }

  // A lookup leaves the device it was made for in its slot, and no other slot changes.
  lemma LookupWritesOneSlot(t: seq<Slot>, d: Descriptor)
    ensures var k, u := FirstMatch(t, d), LookedUp(t, d);
            && |u| == (if k < |t| then |t| else |t| + 1) && Same(d, u[k].desc)
            && (k == |t| || !Same(d, t[k].desc) ==> u[k] == Slot(k + 1, d))
            && forall i :: 0 <= i < |t| && i != k ==> u[i] == t[i]
  {
  }

  // MAIN: in every run of lookups the ids are exactly 1..n in order, no two slots hold the same
  // descriptor, no slot disappears and no slot's MAC changes.
  lemma {:induction false} RunKeepsInv(t: seq<Slot>, ds: seq<Descriptor>, i: nat, n: nat)
    requires Inv(t) && i <= n <= |ds|
    ensures Inv(Run(t, ds, n))
    ensures MacsKept(Run(t, ds, i), Run(t, ds, n))
  {
    if n > 0 {
      RunKeepsInv(t, ds, if i < n then i else 0, n - 1);
      LookupKeepsInv(Run(t, ds, n - 1), ds[n - 1]);
    }
  }

  function FirstMac(t: seq<Slot>, mac: string): (k: nat)
    ensures k <= |t|
    ensures k < |t| ==> t[k].desc.mac == mac
    ensures forall i :: 0 <= i < k ==> t[i].desc.mac != mac
  {
    FirstMacFrom(t, mac, 0)
  }

  function FirstMacFrom(t: seq<Slot>, mac: string, from: nat): (k: nat)
    requires from <= |t|
    ensures from <= k <= |t|
    ensures k < |t| ==> t[k].desc.mac == mac
    ensures forall i :: from <= i < k ==> t[i].desc.mac != mac
    decreases |t| - from
  {
    if from == |t| || t[from].desc.mac == mac then from else FirstMacFrom(t, mac, from + 1)
  }

  // A Bluetooth lookup goes by MAC alone.
  lemma BluetoothGoesByMac(t: seq<Slot>, d: Descriptor)
    requires Bluetooth(d)
    ensures FirstMatch(t, d) == FirstMac(t, d.mac)
  {
    var k, m := FirstMatch(t, d), FirstMac(t, d.mac);
    assert k < |t| ==> Matches(d, t[k].desc);
    assert m < |t| ==> Matches(d, t[m].desc);
  }

  // MAIN: two Bluetooth descriptors, looked up at any two moments of any run, get equal ids
  // exactly when their MACs are equal.
  lemma BluetoothIdsFollowMacs(ds: seq<Descriptor>, i: nat, j: nat)
    requires i <= j < |ds| && Bluetooth(ds[i]) && Bluetooth(ds[j])
    ensures IdAt([], ds, i) == IdAt([], ds, j) <==> ds[i].mac == ds[j].mac
  {
    if i < j {
      var before, after, later := Run([], ds, i), Run([], ds, i + 1), Run([], ds, j);
      RunKeepsInv([], ds, 0, i);
      LookupKeepsInv(before, ds[i]);
      RunKeepsInv([], ds, i + 1, j);
      BluetoothGoesByMac(before, ds[i]);
      BluetoothGoesByMac(later, ds[j]);
      FirstMacStays(before, after, later, ds[i].mac);
    }
  }

  lemma FirstMacStays(before: seq<Slot>, after: seq<Slot>, later: seq<Slot>, mac: string)
    requires MacsKept(before, after) && MacsKept(after, later)
    requires FirstMac(before, mac) < |after| && after[FirstMac(before, mac)].desc.mac == mac
    ensures FirstMac(later, mac) == FirstMac(before, mac)
  {
    var k := FirstMac(before, mac);
    assert later[k].desc.mac == mac;
    assert forall i :: 0 <= i < k ==> later[i].desc.mac == before[i].desc.mac;
  }

  // ----- physical devices -----

  // Profiles of one Bluetooth device share its MAC; any other device is its descriptor.
  predicate SameDevice(d: Descriptor, e: Descriptor) {
    Same(d, e) || (Bluetooth(d) && Bluetooth(e) && d.mac == e.mac)
  }

  // No Bluetooth descriptor shares a MAC with a non-Bluetooth one.
  ghost predicate MacsApart(ds: seq<Descriptor>) {
    forall i, j :: 0 <= i < |ds| && 0 <= j < |ds| && Bluetooth(ds[i]) && !Bluetooth(ds[j]) ==> ds[i].mac != ds[j].mac
  }

  // The same, with the Bluetooth MACs given as a set.
  predicate Conforms(d: Descriptor, macs: set<string>) {
    Bluetooth(d) <==> d.mac in macs
  }

  ghost predicate AllConform(ds: seq<Descriptor>, macs: set<string>) {
    forall i :: 0 <= i < |ds| ==> Conforms(ds[i], macs)
  }

  function BluetoothMacs(ds: seq<Descriptor>): set<string> {
    set i | 0 <= i < |ds| && Bluetooth(ds[i]) :: ds[i].mac
  }

  lemma MacsApartConform(ds: seq<Descriptor>)
    requires MacsApart(ds)
    ensures AllConform(ds, BluetoothMacs(ds))
  {
  }

  ghost predicate SlotsConform(t: seq<Slot>, macs: set<string>) {
    forall k :: 0 <= k < |t| ==> Conforms(t[k].desc, macs)
  }

  ghost predicate DevicesKept(t: seq<Slot>, u: seq<Slot>) {
    |t| <= |u| && forall i :: 0 <= i < |t| ==> SameDevice(t[i].desc, u[i].desc)
  }

  lemma LookupKeepsDevices(t: seq<Slot>, d: Descriptor, macs: set<string>)
    requires SlotsConform(t, macs) && Conforms(d, macs)
    ensures SlotsConform(LookedUp(t, d), macs) && DevicesKept(t, LookedUp(t, d))
    ensures SameDevice(d, LookedUp(t, d)[FirstMatch(t, d)].desc)
    ensures FirstMatch(t, d) < |t| ==> SameDevice(d, t[FirstMatch(t, d)].desc)
  {
  }

  lemma {:induction false} RunKeepsDevices(ds: seq<Descriptor>, macs: set<string>, i: nat, n: nat)
    requires AllConform(ds, macs) && i <= n <= |ds|
    ensures SlotsConform(Run([], ds, n), macs)
    ensures DevicesKept(Run([], ds, i), Run([], ds, n))
  {
    if n > 0 {
      RunKeepsDevices(ds, macs, if i < n then i else 0, n - 1);
      var t := Run([], ds, n - 1);
      assert Conforms(ds[n - 1], macs);
      LookupKeepsDevices(t, ds[n - 1], macs);
      if i < n {
        KeptIsTransitive(Run([], ds, i), t, LookedUp(t, ds[n - 1]));
      }
    }
  }

  lemma KeptIsTransitive(t: seq<Slot>, u: seq<Slot>, v: seq<Slot>)
    requires DevicesKept(t, u) && DevicesKept(u, v)
    ensures DevicesKept(t, v)
  {
  }

  // The slot found by the i-th lookup still holds that device when the j-th begins.
  lemma SlotHoldsDevice(ds: seq<Descriptor>, macs: set<string>, i: nat, j: nat)
    requires AllConform(ds, macs) && i < j <= |ds|
    ensures var k := FirstMatch(Run([], ds, i), ds[i]);
            var later := Run([], ds, j);
            Inv(later) && SlotsConform(later, macs) && k < |later| && SameDevice(ds[i], later[k].desc)
  {
    RunKeepsDevices(ds, macs, 0, i);
    LookupKeepsDevices(Run([], ds, i), ds[i], macs);
    RunKeepsDevices(ds, macs, i + 1, j);
    RunKeepsInv([], ds, 0, j);
  }

  // MAIN: when no Bluetooth MAC is shared with another kind of device, ids are exactly devices:
  // a device keeps its id for the whole run and no two devices ever share one.
  lemma IdsAreDevices(ds: seq<Descriptor>, i: nat, j: nat)
    requires MacsApart(ds) && i <= j < |ds|
    ensures IdAt([], ds, i) == IdAt([], ds, j) <==> SameDevice(ds[i], ds[j])
  {
    MacsApartConform(ds);
    ConformingIdsAreDevices(ds, BluetoothMacs(ds), i, j);
  }

  lemma ConformingIdsAreDevices(ds: seq<Descriptor>, macs: set<string>, i: nat, j: nat)
    requires AllConform(ds, macs) && i <= j < |ds|
    ensures IdAt([], ds, i) == IdAt([], ds, j) <==> SameDevice(ds[i], ds[j])
  {
    if i < j {
      var k := FirstMatch(Run([], ds, i), ds[i]);
      var later := Run([], ds, j);
      SlotHoldsDevice(ds, macs, i, j);
      LookupKeepsDevices(later, ds[j], macs);
      SlotsTellDevicesApart(later, k, FirstMatch(later, ds[j]), ds[i], ds[j]);
    }
  }

  lemma SlotsTellDevicesApart(t: seq<Slot>, k: nat, m: nat, d: Descriptor, e: Descriptor)
    requires Inv(t) && k < |t| && SameDevice(d, t[k].desc)
    requires m == FirstMatch(t, e) && (m < |t| ==> SameDevice(e, t[m].desc))
    ensures k == m <==> SameDevice(d, e)
  {
    if SameDevice(d, e) {
      assert Matches(e, t[k].desc);
      assert SameDevice(t[k].desc, t[m].desc);
    }
  }

  // Without that condition a Bluetooth descriptor can take over another device's slot:
  // a speaker gets id 1, a headset with the speaker's MAC takes id 1, and the speaker becomes 2.
  lemma SharedMacMovesAnId()
    ensures var speaker := Descriptor(Speaker, "", "", 0, "");
            var headset := Descriptor(BluetoothA2dp, "", "", 0, "");
            var ds := [speaker, headset, speaker];
            IdAt([], ds, 0) == 1 && IdAt([], ds, 1) == 1 && IdAt([], ds, 2) == 2
  {
    var speaker := Descriptor(Speaker, "", "", 0, "");
    var headset := Descriptor(BluetoothA2dp, "", "", 0, "");
    var ds := [speaker, headset, speaker];
    var t1, t2 := [Slot(1, speaker)], [Slot(1, headset)];
    assert Run([], ds, 1) == t1;
    assert FirstMatch(t1, headset) == 0 && LookedUp(t1, headset) == t2;
    assert Run([], ds, 2) == t2;
    assert FirstMatch(t2, speaker) == 1;
  }

  // MAIN: exactly when a lookup takes a registered non-Bluetooth device's id away.
  lemma WhenAnIdMoves(t: seq<Slot>, d: Descriptor, e: Descriptor)
    requires Inv(t) && !Bluetooth(d) && FirstMatch(t, d) < |t|
    ensures IdOf(LookedUp(t, e), d) != IdOf(t, d) <==> Bluetooth(e) && FirstMac(t, e.mac) == FirstMatch(t, d)
  {
    var k := FirstMatch(t, d);
    var u := LookedUp(t, e);
    LookupKeepsInv(t, e);
    if Bluetooth(e) {
      BluetoothGoesByMac(t, e);
    }
    var m := FirstMatch(u, d);
    if u[k].desc == t[k].desc {
      assert Matches(d, u[k].desc);
      assert m == k;
    }
  }

  // Lookup j is a Bluetooth one whose MAC's first slot has this id.
  predicate TakesId(ds: seq<Descriptor>, j: nat, id: int)
    requires j < |ds|
  {
    Bluetooth(ds[j]) && FirstMac(Run([], ds, j), ds[j].mac) + 1 == id
  }

  // After m lookups a lookup of d would return this id.
  predicate HasId(ds: seq<Descriptor>, m: nat, d: Descriptor, id: int)
    requires m <= |ds|
  {
    IdOf(Run([], ds, m), d) == id
  }

  ghost predicate KeepsId(ds: seq<Descriptor>, i: nat, n: nat, id: int)
    requires i < n <= |ds|
  {
    forall m :: i < m <= n ==> HasId(ds, m, ds[i], id)
  }

  // MAIN: in any run a non-Bluetooth device keeps the id of its i-th lookup at every later moment exactly
  // when no lookup since takes that id.
  lemma {:induction false} IdKeptExactly(ds: seq<Descriptor>, i: nat, n: nat, id: int)
    requires i < n <= |ds| && !Bluetooth(ds[i]) && id == IdAt([], ds, i)
    ensures KeepsId(ds, i, n, id) <==> forall j :: i < j < n ==> !TakesId(ds, j, id)
  {
    if n == i + 1 {
      IdAfterLookup(ds, i);
    } else {
      IdKeptExactly(ds, i, n - 1, id);
      KeepsOneMore(ds, i, n - 1, id);
    }
  }

  lemma KeepsOneMore(ds: seq<Descriptor>, i: nat, j: nat, id: int)
    requires i < j < |ds| && !Bluetooth(ds[i]) && id == IdAt([], ds, i)
    ensures KeepsId(ds, i, j + 1, id) <==> KeepsId(ds, i, j, id) && !TakesId(ds, j, id)
  {
    if HasId(ds, j, ds[i], id) {
      NextLookup(ds, i, j, id);
    }
  }

  lemma IdAfterLookup(ds: seq<Descriptor>, i: nat)
    requires i < |ds| && !Bluetooth(ds[i])
    ensures HasId(ds, i + 1, ds[i], IdAt([], ds, i))
  {
    var t := Run([], ds, i);
    RunKeepsInv([], ds, 0, i);
    LookupKeepsInv(t, ds[i]);
    var k, u := FirstMatch(t, ds[i]), LookedUp(t, ds[i]);
    assert Matches(ds[i], u[k].desc);
    assert FirstMatch(u, ds[i]) == k;
  }

  lemma NextLookup(ds: seq<Descriptor>, i: nat, j: nat, id: int)
    requires i < j < |ds| && !Bluetooth(ds[i]) && id == IdAt([], ds, i) && HasId(ds, j, ds[i], id)
    ensures HasId(ds, j + 1, ds[i], id) <==> !TakesId(ds, j, id)
  {
    RunKeepsInv([], ds, 0, i);
    LookupKeepsInv(Run([], ds, i), ds[i]);
    RunKeepsInv([], ds, i + 1, j);
    WhenAnIdMoves(Run([], ds, j), ds[i], ds[j]);
  }

  // ----- the adapter -----

  datatype Usage = MediaOutput | CallOutput | CallInput | AllCall | AllMedia
  datatype Flag = OutputDevices | InputDevices | AllDevices | OtherFlag
  datatype Scene = PhoneCall | PhoneChat | OtherScene

  predicate IsCallScene(scene: Scene) { scene != OtherScene }

  // What enumeration reports for a device.
  datatype DeviceDesc = DeviceDesc(id: int, name: string)

  // What a selection asks the audio service to do.
  datatype Selection =
    | Failed
    | DefaultOutput(isCall: bool)
    | DefaultInput
    | Output(device: Descriptor, isCall: bool)
    | Input(device: Descriptor)

  function OutputUsage(scene: Scene): Usage {
    if IsCallScene(scene) then CallOutput else MediaOutput
  }

  // The first list position whose lookup, the positions before it being looked up first, gives `id`.
  function FirstWithId(t: seq<Slot>, devices: seq<Descriptor>, id: int): (k: nat)
    ensures k <= |devices|
    ensures k < |devices| ==> IdAt(t, devices, k) == id
    ensures forall i :: 0 <= i < k ==> IdAt(t, devices, i) != id
  {
    FirstWithIdFrom(t, devices, id, 0)
  }

  function FirstWithIdFrom(t: seq<Slot>, devices: seq<Descriptor>, id: int, from: nat): (k: nat)
    requires from <= |devices|
    ensures from <= k <= |devices|
    ensures k < |devices| ==> IdAt(t, devices, k) == id
    ensures forall i :: from <= i < k ==> IdAt(t, devices, i) != id
    decreases |devices| - from
  {
    if from == |devices| || IdAt(t, devices, from) == id then from
    else FirstWithIdFrom(t, devices, id, from + 1)
  }

  // The first list position whose service-side id is `id`.
  function FirstWithServiceId(devices: seq<Descriptor>, id: int, from: nat): (k: nat)
    requires from <= |devices|
    ensures from <= k <= |devices|
    ensures k < |devices| ==> devices[k].deviceId == id
    ensures forall i :: from <= i < k ==> devices[i].deviceId != id
    decreases |devices| - from
  {
    if from == |devices| || devices[from].deviceId == id then from
    else FirstWithServiceId(devices, id, from + 1)
  }

  datatype SelectResult = SelectResult(selection: Selection, table: seq<Slot>)

  function SelectOutput(t: seq<Slot>, devices: seq<Descriptor>, id: int, isCall: bool): SelectResult {
    var k := FirstWithId(t, devices, id);
    if k < |devices| then SelectResult(Output(devices[k], isCall), Run(t, devices, k + 1))
    else SelectResult(Failed, Run(t, devices, |devices|))
  }

  function SelectInput(t: seq<Slot>, devices: seq<Descriptor>, id: int): SelectResult {
    var k := FirstWithServiceId(devices, id, 0);
    SelectResult(if k < |devices| then Input(devices[k]) else Failed, t)
  }

  // `selection` is the device at list position k, the first whose lookup gives `id`, with this call flag;
  // the positions up to it have been looked up.
  ghost predicate SelectsOutput(r: SelectResult, t: seq<Slot>, devices: seq<Descriptor>, id: int, isCall: bool, k: int)
  {
    && 0 <= k < |devices| && r.selection == Output(devices[k], isCall)
    && IdAt(t, devices, k) == id && (forall i :: 0 <= i < k ==> IdAt(t, devices, i) != id)
    && r.table == Run(t, devices, k + 1)
  }

  ghost predicate SelectsInput(selection: Selection, devices: seq<Descriptor>, id: int, k: int) {
    && 0 <= k < |devices| && selection == Input(devices[k])
    && devices[k].deviceId == id && forall i :: 0 <= i < k ==> devices[i].deviceId != id
  }

  // Either the first device with this id is selected, or no device has it and all have been looked up.
  ghost predicate OutputSelected(r: SelectResult, t: seq<Slot>, devices: seq<Descriptor>, id: int, isCall: bool) {
    if r.selection == Failed then
      (forall i :: 0 <= i < |devices| ==> IdAt(t, devices, i) != id) && r.table == Run(t, devices, |devices|)
    else exists k :: SelectsOutput(r, t, devices, id, isCall, k)
  }

  ghost predicate InputSelected(selection: Selection, devices: seq<Descriptor>, id: int) {
    if selection == Failed then forall i :: 0 <= i < |devices| ==> devices[i].deviceId != id
    else exists k :: SelectsInput(selection, devices, id, k)
  }

  lemma SelectOutputMeans(t: seq<Slot>, devices: seq<Descriptor>, id: int, isCall: bool)
    ensures OutputSelected(SelectOutput(t, devices, id, isCall), t, devices, id, isCall)
  {
    var k := FirstWithId(t, devices, id);
    if k < |devices| {
      assert SelectsOutput(SelectOutput(t, devices, id, isCall), t, devices, id, isCall, k);
    }
  }

  lemma SelectInputMeans(t: seq<Slot>, devices: seq<Descriptor>, id: int)
    ensures InputSelected(SelectInput(t, devices, id).selection, devices, id) && SelectInput(t, devices, id).table == t
  {
    var k := FirstWithServiceId(devices, id, 0);
    if k < |devices| {
      assert SelectsInput(SelectInput(t, devices, id).selection, devices, id, k);
    }
  }

  // The lists asked for during a call and otherwise.
  lemma UsageOfScenes(available: Usage -> seq<Descriptor>)
    ensures OutputUsage(PhoneCall) == OutputUsage(PhoneChat) == CallOutput && OutputUsage(OtherScene) == MediaOutput
    ensures Listed(OutputDevices, OtherScene, available) == available(MediaOutput)
    ensures Listed(OutputDevices, PhoneCall, available) == Listed(OutputDevices, PhoneChat, available)
         == available(CallOutput)
    ensures forall scene :: Listed(InputDevices, scene, available) == available(CallInput)
    ensures Listed(AllDevices, OtherScene, available) == available(AllMedia)
    ensures Listed(AllDevices, PhoneCall, available) == Listed(AllDevices, PhoneChat, available) == available(AllCall)
    ensures forall scene :: Listed(OtherFlag, scene, available) == []
  {
  }

  lemma {:induction false} RunSame(t: seq<Slot>, ds: seq<Descriptor>, es: seq<Descriptor>, n: nat)
    requires n <= |ds| && n <= |es| && forall i :: 0 <= i < n ==> ds[i] == es[i]
    ensures Run(t, ds, n) == Run(t, es, n)
  {
    if n > 0 {
      RunSame(t, ds, es, n - 1);
    }
  }

  // A run that begins in the middle of another one.
  lemma {:induction false} RunFrom(t: seq<Slot>, all: seq<Descriptor>, at: nat, ds: seq<Descriptor>, n: nat)
    requires n <= |ds| && at + n <= |all| && forall i :: 0 <= i < n ==> all[at + i] == ds[i]
    ensures Run(t, all, at + n) == Run(Run(t, all, at), ds, n)
  {
    if n > 0 {
      RunFrom(t, all, at, ds, n - 1);
    }
  }

  // MAIN: `ds` being all lookups of a run, among them from position `at` those of an enumeration of
  // `devices`: the id it reported for position k, selected now over the same list, resolves to a
  // position that holds the same physical device, and is no sentinel while the table has fewer than
  // a million slots.
  lemma ReportedIdResolves(ds: seq<Descriptor>, at: nat, devices: seq<Descriptor>, k: nat)
    requires at + |devices| <= |ds| && (forall i :: 0 <= i < |devices| ==> ds[at + i] == devices[i])
    requires MacsApart(ds) && k < |devices|
    ensures var id := IdAt(Run([], ds, at), devices, k);
            var now := Run([], ds, |ds|);
            var m := FirstWithId(now, devices, id);
            && m < |devices|
            && SameDevice(devices[k], devices[m])
            && (|now| < ADAPTER_AUDIO_DEFAULT_DEVICE_ID ==> 1 <= id < ADAPTER_AUDIO_DEFAULT_DEVICE_ID)
  {
    var macs := BluetoothMacs(ds);
    MacsApartConform(ds);
    RunFrom([], ds, at, devices, k);
    var id := IdAt([], ds, at + k);
    var now := Run([], ds, |ds|);
    SelectedIdIsDevice(ds, macs, at, devices, k, k, IdAt(now, devices, k));
    var m := FirstWithId(now, devices, id);
    SelectedIdIsDevice(ds, macs, at, devices, k, m, IdAt(now, devices, m));
    IdInTable(ds, at + k);
  }

  // MAIN: so the selection made is of that same physical device.
  lemma ReportedIdSelectsItsDevice(ds: seq<Descriptor>, at: nat, devices: seq<Descriptor>, k: nat, id: int,
                                   isCall: bool, selection: Selection)
    requires at + |devices| <= |ds| && (forall i :: 0 <= i < |devices| ==> ds[at + i] == devices[i])
    requires MacsApart(ds) && k < |devices| && id == IdAt(Run([], ds, at), devices, k)
    requires selection == SelectOutput(Run([], ds, |ds|), devices, id, isCall).selection
    ensures selection.Output? && selection.isCall == isCall && SameDevice(devices[k], selection.device)
  {
    ReportedIdResolves(ds, at, devices, k);
  }

  lemma IdInTable(ds: seq<Descriptor>, k: nat)
    requires k < |ds|
    ensures 1 <= IdAt([], ds, k) <= |Run([], ds, |ds|)|
  {
    RunKeepsInv([], ds, k + 1, |ds|);
  }

  // `found` is the id that a selection, starting now, finds at list position `j`.
  lemma SelectedIdIsDevice(ds: seq<Descriptor>, macs: set<string>, at: nat, devices: seq<Descriptor>,
                           k: nat, j: nat, found: int)
    requires at + |devices| <= |ds| && (forall i :: 0 <= i < |devices| ==> ds[at + i] == devices[i])
    requires AllConform(ds, macs) && k < |devices| && j < |devices|
    requires found == IdAt(Run([], ds, |ds|), devices, j)
    ensures found == IdAt([], ds, at + k) <==> SameDevice(devices[k], devices[j])
  {
    var reported := IdAt([], ds, at + k);
    var all, a, b := SelectionIsLookups(ds, macs, at, devices, k, j, reported, found);
    ConformingIdsAreDevices(all, macs, a, b);
  }

  lemma SelectionIsLookups(ds: seq<Descriptor>, macs: set<string>, at: nat, devices: seq<Descriptor>,
                           k: nat, j: nat, reported: int, found: int)
    returns (all: seq<Descriptor>, a: nat, b: nat)
    requires at + |devices| <= |ds| && (forall i :: 0 <= i < |devices| ==> ds[at + i] == devices[i])
    requires AllConform(ds, macs) && k < |devices| && j < |devices|
    requires reported == IdAt([], ds, at + k) && found == IdAt(Run([], ds, |ds|), devices, j)
    ensures a < b < |all| && AllConform(all, macs) && all[a] == devices[k] && all[b] == devices[j]
    ensures IdAt([], all, a) == reported && IdAt([], all, b) == found
  {
    a, b := at + k, |ds| + j;
    all := ConformingConcat(ds, macs, at, devices);
    IdAtPrefix(all, ds, a, reported);
    IdAtSuffix(all, ds, |ds|, devices, j, Run([], ds, |ds|), found);
  }

  lemma ConformingConcat(ds: seq<Descriptor>, macs: set<string>, at: nat, devices: seq<Descriptor>)
    returns (all: seq<Descriptor>)
    requires at + |devices| <= |ds| && (forall i :: 0 <= i < |devices| ==> ds[at + i] == devices[i])
    requires AllConform(ds, macs)
    ensures |all| == |ds| + |devices|
    ensures forall k :: 0 <= k < |ds| ==> all[k] == ds[k]
    ensures forall i :: 0 <= i < |devices| ==> all[|ds| + i] == devices[i]
    ensures AllConform(all, macs)
  {
    all := ds + devices;
    forall i | 0 <= i < |all| ensures Conforms(all[i], macs) {
      assert all[i] == if i < |ds| then ds[i] else ds[at + (i - |ds|)];
    }
  }

  lemma IdAtPrefix(all: seq<Descriptor>, ds: seq<Descriptor>, i: nat, id: int)
    requires i < |ds| <= |all| && forall k :: 0 <= k < |ds| ==> all[k] == ds[k]
    requires id == IdAt([], ds, i)
    ensures IdAt([], all, i) == id
  {
    RunSame([], ds, all, i);
  }

  // `mid` is the table at position `at`, where the lookups `ds` end and `es` begin.
  lemma IdAtSuffix(all: seq<Descriptor>, ds: seq<Descriptor>, at: nat, es: seq<Descriptor>, j: nat,
                   mid: seq<Slot>, id: int)
    requires at == |ds| <= |all| && forall k :: 0 <= k < at ==> all[k] == ds[k]
    requires at + |es| <= |all| && forall i :: 0 <= i < |es| ==> all[at + i] == es[i]
    requires j < |es| && mid == Run([], ds, at) && id == IdAt(mid, es, j)
    ensures IdAt([], all, at + j) == id
  {
    RunSame([], ds, all, at);
    RunFrom([], all, at, es, j);
  }

  // The devices an enumeration asks the service for.
  function Listed(flag: Flag, scene: Scene, available: Usage -> seq<Descriptor>): seq<Descriptor> {
    match flag
    case OutputDevices => available(OutputUsage(scene))
    case InputDevices => available(CallInput)
    case AllDevices => available(if IsCallScene(scene) then AllCall else AllMedia)
    case OtherFlag => []
  }

  function NameOf(d: Descriptor, typeName: DeviceType -> string): (name: string)
    ensures d.deviceName != "" ==> name == d.deviceName
    ensures d.deviceName == "" ==> name == typeName(d.deviceType)
  {
    if d.deviceName == "" then typeName(d.deviceType) else d.deviceName
  }

  // The ids an enumeration gives: those of looking output devices up in order, otherwise the service's.
  function IdsOf(t: seq<Slot>, devices: seq<Descriptor>, output: bool): (ids: seq<int>)
    ensures |ids| == |devices|
    ensures forall i {:trigger ids[i]} :: 0 <= i < |devices| ==>
              ids[i] == if output then IdAt(t, devices, i) else devices[i].deviceId
  {
    seq(|devices|, i requires 0 <= i < |devices| => if output then IdAt(t, devices, i) else devices[i].deviceId)
  }

  ghost predicate Reports(reported: seq<DeviceDesc>, ids: seq<int>, devices: seq<Descriptor>,
                          typeName: DeviceType -> string)
    requires |reported| <= |devices| == |ids|
  {
    forall i {:trigger reported[i]} :: 0 <= i < |reported| ==>
      reported[i] == DeviceDesc(ids[i], NameOf(devices[i], typeName))
  }

  lemma ReportsOneMore(reported: seq<DeviceDesc>, ids: seq<int>, devices: seq<Descriptor>,
                       typeName: DeviceType -> string, next: DeviceDesc)
    requires |reported| < |devices| == |ids| && Reports(reported, ids, devices, typeName)
    requires next == DeviceDesc(ids[|reported|], NameOf(devices[|reported|], typeName))
    ensures Reports(reported + [next], ids, devices, typeName)
  {
  }

  class AudioSystemManager {
    // audioOutputDeviceInfo_
    var table: seq<Slot>

    ghost predicate Valid()
      reads this
    {
      Inv(table)
    }

    constructor ()
      ensures Valid() && table == []
    {
      table := [];
    }

    method GetDeviceIdByDescriptor(descriptor: Option<Descriptor>, currentId: int)
      returns (found: bool, deviceId: int)
      requires Valid()
      modifies this
      ensures Valid()
      ensures found == descriptor.Some?
      ensures descriptor.None? ==> table == old(table) && deviceId == currentId
      ensures descriptor.Some? ==>
                && table == LookedUp(old(table), descriptor.value)
                && deviceId == IdOf(old(table), descriptor.value)
    {
      if descriptor.None? {
        return false, currentId;
      }
      var d := descriptor.value;
      ghost var t := table;
      ghost var u := LookedUp(t, d);
      LookupKeepsInv(t, d);
      if table == [] {
        deviceId := 1;
        table := Emplace(table, deviceId, d);
        assert table == u;
        return true, deviceId;
      }
      var it := 0;
      var newDeviceId := 0;
      while it < |table|
        invariant table == t && 0 <= it <= |table|
        invariant newDeviceId == it
        invariant it <= FirstMatch(t, d)
      {
        if Same(d, table[it].desc) {
          assert table == u;
          return true, table[it].id;
        }
        if (d.deviceType == BluetoothSco || d.deviceType == BluetoothA2dp) && d.mac == table[it].desc.mac {
          deviceId := table[it].id;
          EmplaceBack(table, it, d);
          table := table[..it] + table[it + 1..];
          table := Emplace(table, deviceId, d);
          assert table == u;
          return true, deviceId;
        }
        newDeviceId := table[it].id;
        it := it + 1;
      }
      deviceId := newDeviceId + 1;
      EmplaceAtEnd(table, 0, d);
      table := Emplace(table, deviceId, d);
      assert table == u;
      return true, deviceId;
    }

    method GetDevices(flag: Flag, scene: Scene, available: Usage -> seq<Descriptor>, typeName: DeviceType -> string)
      returns (reported: seq<DeviceDesc>)
      requires Valid()
      modifies this
      ensures Valid()
      ensures var devices := Listed(flag, scene, available);
              && |reported| == |devices|
              && Reports(reported, IdsOf(old(table), devices, flag == OutputDevices), devices, typeName)
              && table == if flag == OutputDevices then Run(old(table), devices, |devices|) else old(table)
    {
      var isCallDevice := false;
      if scene == PhoneCall || scene == PhoneChat {
        isCallDevice := true;
      }
      var devices: seq<Descriptor> := [];
      if flag == OutputDevices {
        devices := available(if isCallDevice then CallOutput else MediaOutput);
      } else if flag == InputDevices {
        devices := available(CallInput);
      } else if flag == AllDevices {
        devices := available(if isCallDevice then AllCall else AllMedia);
      }
      assert devices == Listed(flag, scene, available);
      reported := DescribeDevices(devices, flag == OutputDevices, typeName);
    }

    // The loop of GetDevices.
    method DescribeDevices(devices: seq<Descriptor>, output: bool, typeName: DeviceType -> string)
      returns (reported: seq<DeviceDesc>)
      requires Valid()
      modifies this
      ensures Valid()
      ensures |reported| == |devices|
      ensures Reports(reported, IdsOf(old(table), devices, output), devices, typeName)
      ensures table == if output then Run(old(table), devices, |devices|) else old(table)
    {
      ghost var ids := IdsOf(table, devices, output);
      reported := [];
      for i := 0 to |devices|
        invariant Valid() && |reported| == i
        invariant table == if output then Run(old(table), devices, i) else old(table)
        invariant Reports(reported, ids, devices, typeName)
      {
        var desc := DescribeDevice(devices[i], output, typeName);
        if desc.None? {
          continue;
        }
        assert desc.value.id == ids[i];
        ReportsOneMore(reported, ids, devices, typeName, desc.value);
        reported := reported + [desc.value];
      }
    }

    // The body of that loop.
    method DescribeDevice(d: Descriptor, output: bool, typeName: DeviceType -> string)
      returns (desc: Option<DeviceDesc>)
      requires Valid()
      modifies this
      ensures Valid()
      ensures desc == Some(DeviceDesc(if output then IdOf(old(table), d) else d.deviceId, NameOf(d, typeName)))
      ensures table == if output then LookedUp(old(table), d) else old(table)
    {
      var currentDeviceId := d.deviceId;
      if output {
        var found;
        found, currentDeviceId := GetDeviceIdByDescriptor(Some(d), currentDeviceId);
        if !found {
          return None;
        }
      }
      return Some(DeviceDesc(currentDeviceId, if d.deviceName == "" then typeName(d.deviceType) else d.deviceName));
    }

    method SelectAudioDeviceById(deviceId: int, isInput: bool, scene: Scene, available: Usage -> seq<Descriptor>)
      returns (selection: Selection)
      requires Valid()
      modifies this
      ensures Valid()
      ensures deviceId == ADAPTER_AUDIO_UNDEFINED_DEVICE_ID ==> selection == Failed
      ensures deviceId == ADAPTER_AUDIO_DEFAULT_DEVICE_ID ==>
                selection == if isInput then DefaultInput else DefaultOutput(IsCallScene(scene))
      ensures deviceId == ADAPTER_AUDIO_DEFAULT_DEVICE_ID || deviceId == ADAPTER_AUDIO_UNDEFINED_DEVICE_ID
              ==> table == old(table)
      ensures deviceId != ADAPTER_AUDIO_DEFAULT_DEVICE_ID && deviceId != ADAPTER_AUDIO_UNDEFINED_DEVICE_ID ==>
                SelectResult(selection, table)
                == if isInput then SelectInput(old(table), available(CallInput), deviceId)
                   else SelectOutput(old(table), available(OutputUsage(scene)), deviceId, IsCallScene(scene))
      // the device selected is the first one in the scene's list that this id stands for
      ensures var isCall := scene == PhoneCall || scene == PhoneChat;
              var devices := available(if isInput then CallInput else if isCall then CallOutput else MediaOutput);
              deviceId != ADAPTER_AUDIO_DEFAULT_DEVICE_ID && deviceId != ADAPTER_AUDIO_UNDEFINED_DEVICE_ID ==>
                if isInput then InputSelected(selection, devices, deviceId) && table == old(table)
                else OutputSelected(SelectResult(selection, table), old(table), devices, deviceId, isCall)
    {
      if deviceId == ADAPTER_AUDIO_UNDEFINED_DEVICE_ID {
        return Failed;
      }
      var isCallDevice := false;
      if scene == PhoneCall || scene == PhoneChat {
        isCallDevice := true;
      }
      if !isInput && deviceId == ADAPTER_AUDIO_DEFAULT_DEVICE_ID {
        return DefaultOutput(isCallDevice);
      }
      if isInput && deviceId == ADAPTER_AUDIO_DEFAULT_DEVICE_ID {
        return DefaultInput;
      }
      var devices;
      if isCallDevice {
        devices := available(if isInput then CallInput else CallOutput);
      } else {
        devices := available(if isInput then CallInput else MediaOutput);
      }
      ghost var t := table;
      selection := SelectFrom(devices, deviceId, isInput, isCallDevice);
      SelectOutputMeans(t, devices, deviceId, isCallDevice);
      SelectInputMeans(t, devices, deviceId);
    }

    // The loop of SelectAudioDeviceById.
    method SelectFrom(devices: seq<Descriptor>, deviceId: int, isInput: bool, isCallDevice: bool)
      returns (selection: Selection)
      requires Valid()
      modifies this
      ensures Valid()
      ensures SelectResult(selection, table) == if isInput then SelectInput(old(table), devices, deviceId)
                                                else SelectOutput(old(table), devices, deviceId, isCallDevice)
    {
      ghost var t := table;
      ghost var k := if isInput then FirstWithServiceId(devices, deviceId, 0) else FirstWithId(t, devices, deviceId);
      for i := 0 to |devices|
        invariant Valid()
        invariant table == if isInput then t else Run(t, devices, i)
        invariant i <= k
      {
        var d := devices[i];
        var currentDeviceId := d.deviceId;
        if !isInput {
          var found;
          found, currentDeviceId := GetDeviceIdByDescriptor(Some(d), currentDeviceId);
          if !found {
            continue;
          }
          assert currentDeviceId == IdAt(t, devices, i);
        }
        if currentDeviceId == deviceId {
          assert i == k;
          return if isInput then Input(d) else Output(d, isCallDevice);
        }
        assert i != k;
      }
      return Failed;
    }

    // GetDefaultOutputDevice and GetDefaultInputDevice differ only in the list they are given;
    // both register the first device of it in the output table.
    method DescribeDefaultDevice(preferred: seq<Option<Descriptor>>, typeName: DeviceType -> string)
      returns (desc: Option<DeviceDesc>)
      requires Valid()
      modifies this
      ensures Valid()
      ensures preferred == [] || preferred[0].None? ==> desc.None? && table == old(table)
      ensures preferred != [] && preferred[0].Some? ==>
                var d := preferred[0].value;
                && table == LookedUp(old(table), d)
                && desc == Some(DeviceDesc(IdOf(old(table), d), NameOf(d, typeName)))
    {
      if preferred == [] || preferred[0].None? {
        return None;
      }
      var d := preferred[0].value;
      var found, currentDeviceId := GetDeviceIdByDescriptor(preferred[0], 0);
      if !found {
        return None;
      }
      return Some(DeviceDesc(currentDeviceId, if d.deviceName == "" then typeName(d.deviceType) else d.deviceName));
    }
  }

  // Taking a slot out and emplacing its id again puts it back in place.
  lemma {:induction false} EmplaceBack(t: seq<Slot>, k: nat, d: Descriptor)
    requires k < |t| && forall i, j :: 0 <= i < j < |t| ==> t[i].id < t[j].id
    ensures Emplace(t[..k] + t[k + 1..], t[k].id, d) == t[k := Slot(t[k].id, d)]
  {
    var u := t[..k] + t[k + 1..];
    if k > 0 {
      EmplaceBack(t[1..], k - 1, d);
      assert u[0] == t[0] && u[1..] == t[1..][..k - 1] + t[1..][k..];
      assert t[k := Slot(t[k].id, d)] == [t[0]] + t[1..][k - 1 := Slot(t[k].id, d)];
    }
  }

  lemma {:induction false} EmplaceAtEnd(t: seq<Slot>, from: nat, d: Descriptor)
    requires forall i :: 0 <= i < |t| ==> t[i].id == from + i + 1
    ensures Emplace(t, from + |t| + 1, d) == t + [Slot(from + |t| + 1, d)]
  {
    if t != [] {
      EmplaceAtEnd(t[1..], from + 1, d);
    }
  }
}
