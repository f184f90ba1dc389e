/**
 * Loading the persisted state: the legacy per-device `group` field is dropped
 * and anything missing or unreadable falls back to the default state; saving
 * writes the state as it is.
 */
module Persistence {
  import opened Wrappers
  import opened BarkTypes
  import opened Seqs

  const DefaultAvatarUrl: string :=
    "https://img10.360buyimg.com/ling/jfs/t1/376729/40/5083/101103/6937f57eF170806bf/089526d26d3dd748.jpg"

  /** A device as it may be found in storage, from a version that still kept a group per device. */
  datatype StoredDevice = StoredDevice(
    id: string,
    deviceCode: string,
    name: string,
    expireDate: Option<string>,
    isExpired: bool,
    group: Option<string>)

  /** The content of the state key: nothing (or an empty string), text that is
      not JSON, or a parsed blob. */
  datatype Saved =
    | Absent
    | Unparsable
    | Blob(devices: seq<StoredDevice>, messages: seq<Message>, settings: UserSettings)

  /** The content of the last-test key. */
  datatype SavedTest = NoTest | UnparsableTest | TestBlob(report: ConnectivityTestResult)

  function DefaultState(): (s: BarkSystemState)
    ensures s.devices == [] && s.messages == [] && s.settings.avatarUrl == DefaultAvatarUrl
  {
    BarkSystemState([], [], UserSettings(DefaultAvatarUrl))
  }

  /** `const { group, ...rest } = device; return rest;` */
  function StripGroup(d: StoredDevice): (r: Device)
    ensures r.id == d.id && r.deviceCode == d.deviceCode && r.name == d.name
    ensures r.expireDate == d.expireDate && r.isExpired == d.isExpired
  {
    Device(d.id, d.deviceCode, d.name, d.expireDate, d.isExpired)
  }

  /** How a device is written back: without a group. */
  function Stored(d: Device): StoredDevice
  {
    StoredDevice(d.id, d.deviceCode, d.name, d.expireDate, d.isExpired, None)
  }

  function StoreDevices(ds: seq<Device>): (r: seq<StoredDevice>)
    ensures |r| == |ds|
    ensures forall i :: 0 <= i < |ds| ==> r[i] == Stored(ds[i])
  {
    Map(ds, Stored)
  }

  function MigrateDevices(ds: seq<StoredDevice>): (r: seq<Device>)
    ensures |r| == |ds|
    ensures forall i :: 0 <= i < |ds| ==> r[i] == StripGroup(ds[i])
  {
    Map(ds, StripGroup)
  }

  /** The lazy initial state of the hook. */
  function Load(saved: Saved): (s: BarkSystemState)
    ensures saved.Blob? ==> s.messages == saved.messages && s.settings == saved.settings
    ensures saved.Blob? ==> |s.devices| == |saved.devices|
    ensures saved.Blob? ==> forall i :: 0 <= i < |s.devices| ==> s.devices[i] == StripGroup(saved.devices[i])
    ensures !saved.Blob? ==> s == DefaultState()
  {
    match saved
    case Blob(devices, messages, settings) => BarkSystemState(MigrateDevices(devices), messages, settings)
    case _ => DefaultState()
  }

  /** What the persistence effect writes after every change. */
  function Save(s: BarkSystemState): Saved
  {
    Blob(StoreDevices(s.devices), s.messages, s.settings)
  }

  /** Saving and loading gives back the state. */
  lemma LoadSave(s: BarkSystemState)
    ensures Load(Save(s)) == s
  {
    var r := Load(Save(s));
    assert forall i :: 0 <= i < |s.devices| ==> r.devices[i] == s.devices[i];
  }

  /** Loading never keeps a group, so loading what a load produced changes nothing. */
  lemma LoadIdempotent(saved: Saved)
    ensures Load(Save(Load(saved))) == Load(saved)
  {
    LoadSave(Load(saved));
  }

  /** `getLastConnectivityTest`: the stored report, `null` when absent or unreadable. */
  function LoadLastTest(saved: SavedTest): (r: Option<ConnectivityTestResult>)
    ensures r.Some? <==> saved.TestBlob?
    ensures saved.TestBlob? ==> r.value == saved.report
  {
    match saved
    case TestBlob(report) => Some(report)
    case _ => None
  }
}
