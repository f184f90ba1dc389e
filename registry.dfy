/**
 * The device maintenance of the hook as transformations of the device list:
 * the expiry sweep, add, delete, update, lookup and the active-device filter.
 */
module Registry {
  import opened Wrappers
  import opened BarkTypes
  import opened Dates
  import opened Seqs

  /** The derived flag agrees with the expiry date as of `today`. */
  predicate ExpiryConsistent(d: Device, today: string)
  {
    d.isExpired == IsExpiredOn(d.expireDate, today)
  }

  predicate AllConsistent(ds: seq<Device>, today: string)
  {
    forall i :: 0 <= i < |ds| ==> ExpiryConsistent(ds[i], today)
  }

  /** `{...device, isExpired: device.expireDate && device.expireDate < now}`. */
  function Refresh(d: Device, today: string): (r: Device)
    ensures ExpiryConsistent(r, today)
    ensures r.id == d.id && r.deviceCode == d.deviceCode && r.name == d.name && r.expireDate == d.expireDate
  {
    d.(isExpired := IsExpiredOn(d.expireDate, today))
  }

  /** The periodic sweep: every device recomputed against `today`. */
  function Sweep(ds: seq<Device>, today: string): (r: seq<Device>)
    ensures |r| == |ds|
    ensures forall i :: 0 <= i < |ds| ==> r[i] == Refresh(ds[i], today)
    ensures AllConsistent(r, today)
  {
    if ds == [] then [] else [Refresh(ds[0], today)] + Sweep(ds[1..], today)
  }

  /** A list that is already current is left as it is by the sweep. */
  lemma SweepOfConsistent(ds: seq<Device>, today: string)
    requires AllConsistent(ds, today)
    ensures Sweep(ds, today) == ds
  {
    var r := Sweep(ds, today);
    assert forall i :: 0 <= i < |ds| ==> r[i] == ds[i];
  }

  lemma SweepIdempotent(ds: seq<Device>, today: string)
    ensures Sweep(Sweep(ds, today), today) == Sweep(ds, today)
  {
    SweepOfConsistent(Sweep(ds, today), today);
  }

  /** The device `addDevice` builds, with its expiry computed at insertion. */
  function NewDevice(id: string, deviceCode: string, name: string, expireDate: Option<string>, today: string): (d: Device)
    ensures ExpiryConsistent(d, today)
    ensures d.id == id && d.deviceCode == deviceCode && d.name == name && d.expireDate == expireDate
  {
    Device(id, deviceCode, name, expireDate, IsExpiredOn(expireDate, today))
  }

  /** `[...devices, newDevice]`: old entries keep their places and the new one is last. */
  function Appended(ds: seq<Device>, d: Device): (r: seq<Device>)
    ensures |r| == |ds| + 1 && r[..|ds|] == ds && r[|ds|] == d
  {
    ds + [d]
  }

  lemma AddKeepsConsistent(ds: seq<Device>, id: string, deviceCode: string, name: string,
                           expireDate: Option<string>, today: string)
    requires AllConsistent(ds, today)
    ensures AllConsistent(Appended(ds, NewDevice(id, deviceCode, name, expireDate, today)), today)
  {
    var r := Appended(ds, NewDevice(id, deviceCode, name, expireDate, today));
    assert forall i :: 0 <= i < |ds| ==> r[i] == ds[i];
  }

  /** The predicates the hook filters devices by. */
  function OtherId(id: string): Device -> bool
  {
    (d: Device) => d.id != id
  }

  predicate Unexpired(d: Device)
  {
    !d.isExpired
  }

  /** `devices.filter(device => device.id !== deviceId)`. */
  function Removed(ds: seq<Device>, id: string): (r: seq<Device>)
    ensures forall i :: 0 <= i < |r| ==> r[i] in ds && r[i].id != id
    ensures forall i :: 0 <= i < |ds| && ds[i].id != id ==> ds[i] in r
    ensures (forall i :: 0 <= i < |ds| ==> ds[i].id != id) ==> r == ds
  {
    FilterFull(ds, OtherId(id));
    Filter(ds, OtherId(id))
  }

  /** Deleting works element by element: survivors keep their relative order. */
  lemma RemovedConcat(a: seq<Device>, b: seq<Device>, id: string)
    ensures Removed(a + b, id) == Removed(a, id) + Removed(b, id)
    ensures Removed([], id) == []
  {
    FilterConcat(a, b, OtherId(id));
  }

  lemma RemovedSingleton(d: Device, id: string)
    ensures Removed([d], id) == if d.id == id then [] else [d]
  {
    assert [d][1..] == [];
  }

  lemma RemovedKeepsConsistent(ds: seq<Device>, id: string, today: string)
    requires AllConsistent(ds, today)
    ensures AllConsistent(Removed(ds, id), today)
  {
  }

  /** `devices.map(device => device.id === u.id ? u : device)`: every entry with
      `u`'s id is replaced, all others stay. */
  function Replaced(ds: seq<Device>, u: Device): (r: seq<Device>)
    ensures |r| == |ds|
    ensures forall i :: 0 <= i < |ds| ==> r[i] == (if ds[i].id == u.id then u else ds[i])
  {
    if ds == [] then [] else [if ds[0].id == u.id then u else ds[0]] + Replaced(ds[1..], u)
  }

  /** An update whose id matches nothing changes nothing. */
  lemma ReplacedNoMatch(ds: seq<Device>, u: Device)
    requires forall i :: 0 <= i < |ds| ==> ds[i].id != u.id
    ensures Replaced(ds, u) == ds
  {
    var r := Replaced(ds, u);
    assert forall i :: 0 <= i < |ds| ==> r[i] == ds[i];
  }

  /** `updateDevice` with the refreshed record keeps a current list current. */
  lemma UpdateKeepsConsistent(ds: seq<Device>, u: Device, today: string)
    requires AllConsistent(ds, today)
    ensures AllConsistent(Replaced(ds, Refresh(u, today)), today)
  {
  }

  /** `devices.filter(device => !device.isExpired)`. */
  function Active(ds: seq<Device>): (r: seq<Device>)
    ensures forall i :: 0 <= i < |r| ==> r[i] in ds && !r[i].isExpired
    ensures forall i :: 0 <= i < |ds| && !ds[i].isExpired ==> ds[i] in r
  {
    Filter(ds, Unexpired)
  }

  lemma ActiveConcat(a: seq<Device>, b: seq<Device>)
    ensures Active(a + b) == Active(a) + Active(b)
    ensures Active([]) == []
  {
    FilterConcat(a, b, Unexpired);
  }

  lemma ActiveSingleton(d: Device)
    ensures Active([d]) == if d.isExpired then [] else [d]
  {
    assert [d][1..] == [];
  }

  /** `devices.find(d => d.id === id)`, as the index of the first match. */
  function FirstIndexOf(ds: seq<Device>, id: string): (r: Option<nat>)
    ensures r.Some? ==> r.value < |ds| && ds[r.value].id == id
    ensures r.Some? ==> forall j :: 0 <= j < r.value ==> ds[j].id != id
    ensures r.None? ==> forall j :: 0 <= j < |ds| ==> ds[j].id != id
  {
    if ds == [] then None
    else if ds[0].id == id then Some(0)
    else match FirstIndexOf(ds[1..], id)
      case None => None
      case Some(k) => Some(k + 1)
  }
}
