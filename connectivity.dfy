/**
 * Probing devices without leaving a message on them: the connectivity sweep
 * over the active devices and the device-code check done before adding one.
 */
module Connectivity {
  import opened Wrappers
  import opened BarkTypes
  import opened Registry
  import opened Relay

  const TestTitle: string := "连通性测试"
  const TestContent: string := "这是一条连通性测试消息，收到请忽略"
  const ValidationTitle: string := "设备验证"
  const ValidationContent: string := "这是一条设备验证消息，收到请忽略"

  /** A device code shorter than this is refused without asking the relay. */
  const MinCodeLength: nat := 10

  /** The report line of one probed device: named at probe time. */
  function ProbeEntry(d: Device, o: Outcome): (e: TestEntry)
    ensures e.deviceId == d.id && e.deviceName == Some(d.name)
    ensures e.success <==> o.Delivered?
    ensures o.Failed? ==> e.error == Some(o.error)
    ensures o.Delivered? ==> e.error.None?
  {
    match o
    case Delivered => TestEntry(d.id, Some(d.name), true, None)
    case Failed(err) => TestEntry(d.id, Some(d.name), false, Some(err))
  }

  /** The test loop: one probe per device, in order, each failure recorded and the loop continued. */
  method ProbeAll(devices: seq<Device>, net: Network) returns (calls: seq<Request>, results: seq<TestEntry>)
    ensures |calls| == |devices| && |results| == |devices|
    ensures forall i :: 0 <= i < |devices| ==> calls[i] == Probe(devices[i].deviceCode, TestTitle, TestContent)
    ensures forall i :: 0 <= i < |devices| ==> results[i] == ProbeEntry(devices[i], net(i, calls[i]))
  {
    calls, results := [], [];
    for i := 0 to |devices|
      invariant |calls| == i && |results| == i
      invariant forall j :: 0 <= j < i ==> calls[j] == Probe(devices[j].deviceCode, TestTitle, TestContent)
      invariant forall j :: 0 <= j < i ==> results[j] == ProbeEntry(devices[j], net(j, calls[j]))
    {
      var device := devices[i];
      var request := Probe(device.deviceCode, TestTitle, TestContent);
      calls := calls + [request];
      match net(i, request)
      case Delivered =>
        results := results + [TestEntry(device.id, Some(device.name), true, None)];
      case Failed(err) =>
        results := results + [TestEntry(device.id, Some(device.name), false, Some(err))];
    }
  }

  /** `validateDeviceCode`: a format check first, then the connection check,
      then a single probe; every failure reads as `false`. */
  method ValidateDeviceCode(deviceCode: string, online: bool, net: Network) returns (valid: bool, calls: seq<Request>)
    ensures |deviceCode| < MinCodeLength ==> !valid && calls == []
    ensures !online ==> !valid && calls == []
    ensures |deviceCode| >= MinCodeLength && online ==>
      calls == [Probe(deviceCode, ValidationTitle, ValidationContent)]
    ensures valid <==> |deviceCode| >= MinCodeLength && online && calls != [] && net(0, calls[0]).Delivered?
  {
    if |deviceCode| < MinCodeLength {
      return false, [];
    }
    if !online {
      return false, [];
    }
    var request := Probe(deviceCode, ValidationTitle, ValidationContent);
    calls := [request];
    var outcome := net(0, request);
    valid := outcome.Delivered?;
  }
}
