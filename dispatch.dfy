/**
 * Sending a message: which devices it goes to, the one-request-per-device
 * fan-out, and how the per-device outcomes are folded into the history entry
 * and the last-test report.
 */
module Dispatch {
  import opened Wrappers
  import opened BarkTypes
  import opened Seqs
  import opened Registry
  import opened Relay

  /** The message group used when the caller gives none. */
  const DefaultMessageGroup: string := "酒店BUG"

  /** JavaScript truthiness of an optional string argument. */
  predicate Given(s: Option<string>)
  {
    s.Some? && s.value != ""
  }

  /** `k` is the position `devices.find(d => d.id === id)` stops at. */
  predicate FirstWithId(ds: seq<Device>, k: int, id: string)
  {
    0 <= k < |ds| && ds[k].id == id && forall j :: 0 <= j < k ==> ds[j].id != id
  }

  /** `devicesToSend`: all active devices for `all`; for `single` with an id,
      the first device with that id if it is active; nothing otherwise. */
  function ResolveTargets(ds: seq<Device>, target: Target, targetDeviceId: Option<string>): (r: seq<Device>)
    ensures target == All ==> r == Active(ds)
    ensures target == Group ==> r == []
    ensures target == Single && !Given(targetDeviceId) ==> r == []
    ensures target == Single && Given(targetDeviceId) ==>
      forall k :: FirstWithId(ds, k, targetDeviceId.value) ==> r == (if ds[k].isExpired then [] else [ds[k]])
    ensures target == Single && Given(targetDeviceId) && (forall j :: 0 <= j < |ds| ==> ds[j].id != targetDeviceId.value)
      ==> r == []
    ensures forall i :: 0 <= i < |r| ==> r[i] in ds && !r[i].isExpired
  {
    match target
    case All => Active(ds)
    case Group => []
    case Single =>
      if !Given(targetDeviceId) then []
      else match FirstIndexOf(ds, targetDeviceId.value)
        case None => []
        case Some(k) => if ds[k].isExpired then [] else [ds[k]]
  }

  /** `messageGroup || '酒店BUG'`: never empty. */
  function GroupOrDefault(messageGroup: Option<string>): (g: string)
    ensures g != ""
    ensures Given(messageGroup) ==> g == messageGroup.value
    ensures !Given(messageGroup) ==> g == DefaultMessageGroup
  {
    if Given(messageGroup) then messageGroup.value else DefaultMessageGroup
  }

  /** The `results` entry pushed for one device. */
  function SendEntry(d: Device, o: Outcome): (e: TestEntry)
    ensures e.deviceId == d.id && e.deviceName.None?
    ensures e.success <==> o.Delivered?
    ensures o.Failed? ==> e.error == Some(o.error)
    ensures o.Delivered? ==> e.error.None?
  {
    match o
    case Delivered => TestEntry(d.id, None, true, None)
    case Failed(err) => TestEntry(d.id, None, false, Some(err))
  }

  /** The entries the delivery loop records, given the requests it made. */
  function SendResults(targets: seq<Device>, calls: seq<Request>, net: Network): (rs: seq<TestEntry>)
    requires |calls| == |targets|
    ensures |rs| == |targets|
    ensures forall i :: 0 <= i < |targets| ==> rs[i] == SendEntry(targets[i], net(i, calls[i]))
  {
    seq(|targets|, i requires 0 <= i < |targets| => SendEntry(targets[i], net(i, calls[i])))
  }

  /** The delivery loop: one push per target, in order, with the same title,
      content, group and icon; a failure is recorded and the loop goes on. */
  method DeliverAll(targets: seq<Device>, title: string, content: string, group: string, icon: string, net: Network)
    returns (calls: seq<Request>, results: seq<TestEntry>, allSuccess: bool)
    ensures |calls| == |targets| && |results| == |targets|
    ensures forall i :: 0 <= i < |targets| ==> calls[i] == Push(targets[i].deviceCode, title, content, group, icon)
    ensures forall i :: 0 <= i < |targets| ==> results[i] == SendEntry(targets[i], net(i, calls[i]))
    ensures results == SendResults(targets, calls, net)
    ensures allSuccess <==> forall i :: 0 <= i < |targets| ==> results[i].success
    ensures allSuccess <==> forall i :: 0 <= i < |targets| ==> net(i, calls[i]).Delivered?
  {
    calls, results, allSuccess := [], [], true;
    for i := 0 to |targets|
      invariant |calls| == i && |results| == i
      invariant forall j :: 0 <= j < i ==> calls[j] == Push(targets[j].deviceCode, title, content, group, icon)
      invariant forall j :: 0 <= j < i ==> results[j] == SendEntry(targets[j], net(j, calls[j]))
      invariant allSuccess <==> forall j :: 0 <= j < i ==> results[j].success
    {
      var device := targets[i];
      var request := Push(device.deviceCode, title, content, group, icon);
      calls := calls + [request];
      match net(i, request)
      case Delivered =>
        results := results + [TestEntry(device.id, None, true, None)];
      case Failed(err) =>
        allSuccess := false;
        results := results + [TestEntry(device.id, None, false, Some(err))];
    }
  }

  predicate Succeeded(e: TestEntry)
  {
    e.success
  }

  predicate Failing(e: TestEntry)
  {
    !e.success
  }

  /** `results.filter(r => r.success).length`. */
  function SuccessCount(rs: seq<TestEntry>): (n: nat)
    ensures n <= |rs|
    ensures n == |rs| <==> forall i :: 0 <= i < |rs| ==> rs[i].success
  {
    FilterFull(rs, Succeeded);
    |Filter(rs, Succeeded)|
  }

  /** `results.filter(r => !r.success)`. */
  function Failures(rs: seq<TestEntry>): (f: seq<TestEntry>)
    ensures forall i :: 0 <= i < |f| ==> f[i] in rs && !f[i].success
    ensures forall i :: 0 <= i < |rs| && !rs[i].success ==> rs[i] in f
  {
    Filter(rs, Failing)
  }

  /** `devicesToSend.find(d => d.id === id)?.name`. */
  function NameLookup(targets: seq<Device>, id: string): (n: Option<string>)
    ensures n.Some? <==> exists k :: 0 <= k < |targets| && targets[k].id == id
    ensures forall k :: FirstWithId(targets, k, id) ==> n == Some(targets[k].name)
  {
    match FirstIndexOf(targets, id)
    case None => None
    case Some(k) => Some(targets[k].name)
  }

  /** `` `设备 ${device?.name || '未知'}: ${r.error}` ``. */
  function FailureLabel(targets: seq<Device>, e: TestEntry): (s: string)
    ensures "设备 " <= s
  {
    var name := match NameLookup(targets, e.deviceId)
      case Some(n) => if n != "" then n else "未知"
      case None => "未知";
    "设备 " + name + ": " + e.error.GetOr("undefined")
  }

  /** With distinct ids, the label of a failed delivery names that device
      (or `未知` when its name is empty) and quotes the relay's error. */
  lemma FailureLabelOfSend(targets: seq<Device>, calls: seq<Request>, net: Network, i: nat)
    requires |calls| == |targets| && DistinctIds(targets) && i < |targets| && net(i, calls[i]).Failed?
    ensures FailureLabel(targets, SendResults(targets, calls, net)[i])
      == "设备 " + (if targets[i].name != "" then targets[i].name else "未知") + ": " + net(i, calls[i]).error
  {
    FirstIndexOfDistinct(targets, i);
  }

  function LabelsOf(targets: seq<Device>): TestEntry -> string
  {
    (e: TestEntry) => FailureLabel(targets, e)
  }

  /** The `errorMessage`: the labels of the failing entries joined by `'; '`. */
  function ErrorSummary(targets: seq<Device>, rs: seq<TestEntry>): string
  {
    Join(Map(Failures(rs), LabelsOf(targets)), "; ")
  }

  /** The summary lists failures in order: the failures of a prefix come before those of the rest. */
  lemma {:induction false} ErrorSummaryConcat(targets: seq<Device>, a: seq<TestEntry>, b: seq<TestEntry>)
    requires Failures(a) != [] && Failures(b) != []
    ensures ErrorSummary(targets, a + b) == ErrorSummary(targets, a) + "; " + ErrorSummary(targets, b)
  {
    FilterConcat(a, b, Failing);
    var f := LabelsOf(targets);
    assert Failures(a + b) == Failures(a) + Failures(b);
    MapConcat(Failures(a), Failures(b), f);
    JoinConcat(Map(Failures(a), f), Map(Failures(b), f), "; ");
  }

  /** The summary of a single entry: its label if it failed, nothing if it succeeded. */
  lemma ErrorSummarySingleton(targets: seq<Device>, e: TestEntry)
    ensures ErrorSummary(targets, [e]) == if e.success then "" else FailureLabel(targets, e)
  {
    assert [e][1..] == [];
    if !e.success {
      assert Failures([e]) == [e];
    } else {
      assert Failures([e]) == [];
    }
  }

  /** A failed send always carries a non-empty error text. */
  lemma ErrorSummaryNonEmpty(targets: seq<Device>, rs: seq<TestEntry>, i: nat)
    requires i < |rs| && !rs[i].success
    ensures ErrorSummary(targets, rs) != ""
  {
    var labels := Map(Failures(rs), LabelsOf(targets));
    assert rs[i] in Failures(rs);
    assert "设备 " <= labels[0];
  }

  /** The report is `{successCount, totalCount: devicesToSend.length, results}`
      with each entry's `deviceName` looked up among the targets. */
  function Report(timestamp: string, targets: seq<Device>, rs: seq<TestEntry>): ConnectivityTestResult
  {
    ConnectivityTestResult(timestamp, SuccessCount(rs), |targets|,
      Map(rs, (e: TestEntry) => e.(deviceName := NameLookup(targets, e.deviceId))))
  }

  predicate DistinctIds(ds: seq<Device>)
  {
    forall i, j :: 0 <= i < j < |ds| ==> ds[i].id != ds[j].id
  }

  lemma FirstIndexOfDistinct(ds: seq<Device>, i: nat)
    requires DistinctIds(ds) && i < |ds|
    ensures FirstIndexOf(ds, ds[i].id) == Some(i)
  {
  }

  /** The counts of a report: bounded by the devices tried, equal exactly
      when every entry succeeded, one entry per device. */
  lemma ReportCounts(timestamp: string, targets: seq<Device>, rs: seq<TestEntry>)
    requires |rs| == |targets|
    ensures var r := Report(timestamp, targets, rs);
      && r.timestamp == timestamp
      && r.totalCount == |targets| == |r.results|
      && r.successCount <= r.totalCount
      && (r.successCount == r.totalCount <==> forall i :: 0 <= i < |rs| ==> rs[i].success)
  {
  }

  /** Each report entry of a send keeps its device's id and outcome and is
      named after a target carrying that id: its own device when ids are distinct. */
  lemma ReportOfSend(timestamp: string, targets: seq<Device>, calls: seq<Request>, net: Network)
    requires |calls| == |targets|
    ensures var r := Report(timestamp, targets, SendResults(targets, calls, net));
      && |r.results| == |targets|
      && (forall i :: 0 <= i < |targets| ==>
            r.results[i].deviceId == targets[i].id && r.results[i].deviceName.Some?
            && (r.results[i].success <==> net(i, calls[i]).Delivered?))
      && (DistinctIds(targets) ==> forall i :: 0 <= i < |targets| ==> r.results[i].deviceName == Some(targets[i].name))
  {
    var rs := SendResults(targets, calls, net);
    var r := Report(timestamp, targets, rs);
    forall i | 0 <= i < |targets|
      ensures r.results[i].deviceName.Some?
    {
      assert targets[i].id == rs[i].deviceId;
    }
    if DistinctIds(targets) {
      forall i | 0 <= i < |targets|
        ensures r.results[i].deviceName == Some(targets[i].name)
      {
        FirstIndexOfDistinct(targets, i);
      }
    }
  }
}
