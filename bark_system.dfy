/**
 * The hook itself: one held system state (devices, messages, settings) and
 * the separate last-test slot, with the operations the pages call.
 * The clock, the device id, the online flag and the relay are parameters.
 */
module BarkHook {
  import opened Wrappers
  import opened BarkTypes
  import opened Registry
  import opened Relay
  import opened Dispatch
  import opened Connectivity
  import opened Persistence

  /** The message groups `getMessageGroups` offers to the sender. */
  const MessageGroups: seq<string> := ["酒店BUG", "八戒惠玩", "通知"]

  /** How a send ended: refused because offline, refused for want of a
      target, or carried out (the recorded message and the report). */
  datatype SendOutcome =
    | Offline
    | NoValidDevice
    | Sent(message: Message, report: ConnectivityTestResult)

  class BarkSystem {
    var state: BarkSystemState
    var lastTest: Option<ConnectivityTestResult>

    /** The hook's initial state, read from the two storage keys. The host
        then runs `CheckExpiredDevices` at mount and once a day. */
    constructor (saved: Saved, savedTest: SavedTest)
      ensures state == Load(saved)
      ensures lastTest == LoadLastTest(savedTest)
    {
      state := Load(saved);
      lastTest := LoadLastTest(savedTest);
    }

    /** Every device's flag agrees with its expiry date as of `today`. */
    predicate ExpiryCurrent(today: string)
      reads this
    {
      AllConsistent(state.devices, today)
    }

    method CheckExpiredDevices(today: string)
      modifies this`state
      ensures state == old(state).(devices := Sweep(old(state).devices, today))
      ensures ExpiryCurrent(today)
    {
      state := state.(devices := Sweep(state.devices, today));
    }

    method AddDevice(deviceCode: string, name: string, expireDate: Option<string>, id: string, today: string)
      modifies this`state
      ensures state == old(state).(devices := Appended(old(state).devices, NewDevice(id, deviceCode, name, expireDate, today)))
      ensures ExpiryConsistent(state.devices[|state.devices| - 1], today)
      ensures old(ExpiryCurrent(today)) ==> ExpiryCurrent(today)
    {
      var device := NewDevice(id, deviceCode, name, expireDate, today);
      if ExpiryCurrent(today) {
        AddKeepsConsistent(state.devices, id, deviceCode, name, expireDate, today);
      }
      state := state.(devices := Appended(state.devices, device));
    }

    /** Messages are not touched: a deleted device's history entries keep its id. */
    method DeleteDevice(deviceId: string)
      modifies this`state
      ensures state == old(state).(devices := Removed(old(state).devices, deviceId))
      ensures state.messages == old(state.messages)
      ensures forall today :: old(ExpiryCurrent(today)) ==> ExpiryCurrent(today)
    {
      state := state.(devices := Removed(state.devices, deviceId));
    }

    method UpdateDevice(updated: Device, today: string)
      modifies this`state
      ensures state == old(state).(devices := Replaced(old(state).devices, Refresh(updated, today)))
      ensures forall i :: 0 <= i < |state.devices| && state.devices[i].id == updated.id ==>
        ExpiryConsistent(state.devices[i], today)
      ensures old(ExpiryCurrent(today)) ==> ExpiryCurrent(today)
    {
      var refreshed := Refresh(updated, today);
      state := state.(devices := Replaced(state.devices, refreshed));
    }

    /** `sendMessage`: refuse when offline or when no device resolves; else
        deliver to every target, prepend the message and overwrite the
        last-test slot with the send's report. */
    method SendMessage(title: string, content: string, target: Target, messageGroup: Option<string>,
                       targetDeviceId: Option<string>, online: bool, id: string, sentAt: string,
                       finishedAt: string, net: Network)
      returns (outcome: SendOutcome, calls: seq<Request>)
      modifies this`state, this`lastTest
      ensures !online ==> outcome == Offline && calls == [] && state == old(state) && lastTest == old(lastTest)
      ensures var targets := ResolveTargets(old(state).devices, target, targetDeviceId);
        online && targets == [] ==>
          outcome == NoValidDevice && calls == [] && state == old(state) && lastTest == old(lastTest)
      ensures online && ResolveTargets(old(state).devices, target, targetDeviceId) != [] ==> outcome.Sent?
      ensures outcome.Sent? ==>
        var targets := ResolveTargets(old(state).devices, target, targetDeviceId);
        && |calls| == |targets|
        && (forall i :: 0 <= i < |targets| ==>
              calls[i] == Push(targets[i].deviceCode, title, content, GroupOrDefault(messageGroup), old(state).settings.avatarUrl))
        && state == old(state).(messages := [outcome.message] + old(state).messages)
        && lastTest == Some(outcome.report)
        && outcome.report == Report(finishedAt, targets, SendResults(targets, calls, net))
      ensures outcome.Sent? ==>
        var m := outcome.message;
        && m.id == id && m.title == title && m.content == content && m.timestamp == sentAt
        && m.target == target && m.targetGroup.None? && m.targetDeviceId == targetDeviceId
        && m.messageGroup == Some(GroupOrDefault(messageGroup))
        && m.avatarUrl == Some(old(state).settings.avatarUrl)
      ensures outcome.Sent? ==>
        var m := outcome.message;
        var targets := ResolveTargets(old(state).devices, target, targetDeviceId);
        && (m.isSuccess <==> forall i :: 0 <= i < |calls| ==> net(i, calls[i]).Delivered?)
        && (m.isSuccess ==> m.errorMessage.None?)
        && (!m.isSuccess ==> m.errorMessage == Some(ErrorSummary(targets, SendResults(targets, calls, net))))
        && (m.errorMessage.Some? ==> m.errorMessage.value != "")
      ensures outcome.Sent? ==>
        && outcome.report.totalCount == |calls| == |outcome.report.results|
        && outcome.report.successCount <= outcome.report.totalCount
        && (outcome.report.successCount == outcome.report.totalCount <==> outcome.message.isSuccess)
    {
      if !online {
        return Offline, [];
      }
      var targets := ResolveTargets(state.devices, target, targetDeviceId);
      if |targets| == 0 {
        return NoValidDevice, [];
      }
      var group := GroupOrDefault(messageGroup);
      var avatarUrl := state.settings.avatarUrl;
      var message := Message(id, title, content, sentAt, target, None, targetDeviceId, false, None, Some(group), Some(avatarUrl));
      var results, allSuccess;
      calls, results, allSuccess := DeliverAll(targets, title, content, group, avatarUrl, net);
      message := message.(isSuccess := allSuccess);
      if !allSuccess {
        var k :| 0 <= k < |targets| && !results[k].success;
        ErrorSummaryNonEmpty(targets, results, k);
        message := message.(errorMessage := Some(ErrorSummary(targets, results)));
      }
      state := state.(messages := [message] + state.messages);
      var report := Report(finishedAt, targets, results);
      ReportCounts(finishedAt, targets, results);
      lastTest := Some(report);
      outcome := Sent(message, report);
    }

    method UpdateAvatar(avatarUrl: string)
      modifies this`state
      ensures state == old(state).(settings := old(state).settings.(avatarUrl := avatarUrl))
    {
      state := state.(settings := state.settings.(avatarUrl := avatarUrl));
    }

    /** `getActiveDevices`: the devices not flagged expired, in list order. */
    function GetActiveDevices(): (r: seq<Device>)
      reads this
      ensures forall i :: 0 <= i < |r| ==> r[i] in state.devices && !r[i].isExpired
      ensures forall i :: 0 <= i < |state.devices| && !state.devices[i].isExpired ==> state.devices[i] in r
    {
      Active(state.devices)
    }

    function GetLastConnectivityTest(): Option<ConnectivityTestResult>
      reads this
    {
      lastTest
    }

    /** `runConnectivityTest`: probe every active device and keep the tally;
        the system state, messages included, is left alone. */
    method RunConnectivityTest(timestamp: string, net: Network) returns (report: ConnectivityTestResult, calls: seq<Request>)
      modifies this`lastTest
      ensures state == old(state)
      ensures var active := Active(state.devices);
        && |calls| == |active| == report.totalCount == |report.results|
        && (forall i :: 0 <= i < |active| ==> calls[i] == Probe(active[i].deviceCode, TestTitle, TestContent))
        && (forall i :: 0 <= i < |active| ==> report.results[i] == ProbeEntry(active[i], net(i, calls[i])))
      ensures report.timestamp == timestamp
      ensures report.successCount == SuccessCount(report.results) <= report.totalCount
      ensures report.successCount == report.totalCount <==> forall i :: 0 <= i < |calls| ==> net(i, calls[i]).Delivered?
      ensures lastTest == Some(report)
    {
      var active := Active(state.devices);
      var results;
      calls, results := ProbeAll(active, net);
      report := ConnectivityTestResult(timestamp, SuccessCount(results), |active|, results);
      lastTest := Some(report);
    }
  }
}
