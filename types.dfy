/**
 * The records the hook keeps and persists: a registered push device, a
 * message-history entry, the user settings, the connectivity report and the
 * persisted aggregate.
 */
module BarkTypes {
  import opened Wrappers

  /** A push endpoint. `isExpired` is derived from `expireDate` and the day of
      its last recomputation; `expireDate` is a `YYYY-MM-DD` string or null. */
  datatype Device = Device(
    id: string,
    deviceCode: string,
    name: string,
    expireDate: Option<string>,
    isExpired: bool)

  /** The `target` of a send: `'all' | 'group' | 'single'`. */
  datatype Target = All | Group | Single

  /** One history entry; optional fields of the record are `Option`s. */
  datatype Message = Message(
    id: string,
    title: string,
    content: string,
    timestamp: string,
    target: Target,
    targetGroup: Option<string>,
    targetDeviceId: Option<string>,
    isSuccess: bool,
    errorMessage: Option<string>,
    messageGroup: Option<string>,
    avatarUrl: Option<string>)

  datatype UserSettings = UserSettings(avatarUrl: string)

  /** One per-device line of a connectivity report. */
  datatype TestEntry = TestEntry(
    deviceId: string,
    deviceName: Option<string>,
    success: bool,
    error: Option<string>)

  datatype ConnectivityTestResult = ConnectivityTestResult(
    timestamp: string,
    successCount: nat,
    totalCount: nat,
    results: seq<TestEntry>)

  /** The unit of persistence. */
  datatype BarkSystemState = BarkSystemState(
    devices: seq<Device>,
    messages: seq<Message>,
    settings: UserSettings)
}
