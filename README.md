# Bark multi-device push manager: the state hook, in Dafny

This project models `useBarkSystem`, the hook that holds the whole state of the
Bark push manager. The state is the registered push devices, the message history
and the avatar setting, plus a separate slot for the last connectivity report.
The model covers the hook's operations:

- loading the stored state, dropping the legacy per-device `group` field;
- the expiry sweep, and add, delete and update of devices;
- the avatar update and the active-device list;
- `sendMessage`: it resolves the target devices, makes one relay request per
  device in order, and folds the per-device outcomes into one history entry
  and into the last-test report;
- `runConnectivityTest`, and the format-then-probe check of `validateDeviceCode`.

Layout, one module per concern:

- `BarkTypes` (`types.dfy`): the records of `src/types.ts`.
- `Wrappers`: `Option`.
- `Seqs`: the `filter`/`map`/`join` the hook is written with.
- `Dates`: JavaScript's string `<`, the expiry rule, and the proof that on
  `YYYY-MM-DD` strings the string order is the calendar order.
- `Registry`: the device-list transforms. The source writes them as pure
  `map`/`filter`/spread expressions, so here they are functions with lemmas.
- `Relay`: the two request shapes and the abstract relay. The relay is a
  function from (call number, request) to `Delivered` or `Failed(error)`.
- `Dispatch`: target resolution, the delivery loop (`DeliverAll`) and the
  aggregation into `errorMessage` and the report.
- `Connectivity`: the probe loop (`ProbeAll`) and `ValidateDeviceCode`.
- `Persistence`: `Load`/`Save` of the two storage keys.
- `BarkHook`: the class `BarkSystem`. It has the fields `state` and `lastTest`,
  and each operation is a method that updates them.

Host inputs are parameters of the methods: the online flag, today's
`YYYY-MM-DD` string, `Date.now()` ids, ISO timestamps and the relay's answers.
Each method that reaches the relay also returns the requests it sent.

The model follows the hook's code in these details:

- The hook does not reject an empty device code or name in `addDevice`. It also
  does not reject an empty title or content in `sendMessage`. Only the UI
  components check these.
- An empty-string expiry date never expires, because `"" && ...` is falsy.
  This holds even though `"" < today` is true.
- Loading does not recompute `isExpired`; the sweep run at mount does.
- `target` may also be `'group'`, which resolves to no device.
- A `'single'` target is the FIRST device with that id. If that device is
  expired, nothing is sent, even when a later device has the same id.
- In a failure label, a device with an empty name is named `未知`.

## Model

| member | source | states |
|---|---|---|
| Dates.LexLessIsLexicographic | src/hooks/useBarkSystem.ts:52 | the string `<` used for expiry holds exactly when, after a common prefix, the left string ends or has the smaller character |
| Dates.LexLessWitness | src/hooks/useBarkSystem.ts:52 | when `a < b`, there is a first-difference index with a common prefix before it |
| Dates.LexLessFromWitness | src/hooks/useBarkSystem.ts:52 | a common prefix followed by the end of `a` or a smaller character of `a` gives `a < b` |
| Dates.LexLessIrreflexive | src/hooks/useBarkSystem.ts:52 | no date string is before itself, so a device expiring today is not expired |
| Dates.LexLessTransitive | src/hooks/useBarkSystem.ts:52 | the string order is transitive; with `LexLessIrreflexive` and `LexLessTotal` this makes JavaScript's string `<`, as modelled, a strict total order |
| Dates.LexLessTotal | src/hooks/useBarkSystem.ts:52 | of two different strings exactly one is below the other, which completes the strict total order of JavaScript's string `<` |
| Dates.LexLessConcat | src/hooks/useBarkSystem.ts:52 | comparing concatenations whose first parts have equal length: the first parts decide, and a tie passes to the rest |
| Dates.DigitOrder | src/hooks/useBarkSystem.ts:52 | on digit strings of equal length, string order is numeric order and string equality is numeric equality |
| Dates.TwoDigitBound | src/hooks/useBarkSystem.ts:47 | a month or day field is below 100 |
| Dates.IsoDateOrder | src/hooks/useBarkSystem.ts:47-52 | on `YYYY-MM-DD` strings (date input and `toISOString().split('T')[0]`), `<` is calendar order |
| Dates.ExpiredIffBefore | src/hooks/useBarkSystem.ts:52 | a device with a well-formed expiry date is flagged expired exactly when that date is strictly before today |
| Seqs.Filter | src/hooks/useBarkSystem.ts:94 | `filter` keeps exactly the elements that satisfy the predicate and never lengthens the list |
| Seqs.FilterConcat | src/hooks/useBarkSystem.ts:94 | `filter` distributes over concatenation, so kept elements keep their relative order |
| Seqs.FilterFull | src/hooks/useBarkSystem.ts:239 | a filter drops nothing exactly when every element passes, and is then the identity |
| Seqs.Join | src/hooks/useBarkSystem.ts:223 | `join` of no parts is empty; otherwise it starts with the first part |
| Seqs.JoinConcat | src/hooks/useBarkSystem.ts:223 | joining two non-empty lists puts exactly one separator between their joins |
| Registry.Refresh | src/hooks/useBarkSystem.ts:50-53 | a recomputed device agrees with its expiry date as of today, and only `isExpired` changes |
| Registry.Sweep | src/hooks/useBarkSystem.ts:46-54 | the sweep keeps length and order, refreshes each device in place, and leaves every device consistent with today |
| Registry.SweepOfConsistent | src/hooks/useBarkSystem.ts:46-54 | a list already consistent with today is unchanged by the sweep |
| Registry.SweepIdempotent | src/hooks/useBarkSystem.ts:57-61 | a second sweep on the same day changes nothing |
| Registry.NewDevice | src/hooks/useBarkSystem.ts:72-80 | the added device carries the given id, code, name and expiry date, with `isExpired` computed at insertion |
| Registry.Appended | src/hooks/useBarkSystem.ts:82-85 | add grows the list by exactly one: earlier devices keep their places and the new one is last |
| Registry.AddKeepsConsistent | src/hooks/useBarkSystem.ts:72-85 | adding to a list that is current for today keeps it current |
| Registry.Removed | src/hooks/useBarkSystem.ts:91-95 | delete keeps exactly the devices with another id, and is the identity when no device has the id |
| Registry.RemovedConcat | src/hooks/useBarkSystem.ts:94 | delete works element by element, so survivors keep their original order |
| Registry.RemovedSingleton | src/hooks/useBarkSystem.ts:94 | a single device is dropped exactly when its id matches |
| Registry.RemovedKeepsConsistent | src/hooks/useBarkSystem.ts:91-95 | delete keeps a current list current |
| Registry.Replaced | src/hooks/useBarkSystem.ts:108-113 | update keeps length and order; every entry with the id is replaced and every other entry stays |
| Registry.ReplacedNoMatch | src/hooks/useBarkSystem.ts:108-113 | an update whose id matches nothing leaves the list as it was |
| Registry.UpdateKeepsConsistent | src/hooks/useBarkSystem.ts:101-113 | update with the recomputed record keeps a current list current |
| Registry.Active | src/hooks/useBarkSystem.ts:262-264 | the active devices are exactly the listed devices not flagged expired |
| Registry.ActiveConcat | src/hooks/useBarkSystem.ts:130 | the active filter keeps list order |
| Registry.ActiveSingleton | src/hooks/useBarkSystem.ts:130 | a single device is active exactly when not flagged expired |
| Registry.FirstIndexOf | src/hooks/useBarkSystem.ts:132 | `find` by id gives the first matching position, or reports that no device has the id |
| Dispatch.ResolveTargets | src/hooks/useBarkSystem.ts:127-141 | `all` gives exactly the active devices in order; `group`, or `single` without an id, gives none; `single` gives the first device with that id when it is active and none otherwise; every target is a listed active device |
| Dispatch.GroupOrDefault | src/hooks/useBarkSystem.ts:144 | the message group is the caller's non-empty group, otherwise `酒店BUG`, and is never empty |
| Dispatch.SendEntry | src/hooks/useBarkSystem.ts:200-208 | a delivery's entry carries the device id and succeeds exactly when the relay succeeded; a failure carries the relay's error |
| Dispatch.SendResults | src/hooks/useBarkSystem.ts:171-212 | the recorded results are one entry per target, in target order |
| Dispatch.DeliverAll | src/hooks/useBarkSystem.ts:165-212 | exactly one push per target, in order, each with the same title, content, group and icon; a failure does not stop the loop; `allSuccess` holds exactly when every delivery succeeded |
| Dispatch.SuccessCount | src/hooks/useBarkSystem.ts:239 | the success count is at most the number of entries, and equal to it exactly when all entries succeeded |
| Dispatch.Failures | src/hooks/useBarkSystem.ts:218 | the failing entries are exactly the entries that did not succeed |
| Dispatch.NameLookup | src/hooks/useBarkSystem.ts:220-221 | a name is found exactly when some target carries the entry's id, and it is the name of the FIRST target with that id |
| Dispatch.FailureLabelOfSend | src/hooks/useBarkSystem.ts:218-222 | with distinct target ids, the label of a failed delivery is `设备 `, then the device's name (or `未知` when it is empty), then `: ` and that delivery's error |
| Dispatch.FailureLabel | src/hooks/useBarkSystem.ts:219-222 | every failure label starts with `设备 ` |
| Dispatch.ErrorSummaryConcat | src/hooks/useBarkSystem.ts:217-223 | the error message lists failures in delivery order, joined by `'; '` |
| Dispatch.ErrorSummarySingleton | src/hooks/useBarkSystem.ts:217-223 | one entry contributes its label when it failed and nothing when it succeeded |
| Dispatch.ErrorSummaryNonEmpty | src/hooks/useBarkSystem.ts:217-223 | a send with any failure has a non-empty error message |
| Dispatch.ReportCounts | src/hooks/useBarkSystem.ts:237-245 | in a send's report, `totalCount` is the number of targets and of entries, `successCount ≤ totalCount`, and they are equal exactly when every delivery succeeded |
| Dispatch.ReportOfSend | src/hooks/useBarkSystem.ts:241-244 | each report entry keeps its device's id and outcome and always gets a name; when target ids are distinct, that name is its own device's |
| Dispatch.FirstIndexOfDistinct | src/hooks/useBarkSystem.ts:243 | with distinct ids, `find` by a device's id finds that device |
| Connectivity.ProbeEntry | src/hooks/useBarkSystem.ts:375-387 | a probe's entry carries the device's id and name, and succeeds exactly when the probe succeeded |
| Connectivity.ProbeAll | src/hooks/useBarkSystem.ts:349-389 | exactly one archive-less probe per device, in order, with the fixed test title and content; each failure is recorded and the loop continues |
| Connectivity.ValidateDeviceCode | src/hooks/useBarkSystem.ts:291-329 | a code shorter than 10 characters is refused without any request, and so is any code when offline; otherwise exactly one probe is sent, and the code is valid exactly when it succeeded |
| Persistence.DefaultState | src/hooks/useBarkSystem.ts:29-36 | the default state has no devices, no messages and the default avatar URL |
| Persistence.StripGroup | src/hooks/useBarkSystem.ts:18-21 | migration drops the legacy `group` and keeps every other device field |
| Persistence.StoreDevices | src/hooks/useBarkSystem.ts:40-42 | saving writes each device, in order, with no group |
| Persistence.MigrateDevices | src/hooks/useBarkSystem.ts:17-22 | migration maps each stored device, in order |
| Persistence.Load | src/hooks/useBarkSystem.ts:11-37 | a parsed blob keeps messages and settings and has each device migrated; an absent or unparsable blob gives the default state |
| Persistence.LoadSave | src/hooks/useBarkSystem.ts:11-42 | loading what was saved gives back the state |
| Persistence.LoadIdempotent | src/hooks/useBarkSystem.ts:17-22 | migrating a second time changes nothing |
| Persistence.LoadLastTest | src/hooks/useBarkSystem.ts:332-340 | the last report is the stored one, and null when absent or unreadable |
| BarkHook.BarkSystem.constructor | src/hooks/useBarkSystem.ts:11-37 | the initial state is the loaded state, and the last-test slot is the loaded report |
| BarkHook.BarkSystem.CheckExpiredDevices | src/hooks/useBarkSystem.ts:46-58 | only the devices change, to their sweep; afterwards every device is consistent with today |
| BarkHook.BarkSystem.AddDevice | src/hooks/useBarkSystem.ts:72-88 | only the devices change: the new device is appended, it is consistent with today, and a current list stays current |
| BarkHook.BarkSystem.DeleteDevice | src/hooks/useBarkSystem.ts:91-98 | only the devices change, to the filtered list; messages, including dangling `targetDeviceId`s, stay the same |
| BarkHook.BarkSystem.UpdateDevice | src/hooks/useBarkSystem.ts:101-116 | only the devices change: matching entries are replaced by the recomputed record, and a current list stays current |
| BarkHook.BarkSystem.SendMessage | src/hooks/useBarkSystem.ts:119-246 | when offline or with no resolved target, nothing changes and no request is made; otherwise there is one push per target with the shared group and avatar, the built message is prepended, and the send's report fills the last-test slot. `isSuccess` holds exactly when all deliveries succeeded. `errorMessage` is set exactly when it fails, is non-empty, and is the failing devices' labels. The report counts are bounded and equal exactly on success |
| BarkHook.BarkSystem.UpdateAvatar | src/hooks/useBarkSystem.ts:249-259 | only the avatar URL in the settings changes |
| BarkHook.BarkSystem.GetActiveDevices | src/hooks/useBarkSystem.ts:262-264 | returns exactly the devices not flagged expired |
| BarkHook.BarkSystem.RunConnectivityTest | src/hooks/useBarkSystem.ts:343-404 | the system state, messages included, is untouched; there is one probe per active device in order; the report's total is the number of active devices and its success count is at most that, equal exactly when every probe succeeded; the report fills the last-test slot |

## Left out

- Rendering, tabs, forms and `toast` notifications: presentation only. The
  checks for an empty title, content, code or name live in the UI components,
  not in the hook.
- `fetch`, the HTTP status check and the JSON `code`/`message` interpretation:
  each request's fate is an abstract `Outcome` given by the `Network`
  parameter. The error texts (`HTTP错误! 状态码: …`, `Bark API错误: …`,
  `发送失败`) arrive already formed in `Failed(error)`.
- `encodeURIComponent` and the URL templates: a `Request` holds the fields
  before encoding. The `timeout: 10000` option is not a Fetch option and gives
  no guarantee, so there is nothing to model.
- `localStorage`, `JSON.parse` and `JSON.stringify`: these are the `Saved`
  and `SavedTest` values. The storage key always holds `Save(state)`
  (`LoadSave`), so it is not a separate field.
- Persistence.Load: a parsed blob whose `devices` is missing or not an array
  is returned unchanged by the source. Such a value cannot be built from the
  typed `Saved`, so it is not modelled. Stored text that parses to `null`, or
  a `devices` array holding a `null` entry, makes the code at lines 17-19
  throw inside the `try`; the hook then falls back to the default state,
  which the model gives for `Unparsable`. Other JSON that is not an object
  (a number or a string) is returned unchanged and is not modelled.
- Registry.Refresh: the source stores the falsy `null` or `""` rather than
  `false` when a device has no expiry date. Only truthiness is ever read, so
  the model stores `false`.
- `navigator.onLine`, `Date.now()`, `new Date()` and `setInterval`: the host
  passes the online flag, id, timestamps and `today` as parameters. The daily
  schedule is the host calling `CheckExpiredDevices`. `sendMessage` reads the
  clock twice, so it takes two timestamps (`sentAt`, `finishedAt`).
- Id uniqueness: the source does not guarantee it, so the model does not
  assume it. `Dispatch.ReportOfSend` states what distinct ids give.
- The `await` suspensions: each operation runs to completion. A send that
  overlaps a device change, or hook instances held separately by different
  components, are not modelled.
- `getHistoryMessages`, `getUserSettings` and `getMessageGroups` only read a
  field or a constant (`state.messages`, `state.settings`,
  `BarkHook.MessageGroups`), so they carry no contract.
- `getLastConnectivityTest` reads and parses the last-test key, under a
  try/catch, on every call. The model does that parse once, when the object
  is built (`Persistence.LoadLastTest`), and keeps the result in `lastTest`;
  the sends and tests that write the key also write `lastTest`.
  `BarkSystem.GetLastConnectivityTest` returns that field and has no
  contract.
- Strings are sequences of Unicode scalar values, while JavaScript's `length`
  and `<` work on UTF-16 code units. The two agree on ASCII device codes and
  dates, and differ only for characters outside the Basic Multilingual Plane.
- The periodic reachability probe of the page and the avatar file upload:
  browser plumbing outside the hook.
