/**
 * The push relay as seen by the hook: the two request shapes it sends
 * (a delivery carrying group and icon, and the archive-less probe used for
 * validation and connectivity tests) and an abstract relay that answers each
 * request with success or an error text.
 */
module Relay {
  /** `https://api.day.app/{deviceCode}/{title}/{content}?group=..&icon=..` or
      `...?isArchive=1&autoCopy=0`, before percent-encoding. */
  datatype Request =
    | Push(deviceCode: string, title: string, content: string, group: string, icon: string)
    | Probe(deviceCode: string, title: string, content: string)

  /** What one request ended in, after the HTTP status and the JSON `code`
      have been looked at: success, or the message of the error thrown. */
  datatype Outcome = Delivered | Failed(error: string)

  /** The relay's answer to the `n`-th request of one operation. */
  type Network = (nat, Request) -> Outcome
}
