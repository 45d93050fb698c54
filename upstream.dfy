/**
 * The outcome of one HTTP transaction with the power switch. Sockets, name resolution and the
 * HTTP codec are not modelled: a transaction either fails in transport, with the error's
 * message, or yields the device's answer.
 */
module Upstream {
  import opened PduTypes
  import opened Status
  import opened Requests

  /** An upstream request: `status_request()`, or `swith_request(channels, op)`. */
  datatype Call = StatusCall | SwitchCall(channels: set<Channel>, op: Op)

  /** The request target a call sends. */
  function Target(call: Call): string
  {
    match call
    case StatusCall => StatusTarget
    case SwitchCall(channels, op) => SwitchTarget(channels, op)
  }

  /** Distinct calls send distinct targets, so a log of calls and a log of targets say the same. */
  lemma TargetInjective(a: Call, b: Call)
    ensures Target(a) == Target(b) <==> a == b
  {
    if a.SwitchCall? && b.SwitchCall? && Target(a) == Target(b) {
      SwitchTargetInjective(a.channels, a.op, b.channels, b.op);
    } else if a.SwitchCall? && b.StatusCall? {
      StatusTargetNotSwitch(a.channels, a.op);
    } else if a.StatusCall? && b.SwitchCall? {
      StatusTargetNotSwitch(b.channels, b.op);
    }
  }

  /** The requests applying one scene: the off-set's first, then the on-set's, each only if non-empty. */
  function SceneCalls(scene: Scene): (ts: seq<Call>)
    ensures |ts| <= 2
    ensures scene.off != {} ==> |ts| >= 1 && ts[0] == SwitchCall(scene.off, Off)
    ensures scene.on != {} ==> |ts| >= 1 && ts[|ts| - 1] == SwitchCall(scene.on, On)
    ensures |ts| == (if scene.off != {} then 1 else 0) + (if scene.on != {} then 1 else 0)
  {
    (if scene.off != {} then [SwitchCall(scene.off, Off)] else [])
      + (if scene.on != {} then [SwitchCall(scene.on, On)] else [])
  }

  /** `http::status::ok`, the status every transaction expects. */
  const StatusOk := 200

  /**
   * A transaction's result. An answer carries its status, the message of the error code made
   * from that status (the text of the HTTP status error category), and the parsed body.
   */
  datatype Reply =
    | TransportError(message: string)
    | Answered(status: int, reason: string, body: StatusDoc)

  /** A transaction succeeds when nothing failed in transport and the status is the expected one. */
  predicate Accepted(reply: Reply, expected: int)
  {
    reply.Answered? && reply.status == expected
  }

  /** The error code's message for a transaction that did not succeed. */
  function ErrorMessage(reply: Reply): string
  {
    match reply
    case TransportError(message) => message
    case Answered(_, reason, _) => reason
  }
}
