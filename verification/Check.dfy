/** What one check is: its target, its result, and the sequential meaning of checkOne. */
module Check {
  import opened Prelude

  datatype Target = Target(id: string, url: string)

  /** duration and checkedAt are in nanoseconds; err is the text of a non-nil error. */
  datatype CheckResult = CheckResult(target: Target, status: int, duration: nat, err: Option<string>, checkedAt: nat)
  {
    predicate Failed() {
      err.Some? || status < 200 || status >= 400
    }
  }

  /**
   What the environment answers to one goroutine of Check: the context ends
   before a slot is free, or a slot is held from `at` on and the rate limiter,
   the request builder or the HTTP exchange replies.
   */
  datatype Answer =
    | NoSlot(at: nat, err: string)
    | Slot(at: nat, reply: Reply)

  datatype Reply =
    | Limited(err: string)
    | Unbuildable(err: string)
    | Failure(err: string, took: nat)
    | Response(status: int, took: nat)

  const BUCKET_CLOSED := "ratelimit: bucket closed"

  /** The result the environment's answer leads to; `resolve` is domainOf. */
  function CheckOne(resolve: string -> Result<string>, target: Target, answer: Answer): CheckResult {
    match answer
    case NoSlot(at, err) => CheckResult(target, 0, 0, Some(err), at)
    case Slot(at, reply) =>
      match resolve(target.url)
      case Err(e) => CheckResult(target, 0, 0, Some("monitor: parse target url: " + e), at)
      case Ok(_) =>
        match reply
        case Limited(e) => CheckResult(target, 0, 0, Some("monitor: rate limit wait: " + e), at)
        case Unbuildable(e) => CheckResult(target, 0, 0, Some("monitor: build request: " + e), at)
        case Failure(e, took) => CheckResult(target, 0, took, Some("monitor: request failed: " + e), at)
        case Response(status, took) => CheckResult(target, status, took, None, at)
  }
}
