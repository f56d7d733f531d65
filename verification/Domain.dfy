/** Task states, failure kinds, retry budgets and resource requirements: the value types
    that the scheduler's decisions are made of. */
module Domain {
  datatype Option<+T> = None | Some(value: T)

  datatype TaskState = Pending | Ready | Running | Succeeded | Failed | Skipped | Cancelled | Cached

  datatype PipelineState = PipelineSucceeded | PipelineFailed | PipelineCancelled

  /** States in which a task stays once it has entered them. */
  predicate IsTerminal(state: TaskState) {
    state.Succeeded? || state.Failed? || state.Skipped? || state.Cancelled? || state.Cached?
  }

  predicate IsSuccessLike(state: TaskState) {
    state.Succeeded? || state.Cached?
  }

  /** The documented transition table. It has no edge from READY to FAILED. */
  predicate IsValidTransition(from: TaskState, to: TaskState) {
    from != to &&
    match from
    case Pending => to.Ready? || to.Skipped? || to.Cancelled?
    case Ready => to.Running? || to.Cached? || to.Skipped? || to.Cancelled?
    case Running => to.Succeeded? || to.Failed? || to.Cancelled? || to.Ready?
    case _ => false
  }

  datatype ResultKind =
    | SucceededResult
    | FailedExit
    | Timeout
    | Crashed
    | StartFailure
    | MissingOutput
    | MissingInput
    | CancelledResult

  /** How a launched process ended, as the runner reports it. */
  datatype Outcome = Exited(code: int) | Signalled | TimedOut | ProcessCancelled | SpawnFailed

  predicate IsRetryable(kind: ResultKind) {
    kind.FailedExit? || kind.Timeout? || kind.Crashed? || kind.MissingOutput?
  }

  datatype RetryPolicy = RetryPolicy(maxRetries: int)

  /** Total number of attempts; a negative budget still allows the first one. */
  function MaxAttempts(policy: RetryPolicy): (m: int)
    ensures m >= 1
  {
    if policy.maxRetries < 0 then 1 else policy.maxRetries + 1
  }

  predicate ShouldRetry(policy: RetryPolicy, attemptsMade: int) {
    1 <= attemptsMade < MaxAttempts(policy)
  }

  datatype Resources = Resources(cpu: int, memory: int, gpu: int)

  const NO_RESOURCES := Resources(0, 0, 0)

  predicate NonNegative(r: Resources) {
    r.cpu >= 0 && r.memory >= 0 && r.gpu >= 0
  }

  predicate FitsWithin(request: Resources, capacity: Resources) {
    request.cpu <= capacity.cpu && request.memory <= capacity.memory && request.gpu <= capacity.gpu
  }

  function Plus(a: Resources, b: Resources): Resources {
    Resources(a.cpu + b.cpu, a.memory + b.memory, a.gpu + b.gpu)
  }

  datatype Task = Task(priority: int, retry: RetryPolicy, resources: Resources, cacheEnabled: bool)
}
