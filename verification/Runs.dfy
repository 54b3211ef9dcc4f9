/** Run and workflow states, and the attempt provenance a workflow record keeps per
    step. */
module Runs {
  import opened Keys
  import opened Workflows
  import opened Publications

  type RunId = nat

  datatype RunState = RunCreated | RunValidated | RunQueued | RunRunning | RunSucceeded | RunFailed | RunCancelled
  {
    predicate Terminal()
    {
      RunSucceeded? || RunFailed? || RunCancelled?
    }

    predicate CanBecome(next: RunState)
    {
      match (this, next)
      case (RunCreated, RunValidated) => true
      case (RunValidated, RunQueued) => true
      case (RunQueued, RunRunning) => true
      case (RunRunning, RunSucceeded) => true
      case (_, RunFailed) => !Terminal()
      case (_, RunCancelled) => !Terminal()
      case _ => false
    }
  }

  datatype RunTransition = RunTransition(from: RunState, to: RunState, at: nat)

  datatype Outcome = WorkflowSucceeded | WorkflowFailed | WorkflowCancelled

  /** The state of a workflow record. */
  datatype StoredState = StoredCreated | StoredRunning | StoredEnded(outcome: Outcome)
  {
    predicate CanBecome(next: StoredState)
    {
      match (this, next)
      case (StoredCreated, StoredRunning) => true
      case (StoredCreated, StoredEnded(o)) => o == WorkflowCancelled
      case (StoredRunning, StoredEnded(_)) => true
      case _ => false
    }
  }

  datatype StepAttempt = StepAttempt(
    id: AttemptId,
    number: nat,
    run: RunId,
    state: RunState,
    category: Option<FailureCategory>)

  /** `run` and `state` mirror the latest attempt. */
  datatype StepResult = StepResult(run: RunId, state: RunState, attempts: seq<StepAttempt>)

  function AttemptsOf(result: Option<StepResult>): seq<StepAttempt>
  {
    match result
    case None => []
    case Some(r) => r.attempts
  }

  function RecordAttempt(result: Option<StepResult>, attempt: StepAttempt): StepResult
  {
    StepResult(attempt.run, attempt.state, AttemptsOf(result) + [attempt])
  }

  /** The first attempt with the given run. */
  function AttemptIndex(attempts: seq<StepAttempt>, run: RunId): (i: nat)
    ensures i <= |attempts|
    ensures forall j :: 0 <= j < i ==> attempts[j].run != run
    ensures i < |attempts| ==> attempts[i].run == run
  {
    if attempts == [] then 0
    else if attempts[0].run == run then 0
    else 1 + AttemptIndex(attempts[1..], run)
  }

  /** Writes the end of a run onto its attempt. */
  function FinishAttempt(result: StepResult, run: RunId, state: RunState, category: Option<FailureCategory>): StepResult
  {
    var i := AttemptIndex(result.attempts, run);
    StepResult(run, state,
               if i < |result.attempts|
               then result.attempts[i := result.attempts[i].(state := state, category := category)]
               else result.attempts)
  }
}
