/**
 Execution of one worker job: subscription checks, then the plan's steps in order, stopping at the
 first failure. Executors are arbitrary: what a call answers may depend on the invocation and on how
 many executor calls were made before it, so the same job may fail now and succeed later.
 */
module WorkerService {
  import opened Wrappers

  datatype Step = Step(backend: string, action: string)

  datatype Plan =
    Plan(worker: string, subject: Option<string>, stream: Option<string>, consumer: Option<string>, steps: seq<Step>)

  datatype Job = Job(
    worker: string, attempt: nat, triggerSubject: string, triggerStream: Option<string>,
    triggerConsumer: Option<string>, eventId: string, payload: string)

  datatype Invocation = Invocation(plan: Plan, stepIndex: nat, job: Job)

  datatype WorkerError =
    | WrongWorker | WrongSubject | WrongStream | WrongConsumer
    | NoSuchStep(index: nat) | NoExecutor(backend: string)
    | Execution(message: string)

  datatype StepResult = StepResult(stepIndex: nat, backend: string, action: string, data: string)

  datatype Report = Report(worker: string, attempt: nat, eventId: string, success: bool, results: seq<StepResult>)

  /** `StepExecutor`: the backends it handles, and its answer to call number `clock`. */
  datatype Executor = Executor(handles: string -> bool, execute: (Invocation, nat) -> Result<string, WorkerError>)

  /** A call of an executor for step `stepIndex` of a job. */
  datatype StepRun = StepRun(eventId: string, stepIndex: nat)

  // ---- checks ----

  /** `validate_job_subscription` after the worker-name check of `execute_job`. */
  function Mismatch(plan: Plan, job: Job): Option<WorkerError> {
    if job.worker != plan.worker then Some(WrongWorker)
    else if plan.subject.Some? && job.triggerSubject != plan.subject.value then Some(WrongSubject)
    else if plan.stream.Some? && job.triggerStream != plan.stream then Some(WrongStream)
    else if plan.consumer.Some? && job.triggerConsumer != plan.consumer then Some(WrongConsumer)
    else None
  }

  /** The job is for this worker and from each part of its subscription that is set. */
  predicate Subscribed(plan: Plan, job: Job) {
    && job.worker == plan.worker
    && (plan.subject.Some? ==> plan.subject == Some(job.triggerSubject))
    && (plan.stream.Some? ==> job.triggerStream == plan.stream)
    && (plan.consumer.Some? ==> job.triggerConsumer == plan.consumer)
  }

  /** The first part of the subscription that the job does not fit, in the order of the checks. */
  predicate FirstMisfit(plan: Plan, job: Job, e: WorkerError) {
    var worker := job.worker == plan.worker;
    var subject := plan.subject.None? || plan.subject.value == job.triggerSubject;
    var stream := plan.stream.None? || job.triggerStream == plan.stream;
    var consumer := plan.consumer.None? || job.triggerConsumer == plan.consumer;
    match e
    case WrongWorker => !worker
    case WrongSubject => worker && !subject
    case WrongStream => worker && subject && !stream
    case WrongConsumer => worker && subject && stream && !consumer
    case _ => false
  }

  /** Exactly the jobs of the subscription pass, and the error names the first part that does not fit. */
  lemma MismatchIff(plan: Plan, job: Job)
    ensures Mismatch(plan, job).None? <==> Subscribed(plan, job)
    ensures forall e :: FirstMisfit(plan, job, e) <==> Mismatch(plan, job) == Some(e)
  {
  }

  // ---- executor lookup ----

  /** The first executor that handles the backend. */
  function Find(executors: seq<Executor>, backend: string): (r: Option<Executor>)
    ensures r.None? <==> forall i | 0 <= i < |executors| :: !executors[i].handles(backend)
    ensures r.Some? ==> exists i :: 0 <= i < |executors| && executors[i] == r.value && executors[i].handles(backend)
                                    && forall j | 0 <= j < i :: !executors[j].handles(backend)
  {
    if executors == [] then None
    else if executors[0].handles(backend) then Some(executors[0])
    else Find(executors[1..], backend)
  }

  /** `execute_step`, and whether it got as far as calling an executor. */
  function ExecuteStep(executors: seq<Executor>, invocation: Invocation, clock: nat): (Result<string, WorkerError>, bool) {
    if invocation.stepIndex >= |invocation.plan.steps| then (Err(NoSuchStep(invocation.stepIndex)), false)
    else
      var backend := invocation.plan.steps[invocation.stepIndex].backend;
      match Find(executors, backend)
      case None => (Err(NoExecutor(backend)), false)
      case Some(executor) => (executor.execute(invocation, clock), true)
  }

  // ---- the reference: which steps a job runs ----

  /** Step `i` succeeds when it is the first `i` steps' turn to have been called before it. */
  predicate StepSucceeds(executors: seq<Executor>, plan: Plan, job: Job, clock: nat, i: nat) {
    ExecuteStep(executors, Invocation(plan, i, job), clock + i).0.Ok?
  }

  /** The first step that fails, or the number of steps. */
  function FirstFailure(executors: seq<Executor>, plan: Plan, job: Job, clock: nat, from: nat): (f: nat)
    requires from <= |plan.steps|
    ensures from <= f <= |plan.steps|
    ensures forall i | from <= i < f :: StepSucceeds(executors, plan, job, clock, i)
    ensures f < |plan.steps| ==> !StepSucceeds(executors, plan, job, clock, f)
    decreases |plan.steps| - from
  {
    if from < |plan.steps| && StepSucceeds(executors, plan, job, clock, from)
    then FirstFailure(executors, plan, job, clock, from + 1)
    else from
  }

  /** How many executor calls the job makes: the steps before the first failure, and that one if it has an executor. */
  function StepsRun(executors: seq<Executor>, plan: Plan, job: Job, clock: nat): (n: nat)
    ensures n <= |plan.steps|
  {
    if Mismatch(plan, job).Some? then 0
    else
      var f := FirstFailure(executors, plan, job, clock, 0);
      if f < |plan.steps| && ExecuteStep(executors, Invocation(plan, f, job), clock + f).1 then f + 1 else f
  }

  function RunsOf(job: Job, n: nat): (runs: seq<StepRun>)
    ensures |runs| == n
  {
    seq(n, i requires 0 <= i < n => StepRun(job.eventId, i))
  }

  function StepData(executors: seq<Executor>, plan: Plan, job: Job, clock: nat, i: nat): StepResult
    requires i < |plan.steps| && StepSucceeds(executors, plan, job, clock, i)
  {
    StepResult(i, plan.steps[i].backend, plan.steps[i].action,
               ExecuteStep(executors, Invocation(plan, i, job), clock + i).0.value)
  }

  /** The report of a job all of whose steps succeed, or the error of its first failure. */
  function Outcome(executors: seq<Executor>, plan: Plan, job: Job, clock: nat): Result<Report, WorkerError> {
    if Mismatch(plan, job).Some? then Err(Mismatch(plan, job).value)
    else
      var f := FirstFailure(executors, plan, job, clock, 0);
      if f < |plan.steps| then Err(ExecuteStep(executors, Invocation(plan, f, job), clock + f).0.error)
      else
        Ok(Report(plan.worker, job.attempt, job.eventId, true,
                  seq(|plan.steps|, i requires 0 <= i < |plan.steps| => StepData(executors, plan, job, clock, i))))
  }

  /**
   A successful attempt ran every step once, in order, and result `i` describes step `i` with the
   answer of the first executor that handles its backend.
   */
  lemma SuccessDescribesEveryStep(executors: seq<Executor>, plan: Plan, job: Job, clock: nat)
    requires Outcome(executors, plan, job, clock).Ok?
    ensures StepsRun(executors, plan, job, clock) == |plan.steps|
    ensures var report := Outcome(executors, plan, job, clock).value;
            && report.eventId == job.eventId && report.attempt == job.attempt && report.success
            && report.worker == plan.worker
            && |report.results| == |plan.steps|
            && forall i | 0 <= i < |plan.steps| ::
                 var executor := Find(executors, plan.steps[i].backend);
                 && executor.Some?
                 && executor.value.execute(Invocation(plan, i, job), clock + i) == Ok(report.results[i].data)
                 && report.results[i] ==
                    StepResult(i, plan.steps[i].backend, plan.steps[i].action, report.results[i].data)
  {
    var report := Outcome(executors, plan, job, clock).value;
    forall i | 0 <= i < |plan.steps|
      ensures var executor := Find(executors, plan.steps[i].backend);
              && executor.Some?
              && executor.value.execute(Invocation(plan, i, job), clock + i) == Ok(report.results[i].data)
    {
      assert StepSucceeds(executors, plan, job, clock, i);
    }
  }

  /** A failed attempt past the checks has one failing step: all before it succeeded, none after it ran. */
  lemma FailureStopsAtOneStep(executors: seq<Executor>, plan: Plan, job: Job, clock: nat) returns (f: nat)
    requires Outcome(executors, plan, job, clock).Err? && Mismatch(plan, job).None?
    ensures f < |plan.steps|
    ensures forall i | 0 <= i < f :: StepSucceeds(executors, plan, job, clock, i)
    ensures ExecuteStep(executors, Invocation(plan, f, job), clock + f).0 ==
            Err(Outcome(executors, plan, job, clock).error)
    ensures var backend, error := plan.steps[f].backend, Outcome(executors, plan, job, clock).error;
            match Find(executors, backend)
            case None => error == NoExecutor(backend)
            case Some(executor) => executor.execute(Invocation(plan, f, job), clock + f) == Err(error)
    ensures f <= StepsRun(executors, plan, job, clock) <= f + 1
  {
    f := FirstFailure(executors, plan, job, clock, 0);
    assert !StepSucceeds(executors, plan, job, clock, f);
  }

  class WorkerRuntimeService {
    const plan: Plan
    const executors: seq<Executor>
    /** Every executor call so far, oldest first. */
    var runs: seq<StepRun>

    constructor (plan: Plan, executors: seq<Executor>)
      ensures this.plan == plan && this.executors == executors && runs == []
    {
      this.plan, this.executors, this.runs := plan, executors, [];
    }

    /**
     `execute_job`: on success result `i` describes step `i`; on failure the steps before the failing
     one ran and no later one did.
     */
    method ExecuteJob(job: Job) returns (r: Result<Report, WorkerError>)
      modifies this`runs
      ensures r == Outcome(executors, plan, job, |old(runs)|)
      ensures runs == old(runs) + RunsOf(job, StepsRun(executors, plan, job, |old(runs)|))
      ensures !Subscribed(plan, job) ==> r.Err? && FirstMisfit(plan, job, r.error) && runs == old(runs)
    {
      MismatchIff(plan, job);
      hide FirstMisfit, Subscribed;
      var mismatch := Mismatch(plan, job);
      if mismatch.Some? {
        assert runs == old(runs) + RunsOf(job, 0);
        return Err(mismatch.value);
      }
      ghost var clock := |runs|;
      ghost var f := FirstFailure(executors, plan, job, clock, 0);
      var results := [];
      var stepIndex := 0;
      assert runs == old(runs) + RunsOf(job, 0);
      while stepIndex < |plan.steps|
        invariant stepIndex <= f
        invariant runs == old(runs) + RunsOf(job, stepIndex)
        invariant |results| == stepIndex
        invariant forall i | 0 <= i < stepIndex :: results[i] == StepData(executors, plan, job, clock, i)
      {
        var (answer, called) := ExecuteStep(executors, Invocation(plan, stepIndex, job), |runs|);
        if called {
          runs := runs + [StepRun(job.eventId, stepIndex)];
          assert runs == old(runs) + RunsOf(job, stepIndex + 1);
        }
        if answer.Err? {
          assert !StepSucceeds(executors, plan, job, clock, stepIndex);
          return Err(answer.error);
        }
        assert StepSucceeds(executors, plan, job, clock, stepIndex);
        results := results +
          [StepResult(stepIndex, plan.steps[stepIndex].backend, plan.steps[stepIndex].action, answer.value)];
        stepIndex := stepIndex + 1;
      }
      assert results == seq(|plan.steps|, i requires 0 <= i < |plan.steps| =>
                              StepData(executors, plan, job, clock, i));
      return Ok(Report(plan.worker, job.attempt, job.eventId, true, results));
    }
  }
}
