/**
 Whole-run delivery guarantees of the worker consumer: every finite queue drains, each job is run a
 bounded number of times and is settled for good exactly once, and the steps of a job run in order
 over all of its attempts.
 */
module WorkerDelivery {
  import opened Wrappers
  import opened WorkerService
  import opened WorkerTransport

  /** Executions a job may still need: max(1, retryMaxAttempts - attempt + 1). */
  function Weight(c: Config, job: Job): (w: nat)
    ensures w >= 1
  {
    if job.attempt >= c.retryMaxAttempts then 1 else c.retryMaxAttempts - job.attempt + 1
  }

  /** Total weight of the queued jobs of one event, or of all jobs. */
  function Load(c: Config, queue: seq<Job>, id: Option<string>): nat {
    if queue == [] then 0
    else Load(c, queue[..|queue| - 1], id) +
         var last := queue[|queue| - 1];
         if id.None? || last.eventId == id.value then Weight(c, last) else 0
  }

  function Queued(queue: seq<Job>, id: string): nat {
    if queue == [] then 0
    else Queued(queue[..|queue| - 1], id) + if queue[|queue| - 1].eventId == id then 1 else 0
  }

  predicate IsRun(call: Call, id: string) {
    call.Take? && call.job.eventId == id
  }

  /** An ack or a dead letter: the job is gone from the transport. */
  predicate IsFinal(call: Call, id: string) {
    (call.Ack? || call.DeadLetter?) && call.job.eventId == id
  }

  function Runs(calls: seq<Call>, id: string): nat {
    Count(calls, (x: Call) => IsRun(x, id))
  }

  function Finals(calls: seq<Call>, id: string): nat {
    Count(calls, (x: Call) => IsFinal(x, id))
  }

  lemma {:induction false} LoadConcat(c: Config, a: seq<Job>, b: seq<Job>, id: Option<string>)
    ensures Load(c, a + b, id) == Load(c, a, id) + Load(c, b, id)
  {
    if b == [] {
      assert a + b == a;
    } else {
      assert (a + b)[..|a + b| - 1] == a + b[..|b| - 1];
      LoadConcat(c, a, b[..|b| - 1], id);
    }
  }

  lemma {:induction false} QueuedConcat(a: seq<Job>, b: seq<Job>, id: string)
    ensures Queued(a + b, id) == Queued(a, id) + Queued(b, id)
  {
    if b == [] {
      assert a + b == a;
    } else {
      assert (a + b)[..|a + b| - 1] == a + b[..|b| - 1];
      QueuedConcat(a, b[..|b| - 1], id);
    }
  }

  lemma SingleJob(c: Config, job: Job, id: Option<string>)
    ensures Load(c, [job], id) == if id.None? || job.eventId == id.value then Weight(c, job) else 0
    ensures id.Some? ==> Queued([job], id.value) == if job.eventId == id.value then 1 else 0
  {
    assert [job][..0] == [];
    if id.Some? {
      assert Queued([job], id.value) == Queued([job][..0], id.value) + if job.eventId == id.value then 1 else 0;
    }
    assert Load(c, [job], id) == Load(c, [job][..0], id) +
                                 if id.None? || job.eventId == id.value then Weight(c, job) else 0;
  }

  /** One execution takes at least one unit off the load of its event; a retry takes exactly one. */
  lemma PopOneLoad(c: Config, w: World, id: Option<string>)
    requires w.queue != []
    ensures var w' := PopOne(c, w);
            Load(c, w'.queue, id) <=
            Load(c, w.queue, id) - if id.None? || w.queue[0].eventId == id.value then 1 else 0
  {
    var job := w.queue[0];
    var settled := Settle(c, job, Outcome(c.executors, c.plan, job, |w.runs|));
    hide Outcome, StepsRun;
    assert w.queue == [job] + w.queue[1..];
    LoadConcat(c, [job], w.queue[1..], id);
    LoadConcat(c, w.queue[1..], Redelivered(job, settled), id);
    SingleJob(c, job, id);
    SingleJob(c, job.(attempt := job.attempt + 1), id);
  }

  lemma PopOneFinals(c: Config, w: World, id: string)
    requires w.queue != []
    ensures var job := w.queue[0];
            var settled := Settle(c, job, Outcome(c.executors, c.plan, job, |w.runs|));
            Finals(PopOne(c, w).calls, id) == Finals(w.calls, id) + if IsFinal(settled, id) then 1 else 0
  {
    var job := w.queue[0];
    var report := Outcome(c.executors, c.plan, job, |w.runs|);
    var settled := Settle(c, job, report);
    hide Outcome, StepsRun, Settle;
    CountConcat(w.calls, [Take(job), PublishReport(job, report), settled], (x: Call) => IsFinal(x, id));
    CountThree(Take(job), PublishReport(job, report), settled, (x: Call) => IsFinal(x, id));
  }

  lemma PopOneQueued(c: Config, w: World, id: string)
    requires w.queue != []
    ensures var w' := PopOne(c, w);
            Queued(w'.queue, id) + Finals(w'.calls, id) == Queued(w.queue, id) + Finals(w.calls, id)
  {
    var job := w.queue[0];
    var settled := Settle(c, job, Outcome(c.executors, c.plan, job, |w.runs|));
    PopOneFinals(c, w, id);
    hide Outcome, StepsRun, Finals;
    assert w.queue == [job] + w.queue[1..];
    QueuedConcat([job], w.queue[1..], id);
    QueuedConcat(w.queue[1..], Redelivered(job, settled), id);
    SingleJob(c, job, Some(id));
    SingleJob(c, job.(attempt := job.attempt + 1), Some(id));
  }

  lemma PopOneRuns(c: Config, w: World, id: string)
    requires w.queue != []
    ensures Runs(PopOne(c, w).calls, id) == Runs(w.calls, id) + if w.queue[0].eventId == id then 1 else 0
  {
    var job := w.queue[0];
    var report := Outcome(c.executors, c.plan, job, |w.runs|);
    var settled := Settle(c, job, report);
    hide Outcome, StepsRun;
    CountConcat(w.calls, [Take(job), PublishReport(job, report), settled], (x: Call) => IsRun(x, id));
    CountThree(Take(job), PublishReport(job, report), settled, (x: Call) => IsRun(x, id));
  }

  /** Runs so far plus the load still queued never grows; jobs queued plus jobs settled never changes. */
  lemma {:induction false} PopKeepsAccounts(c: Config, w: World, n: nat, id: string)
    ensures var end := Pop(c, w, n);
            && Runs(end.calls, id) + Load(c, end.queue, Some(id)) <= Runs(w.calls, id) + Load(c, w.queue, Some(id))
            && Queued(end.queue, id) + Finals(end.calls, id) == Queued(w.queue, id) + Finals(w.calls, id)
    decreases n
  {
    if n > 0 && w.queue != [] {
      PopKeepsAccounts(c, PopOne(c, w), n - 1, id);
      PopOneLoad(c, w, Some(id));
      PopOneRuns(c, w, id);
      PopOneQueued(c, w, id);
    }
  }

  /** Whatever the executors answer, popping as many jobs as the queue's load empties it. */
  lemma {:induction false} EveryQueueDrains(c: Config, w: World, n: nat)
    requires n >= Load(c, w.queue, None)
    ensures Pop(c, w, n).queue == []
    decreases n
  {
    if w.queue != [] {
      PopOneLoad(c, w, None);
      EveryQueueDrains(c, PopOne(c, w), n - 1);
    }
  }

  /**
   A job alone with its event id, in a consumer that starts with an empty record: once the queue has
   drained it was run at least once and at most max(1, retryMaxAttempts - attempt + 1) times, and
   exactly one ack or dead letter was issued for it.
   */
  lemma EachJobIsSettledOnce(c: Config, w: World, n: nat, job: Job)
    requires w.calls == [] && n >= Load(c, w.queue, None)
    requires Queued(w.queue, job.eventId) == 1 && job in w.queue
    ensures var end := Pop(c, w, n);
            && end.queue == []
            && 1 <= Runs(end.calls, job.eventId) <= Weight(c, job)
            && Finals(end.calls, job.eventId) == 1
  {
    EveryQueueDrains(c, w, n);
    PopKeepsAccounts(c, w, n, job.eventId);
    LoadOfOne(c, w.queue, job);
    FinalsNeedRuns(c, w, n, job.eventId);
  }

  lemma {:induction false} NoneQueued(c: Config, queue: seq<Job>, id: string)
    requires Queued(queue, id) == 0
    ensures Load(c, queue, Some(id)) == 0
  {
    if queue != [] {
      NoneQueued(c, queue[..|queue| - 1], id);
    }
  }

  lemma {:induction false} NoneThere(queue: seq<Job>, id: string, i: nat)
    requires Queued(queue, id) == 0 && i < |queue|
    ensures queue[i].eventId != id
  {
    if i < |queue| - 1 {
      NoneThere(queue[..|queue| - 1], id, i);
    }
  }

  lemma {:induction false} LoadOfOne(c: Config, queue: seq<Job>, job: Job)
    requires Queued(queue, job.eventId) == 1 && job in queue
    ensures Load(c, queue, Some(job.eventId)) == Weight(c, job)
  {
    var front, last := queue[..|queue| - 1], queue[|queue| - 1];
    assert queue == front + [last];
    if last.eventId == job.eventId {
      NoneQueued(c, front, job.eventId);
      forall i | 0 <= i < |front| ensures front[i] != job {
        NoneThere(front, job.eventId, i);
      }
    } else {
      LoadOfOne(c, front, job);
    }
  }

  /** Nothing is settled that was not run. */
  lemma {:induction false} FinalsNeedRuns(c: Config, w: World, n: nat, id: string)
    requires Finals(w.calls, id) <= Runs(w.calls, id)
    ensures Finals(Pop(c, w, n).calls, id) <= Runs(Pop(c, w, n).calls, id)
    decreases n
  {
    if n > 0 && w.queue != [] {
      var job := w.queue[0];
      var report := Outcome(c.executors, c.plan, job, |w.runs|);
      var settled := Settle(c, job, report);
      PopOneRuns(c, w, id);
      CountConcat(w.calls, [Take(job), PublishReport(job, report), settled], (x: Call) => IsFinal(x, id));
      CountThree(Take(job), PublishReport(job, report), settled, (x: Call) => IsFinal(x, id));
      FinalsNeedRuns(c, PopOne(c, w), n - 1, id);
    }
  }

  // ---- how a job ends ----

  /** The three calls about one execution: the job is taken, its report published, and the job settled as that says. */
  ghost predicate SettledByReport(c: Config, take: Call, publish: Call, settle: Call) {
    && take.Take? && publish.PublishReport? && publish.job == settle.job == take.job && !settle.Take? && !settle.PublishReport?
    && (exists clock: nat :: publish.report == Outcome(c.executors, c.plan, take.job, clock))
    && match settle
       case Ack(job) => publish.report.Ok? || (job.attempt >= c.retryMaxAttempts && c.deadLetterSubject.None?)
       case Retry(job, error) => publish.report == Err(error) && job.attempt < c.retryMaxAttempts
       case DeadLetter(job, error) =>
         publish.report == Err(error) && job.attempt >= c.retryMaxAttempts && c.deadLetterSubject.Some?
       case _ => false
  }

  ghost predicate InThrees(c: Config, calls: seq<Call>) {
    && |calls| % 3 == 0
    && forall k | 0 <= 3 * k < |calls| :: SettledByReport(c, calls[3 * k], calls[3 * k + 1], calls[3 * k + 2])
  }

  lemma ThreeMore(c: Config, calls: seq<Call>, take: Call, publish: Call, settle: Call)
    requires InThrees(c, calls) && SettledByReport(c, take, publish, settle)
    ensures InThrees(c, calls + [take, publish, settle])
  {
    hide SettledByReport;
    var more := calls + [take, publish, settle];
    forall k | 0 <= 3 * k < |more| ensures SettledByReport(c, more[3 * k], more[3 * k + 1], more[3 * k + 2]) {
      if 3 * k < |calls| {
        assert more[3 * k] == calls[3 * k] && more[3 * k + 1] == calls[3 * k + 1] && more[3 * k + 2] == calls[3 * k + 2];
      }
    }
  }

  lemma SettleFollowsReport(c: Config, job: Job, clock: nat)
    ensures var report := Outcome(c.executors, c.plan, job, clock);
            SettledByReport(c, Take(job), PublishReport(job, report), Settle(c, job, report))
  {
    var report := Outcome(c.executors, c.plan, job, clock);
    hide Outcome;
    assert PublishReport(job, report).report == Outcome(c.executors, c.plan, job, clock);
  }

  /**
   In every run the transport calls come in threes: take, report, settlement. A job is acked after a successful
   report, or a failed one at the attempt limit when there is no dead-letter subject; dead-lettered after a failed one
   at the limit when there is; and retried after every failed one below the limit.
   */
  lemma {:induction false} EverySettlementFollowsItsReport(c: Config, w: World, n: nat)
    requires InThrees(c, w.calls)
    ensures InThrees(c, Pop(c, w, n).calls)
    decreases n
  {
    if n > 0 && w.queue != [] {
      var job := w.queue[0];
      hide SettledByReport, Outcome, InThrees, Settle;
      SettleFollowsReport(c, job, |w.runs|);
      var report := Outcome(c.executors, c.plan, job, |w.runs|);
      ThreeMore(c, w.calls, Take(job), PublishReport(job, report), Settle(c, job, report));
      EverySettlementFollowsItsReport(c, PopOne(c, w), n - 1);
    }
  }

  // ---- a job that keeps failing ----

  predicate IsDeadLetter(call: Call, id: string) {
    call.DeadLetter? && call.job.eventId == id
  }

  function DeadLetters(calls: seq<Call>, id: string): nat {
    Count(calls, (x: Call) => IsDeadLetter(x, id))
  }

  predicate FailsAt(c: Config, job: Job, attempt: nat, clock: nat) {
    Outcome(c.executors, c.plan, job.(attempt := attempt), clock).Err?
  }

  /** Whatever attempt and whenever it is run, the job fails. */
  ghost predicate AlwaysFails(c: Config, job: Job) {
    forall attempt: nat, clock: nat :: FailsAt(c, job, attempt, clock)
  }

  ghost predicate AllFail(c: Config, queue: seq<Job>, id: string) {
    forall job | job in queue && job.eventId == id :: AlwaysFails(c, job)
  }

  lemma FailsNow(c: Config, job: Job, clock: nat)
    requires AlwaysFails(c, job)
    ensures Outcome(c.executors, c.plan, job, clock).Err?
  {
    hide Outcome;
    assert FailsAt(c, job, job.attempt, clock);
    assert job.(attempt := job.attempt) == job;
  }

  lemma FailsNext(c: Config, job: Job)
    requires AlwaysFails(c, job)
    ensures AlwaysFails(c, job.(attempt := job.attempt + 1))
  {
    var next := job.(attempt := job.attempt + 1);
    forall attempt: nat, clock: nat ensures FailsAt(c, next, attempt, clock) {
      assert FailsAt(c, job, attempt, clock);
      assert next.(attempt := attempt) == job.(attempt := attempt);
    }
    hide Outcome;
  }

  /** A failing execution takes exactly one unit off the load. */
  lemma FailingPopLoad(c: Config, w: World, id: string)
    requires w.queue != []
    requires w.queue[0].eventId == id ==> Outcome(c.executors, c.plan, w.queue[0], |w.runs|).Err?
    ensures Load(c, PopOne(c, w).queue, Some(id)) == Load(c, w.queue, Some(id)) - if w.queue[0].eventId == id then 1 else 0
  {
    var job := w.queue[0];
    var settled := Settle(c, job, Outcome(c.executors, c.plan, job, |w.runs|));
    hide Outcome, StepsRun;
    assert w.queue == [job] + w.queue[1..];
    LoadConcat(c, [job], w.queue[1..], Some(id));
    LoadConcat(c, w.queue[1..], Redelivered(job, settled), Some(id));
    SingleJob(c, job, Some(id));
    SingleJob(c, job.(attempt := job.attempt + 1), Some(id));
  }

  /** If it is final it is a dead letter exactly when there is a subject. */
  lemma FailingPopDeadLetters(c: Config, w: World, id: string)
    requires w.queue != []
    requires w.queue[0].eventId == id ==> Outcome(c.executors, c.plan, w.queue[0], |w.runs|).Err?
    ensures DeadLetters(PopOne(c, w).calls, id) - DeadLetters(w.calls, id) ==
            if c.deadLetterSubject.Some? then Finals(PopOne(c, w).calls, id) - Finals(w.calls, id) else 0
  {
    var job := w.queue[0];
    var report := Outcome(c.executors, c.plan, job, |w.runs|);
    var settled := Settle(c, job, report);
    PopOneFinals(c, w, id);
    hide Outcome, StepsRun, Finals;
    CountConcat(w.calls, [Take(job), PublishReport(job, report), settled], (x: Call) => IsDeadLetter(x, id));
    CountThree(Take(job), PublishReport(job, report), settled, (x: Call) => IsDeadLetter(x, id));
  }

  lemma FailingPopKeeps(c: Config, w: World, id: string)
    requires w.queue != [] && AllFail(c, w.queue, id)
    ensures w.queue[0].eventId == id ==> Outcome(c.executors, c.plan, w.queue[0], |w.runs|).Err?
    ensures AllFail(c, PopOne(c, w).queue, id)
  {
    var job := w.queue[0];
    var settled := Settle(c, job, Outcome(c.executors, c.plan, job, |w.runs|));
    if job.eventId == id {
      FailsNow(c, job, |w.runs|);
      FailsNext(c, job);
    }
    hide Outcome, StepsRun, AlwaysFails, Settle;
    forall other | other in PopOne(c, w).queue && other.eventId == id ensures AlwaysFails(c, other) {
      assert other in w.queue[1..] || other in Redelivered(job, settled);
      if other in w.queue[1..] {
        assert other in w.queue;
      }
    }
  }

  /** Between two states each run of the event took one off its load, and its settlements were all of one kind. */
  ghost predicate Tally(c: Config, before: World, after: World, id: string) {
    && Runs(after.calls, id) + Load(c, after.queue, Some(id)) == Runs(before.calls, id) + Load(c, before.queue, Some(id))
    && DeadLetters(after.calls, id) - DeadLetters(before.calls, id) ==
       if c.deadLetterSubject.Some? then Finals(after.calls, id) - Finals(before.calls, id) else 0
  }

  lemma TallyTwice(c: Config, a: World, b: World, d: World, id: string)
    requires Tally(c, a, b, id) && Tally(c, b, d, id)
    ensures Tally(c, a, d, id)
  {
    hide Runs, Load, DeadLetters, Finals;
  }

  lemma FailingPopTallies(c: Config, w: World, id: string)
    requires w.queue != [] && AllFail(c, w.queue, id)
    ensures AllFail(c, PopOne(c, w).queue, id) && Tally(c, w, PopOne(c, w), id)
  {
    hide PopOne, AllFail, Runs, Load, DeadLetters, Finals, Outcome;
    FailingPopKeeps(c, w, id);
    FailingPopLoad(c, w, id);
    FailingPopDeadLetters(c, w, id);
    PopOneRuns(c, w, id);
  }

  lemma {:induction false} FailingRun(c: Config, w: World, n: nat, id: string)
    requires AllFail(c, w.queue, id)
    ensures Tally(c, w, Pop(c, w, n), id)
    decreases n
  {
    hide PopOne, AllFail, AlwaysFails;
    if n > 0 && w.queue != [] {
      hide Tally;
      FailingPopTallies(c, w, id);
      FailingRun(c, PopOne(c, w), n - 1, id);
      TallyTwice(c, w, PopOne(c, w), Pop(c, w, n), id);
    }
  }

  lemma {:induction false} OnlyJob(queue: seq<Job>, i: nat, k: nat)
    requires i < k < |queue| && queue[i].eventId == queue[k].eventId
    ensures Queued(queue, queue[i].eventId) >= 2
  {
    var n := |queue| - 1;
    if k < n {
      OnlyJob(queue[..n], i, k);
    } else if Queued(queue[..n], queue[i].eventId) == 0 {
      NoneThere(queue[..n], queue[i].eventId, i);
    }
  }

  lemma AllOfIt(c: Config, queue: seq<Job>, job: Job)
    requires Queued(queue, job.eventId) == 1 && job in queue && AlwaysFails(c, job)
    ensures AllFail(c, queue, job.eventId)
  {
    hide AlwaysFails;
    var i :| 0 <= i < |queue| && queue[i] == job;
    forall other | other in queue && other.eventId == job.eventId ensures AlwaysFails(c, other) {
      var k :| 0 <= k < |queue| && queue[k] == other;
      hide Queued;
      if i < k {
        OnlyJob(queue, i, k);
      } else if k < i {
        OnlyJob(queue, k, i);
      }
    }
  }

  /**
   A job that fails whenever it is run uses up every attempt it has, max(1, retryMaxAttempts - attempt + 1) of them,
   and ends as a dead letter exactly when there is a subject for them, else as an ack.
   */
  lemma FailingJobsUseEveryAttempt(c: Config, w: World, n: nat, job: Job)
    requires w.calls == [] && n >= Load(c, w.queue, None)
    requires Queued(w.queue, job.eventId) == 1 && job in w.queue && AlwaysFails(c, job)
    ensures var end := Pop(c, w, n);
            && end.queue == []
            && Runs(end.calls, job.eventId) == Weight(c, job)
            && Finals(end.calls, job.eventId) == 1
            && DeadLetters(end.calls, job.eventId) == if c.deadLetterSubject.Some? then 1 else 0
  {
    EachJobIsSettledOnce(c, w, n, job);
    LoadOfOne(c, w.queue, job);
    AllOfIt(c, w.queue, job);
    EveryQueueDrains(c, w, n);
    hide AlwaysFails, Pop, AllFail;
    FailingRun(c, w, n, job.eventId);
  }

  // ---- steps over all attempts ----

  /** Executor calls made for step `i` of jobs with this event id. */
  function StepCount(runs: seq<StepRun>, id: string, i: nat): nat {
    if runs == [] then 0
    else
      var last := runs[|runs| - 1];
      StepCount(runs[..|runs| - 1], id, i) + if last.eventId == id && last.stepIndex == i then 1 else 0
  }

  lemma {:induction false} StepCountConcat(a: seq<StepRun>, b: seq<StepRun>, id: string, i: nat)
    ensures StepCount(a + b, id, i) == StepCount(a, id, i) + StepCount(b, id, i)
  {
    if b == [] {
      assert a + b == a;
    } else {
      assert (a + b)[..|a + b| - 1] == a + b[..|b| - 1];
      StepCountConcat(a, b[..|b| - 1], id, i);
    }
  }

  /** An execution that made `n` executor calls ran each of the steps below `n` once. */
  lemma {:induction false} StepCountOfRun(job: Job, n: nat, id: string, i: nat)
    ensures StepCount(RunsOf(job, n), id, i) == if job.eventId == id && i < n then 1 else 0
  {
    if n > 0 {
      assert RunsOf(job, n)[..n - 1] == RunsOf(job, n - 1);
      StepCountOfRun(job, n - 1, id, i);
    }
  }

  /** Over every attempt of every job, step `i` was run at least as often as any later step. */
  lemma {:induction false} EarlierStepsRunMoreOften(c: Config, w: World, n: nat, id: string, i: nat, k: nat)
    requires i <= k && StepCount(w.runs, id, k) <= StepCount(w.runs, id, i)
    ensures StepCount(Pop(c, w, n).runs, id, k) <= StepCount(Pop(c, w, n).runs, id, i)
    decreases n
  {
    if n > 0 && w.queue != [] {
      var job := w.queue[0];
      var count := StepsRun(c.executors, c.plan, job, |w.runs|);
      StepCountConcat(w.runs, RunsOf(job, count), id, i);
      StepCountConcat(w.runs, RunsOf(job, count), id, k);
      StepCountOfRun(job, count, id, i);
      StepCountOfRun(job, count, id, k);
      EarlierStepsRunMoreOften(c, PopOne(c, w), n - 1, id, i, k);
    }
  }

  ghost predicate AllMismatched(c: Config, queue: seq<Job>, id: string) {
    forall job | job in queue && job.eventId == id :: !Subscribed(c.plan, job)
  }

  /** A job that fails the subscription checks runs no step on any of its attempts. */
  lemma {:induction false} MismatchedJobsRunNothing(c: Config, w: World, n: nat, id: string, i: nat)
    requires AllMismatched(c, w.queue, id)
    ensures StepCount(Pop(c, w, n).runs, id, i) == StepCount(w.runs, id, i)
    decreases n
  {
    if n > 0 && w.queue != [] {
      var job := w.queue[0];
      var count := StepsRun(c.executors, c.plan, job, |w.runs|);
      StepCountConcat(w.runs, RunsOf(job, count), id, i);
      StepCountOfRun(job, count, id, i);
      assert job in w.queue;
      MismatchIff(c.plan, job);
      assert AllMismatched(c, PopOne(c, w).queue, id) by {
        assert forall other | other in w.queue[1..] :: other in w.queue;
        assert Subscribed(c.plan, job.(attempt := job.attempt + 1)) == Subscribed(c.plan, job);
      }
      MismatchedJobsRunNothing(c, PopOne(c, w), n - 1, id, i);
    }
  }
}
