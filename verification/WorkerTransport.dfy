/**
 The worker consumer: batches of pop, execute, report and ack / retry / dead-letter over a job queue.
 The transport is a first-in first-out queue that redelivers a retried job at its tail with
 `attempt + 1`; every call that concerns a job is recorded in order, and pulls that find the queue
 empty are counted: they can only come after all the others.
 */
module WorkerTransport {
  import opened Wrappers
  import opened WorkerService

  datatype Call =
    | Take(job: Job)
    | PublishReport(job: Job, report: Result<Report, WorkerError>)
    | Ack(job: Job)
    | Retry(job: Job, error: WorkerError)
    | DeadLetter(job: Job, error: WorkerError)

  datatype Tick = Tick(
    processed: nat, succeeded: nat, failed: nat, acked: nat, retried: nat, deadLettered: nat, idle: bool)

  datatype Config = Config(
    plan: Plan, executors: seq<Executor>, maxBatch: nat, retryMaxAttempts: nat, deadLetterSubject: Option<string>)

  /** Queue, recorded transport calls, recorded executor calls. */
  datatype World = World(queue: seq<Job>, calls: seq<Call>, runs: seq<StepRun>)

  function Batch(c: Config): (b: nat)
    ensures b >= 1
  {
    if c.maxBatch < 1 then 1 else c.maxBatch
  }

  /** The jobs `cycles` full batches hold. */
  function Budget(c: Config, cycles: nat): nat {
    cycles * Batch(c)
  }

  // ---- popping jobs one at a time: the reference ----

  /** How a finished execution is settled with the transport. */
  function Settle(c: Config, job: Job, report: Result<Report, WorkerError>): Call {
    match report
    case Ok(_) => Ack(job)
    case Err(error) =>
      if job.attempt < c.retryMaxAttempts then Retry(job, error)
      else if c.deadLetterSubject.Some? then DeadLetter(job, error)
      else Ack(job)
  }

  /** What a settlement puts back on the queue: the job with the next attempt number, or nothing. */
  function Redelivered(job: Job, settled: Call): seq<Job> {
    if settled.Retry? then [job.(attempt := job.attempt + 1)] else []
  }

  function PopOne(c: Config, w: World): World
    requires w.queue != []
  {
    var job := w.queue[0];
    var report := Outcome(c.executors, c.plan, job, |w.runs|);
    var settled := Settle(c, job, report);
    World(
      w.queue[1..] + Redelivered(job, settled),
      w.calls + [Take(job), PublishReport(job, report), settled],
      w.runs + RunsOf(job, StepsRun(c.executors, c.plan, job, |w.runs|)))
  }

  /** Pop jobs singly, at most `n` of them, until the queue is empty. */
  function Pop(c: Config, w: World, n: nat): World
    decreases n
  {
    if n == 0 || w.queue == [] then w else Pop(c, PopOne(c, w), n - 1)
  }

  lemma {:induction false} PopTwice(c: Config, w: World, m: nat, n: nat)
    ensures Pop(c, Pop(c, w, m), n) == Pop(c, w, m + n)
    decreases m
  {
    hide PopOne;
    if m > 0 && w.queue != [] {
      PopTwice(c, PopOne(c, w), m - 1, n);
    }
  }

  lemma {:induction false} PopExtendsCalls(c: Config, w: World, n: nat)
    ensures |w.calls| <= |Pop(c, w, n).calls| && Pop(c, w, n).calls[..|w.calls|] == w.calls
    ensures |w.runs| <= |Pop(c, w, n).runs| && Pop(c, w, n).runs[..|w.runs|] == w.runs
    decreases n
  {
    if n > 0 && w.queue != [] {
      PopExtendsCalls(c, PopOne(c, w), n - 1);
      assert PopOne(c, w).calls[..|w.calls|] == w.calls;
      assert PopOne(c, w).runs[..|w.runs|] == w.runs;
    }
  }

  /** The calls made since `calls`. */
  function Since(w: World, calls: seq<Call>): seq<Call>
    requires |calls| <= |w.calls|
  {
    w.calls[|calls|..]
  }

  // ---- counting calls ----

  function Count(calls: seq<Call>, p: Call -> bool): nat {
    if calls == [] then 0
    else Count(calls[..|calls| - 1], p) + if p(calls[|calls| - 1]) then 1 else 0
  }

  lemma {:induction false} CountConcat(a: seq<Call>, b: seq<Call>, p: Call -> bool)
    ensures Count(a + b, p) == Count(a, p) + Count(b, p)
  {
    if b == [] {
      assert a + b == a;
    } else {
      assert (a + b)[..|a + b| - 1] == a + b[..|b| - 1];
      CountConcat(a, b[..|b| - 1], p);
    }
  }

  lemma CountThree(a: Call, b: Call, c: Call, p: Call -> bool)
    ensures Count([a, b, c], p) ==
            (if p(a) then 1 else 0) + (if p(b) then 1 else 0) + (if p(c) then 1 else 0)
  {
    assert [a, b, c][..2] == [a, b] && [a, b][..1] == [a] && [a][..0] == [];
    assert Count([a], p) == if p(a) then 1 else 0;
    assert Count([a, b], p) == Count([a], p) + if p(b) then 1 else 0;
  }

  /** The tick a list of calls adds up to. */
  function Totals(calls: seq<Call>, idle: bool): Tick {
    Tick(Count(calls, (x: Call) => x.Take?),
         Count(calls, (x: Call) => x.PublishReport? && x.report.Ok?),
         Count(calls, (x: Call) => x.PublishReport? && x.report.Err?),
         Count(calls, (x: Call) => x.Ack?), Count(calls, (x: Call) => x.Retry?), Count(calls, (x: Call) => x.DeadLetter?),
         idle)
  }

  function Plus(a: Tick, b: Tick, idle: bool): Tick {
    Tick(a.processed + b.processed, a.succeeded + b.succeeded, a.failed + b.failed,
         a.acked + b.acked, a.retried + b.retried, a.deadLettered + b.deadLettered, idle)
  }

  lemma TotalsConcat(a: seq<Call>, b: seq<Call>, idle: bool)
    ensures Totals(a + b, idle) == Plus(Totals(a, idle), Totals(b, idle), idle)
  {
    CountConcat(a, b, (x: Call) => x.Take?);
    CountConcat(a, b, (x: Call) => x.PublishReport? && x.report.Ok?);
    CountConcat(a, b, (x: Call) => x.PublishReport? && x.report.Err?);
    CountConcat(a, b, (x: Call) => x.Ack?);
    CountConcat(a, b, (x: Call) => x.Retry?);
    CountConcat(a, b, (x: Call) => x.DeadLetter?);
  }

  lemma TotalsOne(job: Job, report: Result<Report, WorkerError>, settled: Call, idle: bool)
    requires settled.Ack? || settled.Retry? || settled.DeadLetter?
    ensures Totals([Take(job), PublishReport(job, report), settled], idle) ==
            Tick(1, if report.Ok? then 1 else 0, if report.Err? then 1 else 0,
                 if settled.Ack? then 1 else 0, if settled.Retry? then 1 else 0, if settled.DeadLetter? then 1 else 0, idle)
  {
    var a, b := Take(job), PublishReport(job, report);
    CountThree(a, b, settled, (x: Call) => x.Take?);
    CountThree(a, b, settled, (x: Call) => x.PublishReport? && x.report.Ok?);
    CountThree(a, b, settled, (x: Call) => x.PublishReport? && x.report.Err?);
    CountThree(a, b, settled, (x: Call) => x.Ack?);
    CountThree(a, b, settled, (x: Call) => x.Retry?);
    CountThree(a, b, settled, (x: Call) => x.DeadLetter?);
  }

  predicate Balanced(t: Tick) {
    t.processed == t.succeeded + t.failed == t.acked + t.retried + t.deadLettered
  }

  function NewTotals(c: Config, w: World, n: nat): Tick
    requires |w.calls| <= |Pop(c, w, n).calls|
  {
    Totals(Since(Pop(c, w, n), w.calls), false)
  }

  lemma NewTotalsCons(c: Config, w: World, n: nat)
    requires n > 0 && w.queue != []
    ensures |w.calls| <= |Pop(c, w, n).calls|
    ensures |PopOne(c, w).calls| <= |Pop(c, PopOne(c, w), n - 1).calls|
    ensures var job := w.queue[0];
            var report := Outcome(c.executors, c.plan, job, |w.runs|);
            NewTotals(c, w, n) ==
            Plus(Contribution(report, Settle(c, job, report)), NewTotals(c, PopOne(c, w), n - 1), false)
  {
    hide Totals, Plus, Outcome, StepsRun;
    var w1, end := PopOne(c, w), Pop(c, w, n);
    var job := w.queue[0];
    var report := Outcome(c.executors, c.plan, job, |w.runs|);
    PopExtendsCalls(c, w, n);
    PopExtendsCalls(c, w1, n - 1);
    var one := [Take(job), PublishReport(job, report), Settle(c, job, report)];
    assert w1.calls == w.calls + one;
    assert Since(end, w.calls) == one + Since(end, w1.calls);
    TotalsConcat(one, Since(end, w1.calls), false);
    TotalsOne(job, report, Settle(c, job, report), false);
  }

  /** Every popped job is reported once and settled once, so the totals of any stretch of popping balance. */
  lemma {:induction false} TotalsBalance(c: Config, w: World, n: nat)
    ensures |w.calls| <= |Pop(c, w, n).calls|
    ensures Balanced(NewTotals(c, w, n))
    ensures NewTotals(c, w, n).processed <= n
    ensures Pop(c, w, n).queue != [] ==> NewTotals(c, w, n).processed == n
    ensures NewTotals(c, w, n).processed == 0 <==> n == 0 || w.queue == []
    decreases n
  {
    PopExtendsCalls(c, w, n);
    if n == 0 || w.queue == [] {
      NothingSince(w);
    } else {
      NewTotalsCons(c, w, n);
      hide NewTotals;
      TotalsBalance(c, PopOne(c, w), n - 1);
    }
  }

  // ---- the objects ----

  /** `WorkerRuntimeTransport` as a queue. */
  class QueueTransport {
    var queue: seq<Job>
    var calls: seq<Call>
    var emptyPulls: nat

    constructor (queue: seq<Job>)
      ensures this.queue == queue && calls == [] && emptyPulls == 0
    {
      this.queue, this.calls, this.emptyPulls := queue, [], 0;
    }

    method NextJob() returns (job: Option<Job>)
      modifies this
      ensures old(queue) == [] ==> job == None && queue == old(queue) && calls == old(calls)
                                   && emptyPulls == old(emptyPulls) + 1
      ensures old(queue) != [] ==> job == Some(old(queue)[0]) && queue == old(queue)[1..]
                                   && calls == old(calls) + [Take(old(queue)[0])] && emptyPulls == old(emptyPulls)
    {
      if queue == [] {
        emptyPulls := emptyPulls + 1;
        return None;
      }
      job := Some(queue[0]);
      calls := calls + [Take(queue[0])];
      queue := queue[1..];
    }

    method Publish(job: Job, report: Result<Report, WorkerError>)
      modifies this`calls
      ensures calls == old(calls) + [PublishReport(job, report)]
    {
      calls := calls + [PublishReport(job, report)];
    }

    method Acknowledge(job: Job)
      modifies this`calls
      ensures calls == old(calls) + [Ack(job)]
    {
      calls := calls + [Ack(job)];
    }

    method Redeliver(job: Job, error: WorkerError)
      modifies this`calls, this`queue
      ensures calls == old(calls) + [Retry(job, error)]
      ensures queue == old(queue) + [job.(attempt := job.attempt + 1)]
    {
      calls := calls + [Retry(job, error)];
      queue := queue + [job.(attempt := job.attempt + 1)];
    }

    method Bury(job: Job, error: WorkerError)
      modifies this`calls
      ensures calls == old(calls) + [DeadLetter(job, error)]
    {
      calls := calls + [DeadLetter(job, error)];
    }
  }

  class WorkerTransportConsumer {
    const service: WorkerRuntimeService
    const maxBatch: nat
    const retryMaxAttempts: nat
    const deadLetterSubject: Option<string>

    constructor (service: WorkerRuntimeService, maxBatch: nat, retryMaxAttempts: nat, deadLetterSubject: Option<string>)
      ensures this.service == service && this.maxBatch == maxBatch
      ensures this.retryMaxAttempts == retryMaxAttempts && this.deadLetterSubject == deadLetterSubject
    {
      this.service, this.maxBatch := service, maxBatch;
      this.retryMaxAttempts, this.deadLetterSubject := retryMaxAttempts, deadLetterSubject;
    }

    function Settings(): Config {
      Config(service.plan, service.executors, maxBatch, retryMaxAttempts, deadLetterSubject)
    }

    function State(transport: QueueTransport): World
      reads transport, service
    {
      World(transport.queue, transport.calls, service.runs)
    }

    /** The match of `run_tick` on a finished execution: report it, settle it, count it. */
    method Finish(transport: QueueTransport, job: Job, report: Result<Report, WorkerError>, tick: Tick)
      returns (counted: Tick)
      modifies transport`calls, transport`queue
      ensures var settled := Settle(Settings(), job, report);
              && transport.calls == old(transport.calls) + [PublishReport(job, report), settled]
              && transport.queue == old(transport.queue) + Redelivered(job, settled)
              && counted == Plus(tick, Contribution(report, settled), false).(processed := tick.processed)
    {
      counted := tick.(idle := false);
      transport.Publish(job, report);
      match report {
        case Ok(_) =>
          counted := counted.(succeeded := counted.succeeded + 1);
          transport.Acknowledge(job);
          counted := counted.(acked := counted.acked + 1);
        case Err(error) =>
          counted := counted.(failed := counted.failed + 1);
          if job.attempt >= retryMaxAttempts {
            if deadLetterSubject.Some? {
              transport.Bury(job, error);
              counted := counted.(deadLettered := counted.deadLettered + 1);
            } else {
              transport.Acknowledge(job);
              counted := counted.(acked := counted.acked + 1);
            }
          } else {
            transport.Redeliver(job, error);
            counted := counted.(retried := counted.retried + 1);
          }
      }
    }

    /**
     `run_tick`: leaves queue, calls and executor calls as popping singly up to a batch does, and
     counts exactly the calls it made. One more pull finds the queue empty unless the batch got full.
     */
    method RunTick(transport: QueueTransport) returns (tick: Tick)
      modifies transport, service`runs
      ensures TickDone(Settings(), old(State(transport)), State(transport), tick)
      ensures tick.processed <= Batch(Settings()) && (tick.processed < Batch(Settings()) ==> transport.queue == [])
      ensures transport.emptyPulls == old(transport.emptyPulls) + if tick.processed < Batch(Settings()) then 1 else 0
      ensures tick.idle <==> tick.processed == 0
      ensures maxBatch == 0 && old(transport.queue) != [] ==> tick.processed == 1
    {
      hide Ticking, TickDone, Outcome, StepsRun, Settle;
      ghost var c, w := Settings(), State(transport);
      tick := Tick(0, 0, 0, 0, 0, 0, false);
      TickingStart(c, w);
      while tick.processed < Batch(Settings())
        invariant tick.processed <= Batch(c) && transport.emptyPulls == old(transport.emptyPulls)
        invariant Ticking(c, w, State(transport), tick)
        invariant tick.processed > 0 || transport.queue == old(transport.queue)
        decreases Batch(c) - tick.processed
      {
        ghost var before, counted := State(transport), tick;
        var next := transport.NextJob();
        if next.None? {
          break;
        }
        var job := next.value;
        tick := tick.(processed := tick.processed + 1);
        var report := service.ExecuteJob(job);
        tick := Finish(transport, job, report, tick);
        PopOneCalls(before, c, job, report, State(transport));
        TickingStep(c, w, before, counted);
      }
      TickingEnd(c, w, State(transport), tick);
      tick := tick.(idle := tick.processed == 0);
    }

    /**
     `run_cycles`: the same calls in the same order as popping singly up to `cycles` batches; idle
     exactly when the queue was empty before the last cycle. Pulls find the queue empty twice at most:
     once when the last batch did not get full and once in the idle cycle.
     */
    method RunCycles(transport: QueueTransport, cycles: nat) returns (total: Tick)
      modifies transport, service`runs
      ensures State(transport) == Pop(Settings(), old(State(transport)), Budget(Settings(), cycles))
      ensures |old(transport.calls)| <= |transport.calls|
      ensures total == Totals(Since(State(transport), old(transport.calls)), total.idle)
      ensures Balanced(total)
      ensures total.idle <==>
              cycles > 0 && Pop(Settings(), old(State(transport)), Budget(Settings(), cycles - 1)).queue == []
      ensures transport.emptyPulls == old(transport.emptyPulls) + (if total.idle then 1 else 0)
                                      + if FullBatches(Settings(), total.processed) then 0 else 1
    {
      hide TickDone, Cycling, Batch, Pop, Totals, Budget, Filling, FullBatches;
      ghost var c, w := Settings(), State(transport);
      FillingStart(c, transport.queue == []);
      total := Tick(0, 0, 0, 0, 0, 0, false);
      CyclingStart(c, w);
      var cycle := 0;
      while cycle < cycles
        invariant cycle <= cycles
        invariant Cycling(c, w, State(transport), cycle, total)
        invariant !total.idle && Filling(c, total.processed, cycle, transport.queue == [])
        invariant transport.emptyPulls == old(transport.emptyPulls) + if total.processed == Budget(c, cycle) then 0 else 1
      {
        ghost var before, counted := State(transport), total;
        var tick := RunTick(transport);
        total := Plus(total, tick, tick.idle);
        CyclingStep(c, w, before, State(transport), cycle, counted, tick);
        FillingStep(c, counted.processed, cycle, before.queue == [], tick.processed, transport.queue == []);
        FillingEnds(c, counted.processed, cycle, before.queue == []);
        if tick.idle {
          CyclingIdle(c, w, before, State(transport), cycle, counted, tick, cycles);
          return;
        }
        cycle := cycle + 1;
      }
      FillingEnds(c, total.processed, cycle, transport.queue == []);
      CyclingEnd(c, w, State(transport), cycles, total);
    }
  }

  /** The tick counts what was popped so far. */
  ghost predicate Ticking(c: Config, w: World, now: World, tick: Tick) {
    && now == Pop(c, w, tick.processed)
    && |w.calls| <= |now.calls|
    && tick == Totals(Since(now, w.calls), false)
  }

  /** A finished tick popped a batch, counted its calls, and is idle when the queue was empty. */
  ghost predicate TickDone(c: Config, w: World, now: World, tick: Tick) {
    && now == Pop(c, w, Batch(c))
    && |w.calls| <= |now.calls|
    && tick == Totals(Since(now, w.calls), w.queue == [])
  }

  lemma TickingStart(c: Config, w: World)
    ensures Ticking(c, w, w, Tick(0, 0, 0, 0, 0, 0, false))
  {
    NothingSince(w);
  }

  lemma TickingStep(c: Config, w: World, before: World, tick: Tick)
    requires Ticking(c, w, before, tick) && before.queue != []
    ensures var job := before.queue[0];
            var report := Outcome(c.executors, c.plan, job, |before.runs|);
            Ticking(c, w, PopOne(c, before), Plus(tick, Contribution(report, Settle(c, job, report)), false))
  {
    hide Outcome, Totals, Settle, Pop, PopOne;
    OneMoreTick(c, w, before, tick);
  }

  lemma TickingEnd(c: Config, w: World, now: World, tick: Tick)
    requires Ticking(c, w, now, tick) && tick.processed <= Batch(c)
    requires tick.processed == Batch(c) || now.queue == []
    ensures TickDone(c, w, now, tick.(idle := tick.processed == 0))
  {
    hide Totals, Pop, Budget;
    if now.queue == [] {
      StuckWhenEmpty(c, w, tick.processed, Batch(c));
    }
    TotalsBalance(c, w, Batch(c));
    IdleFlag(Since(now, w.calls), w.queue == []);
  }

  /** After `cycle` busy cycles that many batches were popped and counted. */
  ghost predicate Cycling(c: Config, w: World, now: World, cycle: nat, total: Tick) {
    && now == Pop(c, w, Budget(c, cycle))
    && |w.calls| <= |now.calls|
    && total == Totals(Since(now, w.calls), false)
    && (cycle > 0 ==> Pop(c, w, Budget(c, cycle - 1)).queue != [])
  }

  /** Some number of whole batches. */
  ghost predicate FullBatches(c: Config, processed: nat) {
    exists k: nat :: processed == Budget(c, k)
  }

  /** After that many busy cycles all batches were full, or all but the last, which emptied the queue. */
  ghost predicate Filling(c: Config, processed: nat, cycle: nat, empty: bool) {
    || processed == Budget(c, cycle)
    || (cycle > 0 && Budget(c, cycle - 1) < processed < Budget(c, cycle) && empty)
  }

  lemma FillingStart(c: Config, empty: bool)
    ensures Filling(c, 0, 0, empty) && Budget(c, 0) == 0
  {
  }

  lemma FillingStep(c: Config, processed: nat, cycle: nat, empty: bool, more: nat, empty': bool)
    requires Filling(c, processed, cycle, empty) && more <= Batch(c) && (more < Batch(c) ==> empty')
    requires more == 0 <==> empty
    ensures more > 0 ==> Filling(c, processed + more, cycle + 1, empty')
    ensures more > 0 ==> (processed + more == Budget(c, cycle + 1) <==> more == Batch(c)) && processed == Budget(c, cycle)
    ensures Batch(c) > 0
  {
    NextBudget(c, cycle);
  }

  lemma FillingEnds(c: Config, processed: nat, cycle: nat, empty: bool)
    requires Filling(c, processed, cycle, empty)
    ensures FullBatches(c, processed) <==> processed == Budget(c, cycle)
  {
    hide Budget;
    if k: nat :| processed == Budget(c, k) {
      if k < cycle {
        BudgetGrows(c, k, cycle - 1);
      } else {
        BudgetGrows(c, cycle, k);
      }
    }
  }

  lemma CyclingStart(c: Config, w: World)
    ensures Cycling(c, w, w, 0, Tick(0, 0, 0, 0, 0, 0, false))
  {
    NothingSince(w);
  }

  lemma CyclingStep(c: Config, w: World, before: World, now: World, cycle: nat, total: Tick, tick: Tick)
    requires Cycling(c, w, before, cycle, total) && TickDone(c, before, now, tick)
    ensures tick.idle <==> before.queue == []
    ensures now == Pop(c, w, Budget(c, cycle + 1)) && |w.calls| <= |now.calls|
    ensures Plus(total, tick, tick.idle) == Totals(Since(now, w.calls), tick.idle)
    ensures !tick.idle ==> Cycling(c, w, now, cycle + 1, Plus(total, tick, tick.idle))
  {
    hide Totals, Pop, Budget;
    NextBudget(c, cycle);
    PopTwice(c, w, Budget(c, cycle), Batch(c));
    PopExtendsCalls(c, before, Batch(c));
    IdleFlag(Since(now, before.calls), before.queue == []);
    SinceTwice(w, before, now, tick.idle);
  }

  lemma CyclingIdle(c: Config, w: World, before: World, now: World, cycle: nat, total: Tick, tick: Tick, cycles: nat)
    requires Cycling(c, w, before, cycle, total) && TickDone(c, before, now, tick) && tick.idle && cycle < cycles
    ensures now == Pop(c, w, Budget(c, cycles)) && |w.calls| <= |now.calls|
    ensures Balanced(Plus(total, tick, true))
    ensures Pop(c, w, Budget(c, cycles - 1)).queue == []
  {
    hide Totals, Pop, Budget;
    CyclingStep(c, w, before, now, cycle, total, tick);
    IdleIsFinal(c, w, cycle, cycles);
    NextBudget(c, cycle);
    TotalsBalance(c, w, Budget(c, cycles));
    IdleFlag(Since(now, w.calls), true);
  }

  lemma CyclingEnd(c: Config, w: World, now: World, cycles: nat, total: Tick)
    requires Cycling(c, w, now, cycles, total)
    ensures now == Pop(c, w, Budget(c, cycles)) && |w.calls| <= |now.calls|
    ensures total == Totals(Since(now, w.calls), total.idle) && Balanced(total)
    ensures !total.idle && (cycles > 0 ==> Pop(c, w, Budget(c, cycles - 1)).queue != [])
  {
    TotalsBalance(c, w, Budget(c, cycles));
    IdleFlag(Since(now, w.calls), false);
  }

  /** What one finished execution adds to a tick. */
  function Contribution(report: Result<Report, WorkerError>, settled: Call): Tick {
    Tick(1, if report.Ok? then 1 else 0, if report.Err? then 1 else 0,
         if settled.Ack? then 1 else 0, if settled.Retry? then 1 else 0, if settled.DeadLetter? then 1 else 0, false)
  }

  lemma NothingSince(w: World)
    ensures Totals(Since(w, w.calls), false) == Tick(0, 0, 0, 0, 0, 0, false)
  {
    assert Since(w, w.calls) == [];
  }

  lemma IdleFlag(calls: seq<Call>, idle: bool)
    ensures Totals(calls, idle) == Totals(calls, false).(idle := idle)
    ensures Totals(calls, idle).idle == idle
  {
  }

  lemma PopOneCalls(before: World, c: Config, job: Job, report: Result<Report, WorkerError>, after: World)
    requires before.queue != [] && job == before.queue[0]
    requires report == Outcome(c.executors, c.plan, job, |before.runs|)
    requires var settled := Settle(c, job, report);
             && after.calls == before.calls + [Take(job)] + [PublishReport(job, report), settled]
             && after.queue == before.queue[1..] + Redelivered(job, settled)
             && after.runs == before.runs + RunsOf(job, StepsRun(c.executors, c.plan, job, |before.runs|))
    ensures after == PopOne(c, before)
  {
    assert [Take(job)] + [PublishReport(job, report), Settle(c, job, report)] ==
           [Take(job), PublishReport(job, report), Settle(c, job, report)];
  }

  lemma OneMoreTick(c: Config, w: World, before: World, tick: Tick)
    requires before == Pop(c, w, tick.processed) && before.queue != []
    requires |w.calls| <= |before.calls| && tick == Totals(Since(before, w.calls), false)
    ensures PopOne(c, before) == Pop(c, w, tick.processed + 1)
    ensures |w.calls| <= |PopOne(c, before).calls|
    ensures var job := before.queue[0];
            var report := Outcome(c.executors, c.plan, job, |before.runs|);
            Totals(Since(PopOne(c, before), w.calls), false) ==
            Plus(tick, Contribution(report, Settle(c, job, report)), false)
  {
    PopTwice(c, w, tick.processed, 1);
    assert Pop(c, before, 1) == PopOne(c, before);
    var job := before.queue[0];
    var report := Outcome(c.executors, c.plan, job, |before.runs|);
    var one := [Take(job), PublishReport(job, report), Settle(c, job, report)];
    assert Since(PopOne(c, before), w.calls) == Since(before, w.calls) + one;
    TotalsConcat(Since(before, w.calls), one, false);
    TotalsOne(job, report, Settle(c, job, report), false);
  }

  lemma SinceTwice(w: World, mid: World, end: World, idle: bool)
    requires |w.calls| <= |mid.calls| <= |end.calls| && mid.calls == end.calls[..|mid.calls|]
    ensures Totals(Since(end, w.calls), idle) ==
            Plus(Totals(Since(mid, w.calls), false), Totals(Since(end, mid.calls), idle), idle)
  {
    assert Since(end, w.calls) == Since(mid, w.calls) + Since(end, mid.calls);
    TotalsConcat(Since(mid, w.calls), Since(end, mid.calls), idle);
    IdleFlag(Since(mid, w.calls), idle);
  }

  lemma IdleIsFinal(c: Config, w: World, cycle: nat, cycles: nat)
    requires cycle < cycles && Pop(c, w, Budget(c, cycle)).queue == []
    ensures Pop(c, w, Budget(c, cycle + 1)) == Pop(c, w, Budget(c, cycles))
    ensures Pop(c, w, Budget(c, cycles - 1)).queue == []
  {
    BudgetGrows(c, cycle, cycle + 1);
    BudgetGrows(c, cycle, cycles - 1);
    BudgetGrows(c, cycle, cycles);
    hide Pop, Budget;
    StuckWhenEmpty(c, w, Budget(c, cycle), Budget(c, cycles));
    StuckWhenEmpty(c, w, Budget(c, cycle), Budget(c, cycles - 1));
    StuckWhenEmpty(c, w, Budget(c, cycle), Budget(c, cycle + 1));
  }

  lemma BudgetGrows(c: Config, j: nat, k: nat)
    requires j <= k
    ensures Budget(c, j) <= Budget(c, k)
  {
    assert (k - j) * Batch(c) >= 0;
  }

  lemma NextBudget(c: Config, k: nat)
    ensures Budget(c, k + 1) == Budget(c, k) + Batch(c)
  {
  }

  /** Once the queue is empty popping changes nothing more. */
  lemma StuckWhenEmpty(c: Config, w: World, m: nat, n: nat)
    requires Pop(c, w, m).queue == []
    ensures m <= n ==> Pop(c, w, n) == Pop(c, w, m)
  {
    if m <= n {
      PopTwice(c, w, m, n - m);
    }
  }
}
