/** The worker pool that measures one transport (`benchmark/main.go`). */
module TransportPool {
  import opened Types

  /** What a worker does: wait for a job, measure it, send its error, or nothing any more. */
  datatype Worker = Idle | Measuring(job: nat) | Reporting(job: nat) | Gone

  datatype Sample = Sample(latency: real, failed: bool)

  /** Where a job is; a history that the program does not keep. */
  datatype Phase = Waiting | Held(worker: nat) | Owed(worker: nat) | Reported | Passed

  /** `next` is the next job to hand out; `errors` the jobs whose error is in the channel. */
  datatype Pool = Pool(next: nat, workers: seq<Worker>, latencies: seq<Option<Sample>>, errors: set<nat>,
                       phases: seq<Phase>)

  datatype Action =
    | Take(worker: nat)
    | Measure(worker: nat, sample: Sample)
    | SendError(worker: nat)
    | Leave(worker: nat)

  function Start(requests: nat, concurrency: nat): Pool {
    Pool(0, seq(concurrency, _ => Idle), seq(requests, _ => None), {}, seq(requests, _ => Waiting))
  }

  predicate Shaped(s: Pool) {
    && |s.phases| == |s.latencies|
    && forall w :: 0 <= w < |s.workers| && (s.workers[w].Measuring? || s.workers[w].Reporting?) ==>
         s.workers[w].job < |s.latencies|
  }

  /** The error channel holds `requests` errors; a send to a full channel blocks. */
  predicate Enabled(s: Pool, a: Action) {
    && Shaped(s) && a.worker < |s.workers|
    && match a
       case Take(w) => s.workers[w].Idle? && s.next < |s.latencies|
       case Measure(w, _) => s.workers[w].Measuring?
       case SendError(w) => s.workers[w].Reporting? && |s.errors| < |s.latencies|
       case Leave(w) => s.workers[w].Idle? && s.next >= |s.latencies|
  }

  function Next(s: Pool, a: Action): Pool
    requires Enabled(s, a)
  {
    match a
    case Take(w) =>
      s.(next := s.next + 1, workers := s.workers[w := Measuring(s.next)], phases := s.phases[s.next := Held(w)])
    case Measure(w, sample) =>
      var job := s.workers[w].job;
      s.(latencies := s.latencies[job := Some(sample)],
         workers := s.workers[w := if sample.failed then Reporting(job) else Idle],
         phases := s.phases[job := if sample.failed then Owed(w) else Passed])
    case SendError(w) =>
      var job := s.workers[w].job;
      s.(errors := s.errors + {job}, workers := s.workers[w := Idle], phases := s.phases[job := Reported])
    case Leave(w) => s.(workers := s.workers[w := Gone])
  }

  function Execute(s: Pool, acts: seq<Action>): Option<Pool> {
    if acts == [] then Some(s)
    else
      var before := Execute(s, acts[..|acts|-1]);
      if before.Some? && Enabled(before.value, acts[|acts|-1])
      then Some(Next(before.value, acts[|acts|-1])) else None
  }

  ghost predicate JobFacts(s: Pool, job: nat)
    requires job < |s.latencies| == |s.phases|
  {
    var slot, phase := s.latencies[job], s.phases[job];
    && (phase.Waiting? <==> job >= s.next)
    && (phase.Held? ==> phase.worker < |s.workers| && s.workers[phase.worker] == Measuring(job))
    && (phase.Owed? ==> phase.worker < |s.workers| && s.workers[phase.worker] == Reporting(job))
    && (slot.None? <==> phase.Waiting? || phase.Held?)
    && (slot.Some? ==> (slot.value.failed <==> phase.Owed? || phase.Reported?))
    && (job in s.errors <==> phase.Reported?)
  }

  ghost predicate WorkerFacts(s: Pool, w: nat)
    requires w < |s.workers|
  {
    match s.workers[w]
    case Idle => true
    case Measuring(job) => job < |s.phases| && s.phases[job] == Held(w)
    case Reporting(job) => job < |s.phases| && s.phases[job] == Owed(w)
    case Gone => s.next == |s.latencies|
  }

  ghost predicate Inv(s: Pool) {
    && Shaped(s) && s.next <= |s.latencies|
    && (forall job :: job in s.errors ==> job < |s.latencies|)
    && (forall job: nat :: job < |s.latencies| ==> JobFacts(s, job))
    && (forall w: nat :: w < |s.workers| ==> WorkerFacts(s, w))
  }

  lemma StepKeepsInv(s: Pool, a: Action)
    requires Inv(s) && Enabled(s, a)
    ensures Inv(Next(s, a))
    ensures |Next(s, a).workers| == |s.workers| && |Next(s, a).latencies| == |s.latencies|
  {
    var t := Next(s, a);
    assert WorkerFacts(s, a.worker) && (a.Take? ==> JobFacts(s, s.next));
    forall job: nat | job < |t.latencies| ensures JobFacts(t, job) {
      assert JobFacts(s, job);
    }
    forall w: nat | w < |t.workers| ensures WorkerFacts(t, w) {
      assert WorkerFacts(s, w);
    }
  }

  lemma {:induction false} InvHolds(requests: nat, concurrency: nat, acts: seq<Action>)
    requires Execute(Start(requests, concurrency), acts).Some?
    ensures var s := Execute(Start(requests, concurrency), acts).value;
            Inv(s) && |s.workers| == concurrency && |s.latencies| == requests
  {
    if acts != [] {
      InvHolds(requests, concurrency, acts[..|acts|-1]);
      StepKeepsInv(Execute(Start(requests, concurrency), acts[..|acts|-1]).value, acts[|acts|-1]);
    }
  }

  lemma {:induction false} AtMost(jobs: set<nat>, n: nat)
    requires forall job :: job in jobs ==> job < n
    ensures |jobs| <= n
  {
    if n > 0 {
      AtMost(jobs - {n - 1}, n - 1);
    } else {
      assert jobs == {};
    }
  }

  /** In every schedule an error send finds room in the channel, and a measured slot was empty. */
  lemma NothingBlocksOrOverwrites(requests: nat, concurrency: nat, acts: seq<Action>, w: nat)
    requires Execute(Start(requests, concurrency), acts).Some? && w < concurrency
    ensures var s := Execute(Start(requests, concurrency), acts).value;
            && |s.workers| == concurrency && |s.latencies| == requests
            && (s.workers[w].Reporting? ==> |s.errors| < requests && Enabled(s, SendError(w)))
            && (s.workers[w].Measuring? ==> s.workers[w].job < requests && s.latencies[s.workers[w].job].None?)
  {
    InvHolds(requests, concurrency, acts);
    var s := Execute(Start(requests, concurrency), acts).value;
    assert WorkerFacts(s, w);
    if s.workers[w].Measuring? || s.workers[w].Reporting? {
      var job := s.workers[w].job;
      assert JobFacts(s, job);
      AtMost(s.errors + {job}, requests);
    }
  }

  ghost predicate Finished(s: Pool) {
    forall w :: 0 <= w < |s.workers| ==> s.workers[w].Gone?
  }

  /**
    When `workers.Wait()` returns, every slot has been written, and an error is waiting exactly
    when some request failed.
   */
  lemma FinishedMeansMeasured(requests: nat, concurrency: nat, acts: seq<Action>)
    requires Execute(Start(requests, concurrency), acts).Some? && concurrency > 0
    requires Finished(Execute(Start(requests, concurrency), acts).value)
    ensures var s := Execute(Start(requests, concurrency), acts).value;
            && |s.latencies| == requests
            && (forall job :: 0 <= job < requests ==> s.latencies[job].Some?)
            && (forall job: nat :: job in s.errors <==> job < requests && s.latencies[job].value.failed)
  {
    InvHolds(requests, concurrency, acts);
    var s := Execute(Start(requests, concurrency), acts).value;
    assert WorkerFacts(s, 0);
    forall job: nat | job < requests
      ensures s.latencies[job].Some? && (job in s.errors <==> s.latencies[job].value.failed)
    {
      assert JobFacts(s, job);
    }
  }

  lemma StepKeepsSamples(s: Pool, a: Action, job: nat)
    requires Inv(s) && Enabled(s, a) && job < |s.latencies| && s.latencies[job].Some?
    ensures Next(s, a).latencies[job] == s.latencies[job]
  {
    assert JobFacts(s, job) && WorkerFacts(s, a.worker);
  }

  /** In every schedule, the slot of a job holds, from its measurement on, the sample that was measured for it. */
  lemma {:induction false} SampleStays(requests: nat, concurrency: nat, acts: seq<Action>, k: nat)
    requires Execute(Start(requests, concurrency), acts).Some? && k < |acts| && acts[k].Measure?
    ensures var before := Execute(Start(requests, concurrency), acts[..k]);
            && before.Some? && acts[k].worker < |before.value.workers|
            && before.value.workers[acts[k].worker].Measuring?
            && var job := before.value.workers[acts[k].worker].job;
               && job < requests == |Execute(Start(requests, concurrency), acts).value.latencies|
               && Execute(Start(requests, concurrency), acts).value.latencies[job] == Some(acts[k].sample)
  {
    var n := |acts| - 1;
    var front := acts[..n];
    InvHolds(requests, concurrency, front);
    InvHolds(requests, concurrency, acts);
    var s := Execute(Start(requests, concurrency), front).value;
    if k == n {
      assert WorkerFacts(s, acts[k].worker);
    } else {
      assert front[..k] == acts[..k] && front[k] == acts[k];
      SampleStays(requests, concurrency, front, k);
      var job := Execute(Start(requests, concurrency), acts[..k]).value.workers[acts[k].worker].job;
      StepKeepsSamples(s, acts[n], job);
    }
  }

  /** Some worker can always move until all of them are gone. */
  lemma NeverStuck(requests: nat, concurrency: nat, acts: seq<Action>, sample: Sample) returns (a: Action)
    requires Execute(Start(requests, concurrency), acts).Some?
    requires !Finished(Execute(Start(requests, concurrency), acts).value)
    ensures Enabled(Execute(Start(requests, concurrency), acts).value, a)
  {
    InvHolds(requests, concurrency, acts);
    var s := Execute(Start(requests, concurrency), acts).value;
    var w: nat :| w < |s.workers| && !s.workers[w].Gone?;
    NothingBlocksOrOverwrites(requests, concurrency, acts, w);
    a := match s.workers[w]
         case Idle => if s.next < requests then Take(w) else Leave(w)
         case Measuring(_) => Measure(w, sample)
         case _ => SendError(w);
  }

  function Weight(w: Worker): nat {
    match w
    case Gone => 0
    case Idle => 1
    case Reporting(_) => 2
    case Measuring(_) => 3
  }

  function Weights(workers: seq<Worker>): nat {
    if workers == [] then 0 else Weights(workers[..|workers|-1]) + Weight(workers[|workers|-1])
  }

  lemma {:induction false} WeightsUpdate(workers: seq<Worker>, i: nat, w: Worker)
    requires i < |workers|
    ensures Weights(workers[i := w]) + Weight(workers[i]) == Weights(workers) + Weight(w)
  {
    var front := workers[..|workers|-1];
    if i < |front| {
      WeightsUpdate(front, i, w);
      assert workers[i := w][..|workers|-1] == front[i := w];
    } else {
      assert workers[i := w][..|workers|-1] == front;
    }
  }

  /** What is left to do. */
  function Work(s: Pool): int {
    3 * (|s.latencies| - s.next) + Weights(s.workers)
  }

  lemma StepLowersWork(s: Pool, a: Action)
    requires Inv(s) && Enabled(s, a)
    ensures Work(Next(s, a)) < Work(s)
  {
    WeightsUpdate(s.workers, a.worker, Next(s, a).workers[a.worker]);
  }

  lemma {:induction false} StartWeights(concurrency: nat)
    ensures Weights(seq(concurrency, _ => Idle)) == concurrency
  {
    if concurrency > 0 {
      StartWeights(concurrency - 1);
      assert seq(concurrency, _ => Idle)[..concurrency - 1] == seq(concurrency - 1, _ => Idle);
    }
  }

  /** No schedule goes on forever: there are at most three steps a request and one a worker. */
  lemma {:induction false} SchedulesAreBounded(requests: nat, concurrency: nat, acts: seq<Action>)
    requires Execute(Start(requests, concurrency), acts).Some?
    ensures |acts| + Work(Execute(Start(requests, concurrency), acts).value) <= 3 * requests + concurrency
    ensures |acts| <= 3 * requests + concurrency
  {
    InvHolds(requests, concurrency, acts);
    if acts == [] {
      StartWeights(concurrency);
    } else {
      var front := acts[..|acts|-1];
      SchedulesAreBounded(requests, concurrency, front);
      InvHolds(requests, concurrency, front);
      StepLowersWork(Execute(Start(requests, concurrency), front).value, acts[|acts|-1]);
    }
  }
}
