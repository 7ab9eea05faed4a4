/** The bounded, retrying job processor: submitters, workers, cancellation and Stop in any interleaving. */
module JobProcessor {
  import opened Counting

  datatype Policy = Policy(maxAttempts: int, backoff: int)

  const DEFAULT_BACKOFF := 100_000_000  // 100ms

  function WithDefaults(p: Policy): (r: Policy)
    ensures r.maxAttempts >= 1 && r.backoff >= 1
    ensures p.maxAttempts >= 1 ==> r.maxAttempts == p.maxAttempts
    ensures p.maxAttempts < 1 ==> r.maxAttempts == 1
    ensures p.backoff >= 1 ==> r.backoff == p.backoff
    ensures p.backoff < 1 ==> r.backoff == DEFAULT_BACKOFF
    ensures p.maxAttempts >= 1 && p.backoff >= 1 <==> r == p
  {
    Policy(if p.maxAttempts <= 0 then 1 else p.maxAttempts, if p.backoff <= 0 then DEFAULT_BACKOFF else p.backoff)
  }

  // ---- The retry loop around one job ----

  // What the k-th handler call returns; a recovered panic is an ordinary retryable error.
  datatype Outcome = Success | Permanent | Retryable

  // From attempt k on, the loop's last handler call is call number runs: every earlier one failed retryably and was
  // not interrupted, and this one settles the job.
  ghost predicate LastRun(max: int, outcome: nat -> Outcome, cancelled: nat -> bool, k: nat, runs: nat) {
    && k <= runs <= max
    && (forall j :: k <= j < runs ==> outcome(j).Retryable? && !cancelled(j))
    && (runs == max || !outcome(runs).Retryable? || cancelled(runs))
  }

  // reported is the attempt whose error the failure log carries: 0 for none, -1 for the context's own error.
  // A permanent error leaves the loop before it is remembered, so the log carries the attempt before it.
  method RunWithRetries(max: int, outcome: nat -> Outcome, cancelled: nat -> bool)
    returns (succeeded: bool, runs: nat, retried: nat, reported: int)
    requires max >= 1
    ensures LastRun(max, outcome, cancelled, 1, runs)
    ensures succeeded <==> outcome(runs).Success?
    ensures retried == if outcome(runs).Retryable? && runs < max then runs else runs - 1
    ensures !succeeded ==>
      reported == if outcome(runs).Permanent? then runs - 1 else if runs < max then -1 else runs
  {
    runs, retried, reported, succeeded := 0, 0, 0, false;
    var attempt := 1;
    while attempt <= max
      invariant 1 <= attempt <= max + 1
      invariant runs == attempt - 1 == reported
      invariant retried == if attempt <= max then runs else runs - 1
      invariant forall k :: 1 <= k <= runs ==> outcome(k).Retryable? && (k < max ==> !cancelled(k))
    {
      var err := outcome(attempt);
      runs := runs + 1;
      if err.Success? {
        succeeded := true;
        return;
      }
      if err.Permanent? {
        return;
      }
      reported := attempt;
      if attempt < max {
        retried := retried + 1;
        if cancelled(attempt) {
          reported := -1;
          return;
        }
      }
      attempt := attempt + 1;
    }
  }

  // ---- The processor ----

  // Jobs are named by the order in which they enter the queue. A worker is at its select, about to run
  // attempt k of a job, waiting out the backoff after attempt k, or has returned.
  datatype Worker = Idle | Attempt(job: nat, k: nat) | Backoff(job: nat, k: nat) | Exited

  datatype State = State(
    head: nat, tail: nat,   // the queue holds jobs head..tail
    closed: bool,
    cancelled: bool,
    workers: seq<Worker>,
    accepting: nat,         // Submits between their send and Accepted.Add
    accepted: nat, rejected: nat, succeeded: nat, failed: nat, retried: nat,
    aborted: nat,           // jobs failed while waiting out a backoff
    runs: seq<nat>)         // handler calls per job

  datatype Label =
    | Enqueue
    | HandOver(w: nat)      // the queue's channel passes the job straight to a waiting worker
    | CountAccepted
    | Reject
    | Cancel
    | Stop
    | Dequeue(w: nat)
    | SeeClosed(w: nat)
    | SeeCancel(w: nat)
    | Succeed(w: nat)
    | FailForGood(w: nat)   // a permanent error, or context.Canceled
    | FailRetryable(w: nat) // any other error, a recovered panic included
    | BackoffElapsed(w: nat)
    | BackoffCancelled(w: nat)

  predicate ByWorker(l: Label) {
    !l.Enqueue? && !l.HandOver? && !l.CountAccepted? && !l.Reject? && !l.Cancel? && !l.Stop?
  }

  function Init(n: nat): State {
    State(0, 0, false, false, seq(n, _ => Idle), 0, 0, 0, 0, 0, 0, 0, [])
  }

  // No Submit during or after Stop: a send on the closed queue would panic.
  predicate Enabled(depth: nat, s: State, l: Label) {
    match l
    case Enqueue => !s.closed && s.tail - s.head < depth
    case HandOver(w) => !s.closed && s.head == s.tail && w < |s.workers| && s.workers[w].Idle?
    case CountAccepted => s.accepting > 0
    case Reject => !s.closed && s.tail - s.head >= depth
    case Cancel => !s.cancelled
    case Stop => !s.closed
    case Dequeue(w) => w < |s.workers| && s.workers[w].Idle? && s.head < s.tail
    case SeeClosed(w) => w < |s.workers| && s.workers[w].Idle? && s.closed && s.head >= s.tail
    case SeeCancel(w) => w < |s.workers| && s.workers[w].Idle? && s.cancelled
    case Succeed(w) => w < |s.workers| && s.workers[w].Attempt? && s.workers[w].job < |s.runs|
    case FailForGood(w) => w < |s.workers| && s.workers[w].Attempt? && s.workers[w].job < |s.runs|
    case FailRetryable(w) => w < |s.workers| && s.workers[w].Attempt? && s.workers[w].job < |s.runs|
    case BackoffElapsed(w) => w < |s.workers| && s.workers[w].Backoff?
    case BackoffCancelled(w) => w < |s.workers| && s.workers[w].Backoff? && s.cancelled
  }

  function Ran(s: State, w: nat): seq<nat>
    requires w < |s.workers| && s.workers[w].Attempt? && s.workers[w].job < |s.runs|
  {
    s.runs[s.workers[w].job := s.runs[s.workers[w].job] + 1]
  }

  function ApplySubmit(s: State, l: Label): State
    requires l.Enqueue? || (l.HandOver? && l.w < |s.workers|) || (l.CountAccepted? && s.accepting > 0) || l.Reject?
             || l.Cancel? || l.Stop?
  {
    match l
    case Enqueue => s.(tail := s.tail + 1, accepting := s.accepting + 1, runs := s.runs + [0])
    case HandOver(w) =>
      s.(head := s.tail + 1, tail := s.tail + 1, accepting := s.accepting + 1, runs := s.runs + [0],
         workers := s.workers[w := Attempt(s.tail, 1)])
    case CountAccepted => s.(accepting := s.accepting - 1, accepted := s.accepted + 1)
    case Reject => s.(rejected := s.rejected + 1)
    case Cancel => s.(cancelled := true)
    case Stop => s.(closed := true)
  }

  function ApplyWorker(max: nat, s: State, l: Label): State
    requires ByWorker(l) && Enabled(0, s, l)
  {
    match l
    case Dequeue(w) => s.(head := s.head + 1, workers := s.workers[w := Attempt(s.head, 1)])
    case SeeClosed(w) => s.(workers := s.workers[w := Exited])
    case SeeCancel(w) => s.(workers := s.workers[w := Exited])
    case Succeed(w) => s.(runs := Ran(s, w), succeeded := s.succeeded + 1, workers := s.workers[w := Idle])
    case FailForGood(w) => s.(runs := Ran(s, w), failed := s.failed + 1, workers := s.workers[w := Idle])
    case FailRetryable(w) =>
      var a := s.workers[w];
      if a.k < max then
        s.(runs := Ran(s, w), retried := s.retried + 1, workers := s.workers[w := Backoff(a.job, a.k)])
      else
        s.(runs := Ran(s, w), failed := s.failed + 1, workers := s.workers[w := Idle])
    case BackoffElapsed(w) =>
      s.(workers := s.workers[w := Attempt(s.workers[w].job, s.workers[w].k + 1)])
    case BackoffCancelled(w) =>
      s.(failed := s.failed + 1, aborted := s.aborted + 1, workers := s.workers[w := Idle])
  }

  function Step(depth: nat, max: nat, s: State, l: Label): State {
    if !Enabled(depth, s, l) then s
    else if ByWorker(l) then ApplyWorker(max, s, l)
    else ApplySubmit(s, l)
  }

  function Run(n: nat, depth: nat, max: nat, ls: seq<Label>): State {
    if ls == [] then Init(n) else Step(depth, max, Run(n, depth, max, ls[..|ls| - 1]), ls[|ls| - 1])
  }

  // ---- The retry loop is these steps ----

  // What the worker does from attempt k on, when nobody else moves but to cancel.
  function LoopLabels(max: nat, outcome: nat -> Outcome, cancelled: nat -> bool, w: nat, k: nat): seq<Label>
    requires k <= max
    decreases max - k
  {
    match outcome(k)
    case Success => [Succeed(w)]
    case Permanent => [FailForGood(w)]
    case Retryable =>
      if k == max then [FailRetryable(w)]
      else if cancelled(k) then [FailRetryable(w), Cancel, BackoffCancelled(w)]
      else [FailRetryable(w), BackoffElapsed(w)] + LoopLabels(max, outcome, cancelled, w, k + 1)
  }

  function RunFrom(depth: nat, max: nat, s: State, ls: seq<Label>): State
    decreases |ls|
  {
    if ls == [] then s else RunFrom(depth, max, Step(depth, max, s, ls[0]), ls[1..])
  }

  lemma {:induction false} RunThen(n: nat, depth: nat, max: nat, a: seq<Label>, b: seq<Label>)
    ensures Run(n, depth, max, a + b) == RunFrom(depth, max, Run(n, depth, max, a), b)
    decreases |b|
  {
    if b == [] {
      assert a + b == a;
    } else {
      assert (a + [b[0]])[..|a|] == a;
      assert a + b == (a + [b[0]]) + b[1..];
      RunThen(n, depth, max, a + [b[0]], b[1..]);
    }
  }

  ghost predicate Settled(s: State, s': State, job: nat, w: nat, runs: nat, retried: nat, succeeded: bool)
    requires job < |s.runs| && w < |s.workers|
  {
    && s'.workers == s.workers[w := Idle]
    && s'.runs == s.runs[job := s.runs[job] + runs]
    && s'.retried == s.retried + retried
    && s'.succeeded == s.succeeded + (if succeeded then 1 else 0)
    && s'.failed == s.failed + (if succeeded then 0 else 1)
  }

  lemma RunTwo(depth: nat, max: nat, s: State, a: Label, b: Label, rest: seq<Label>)
    ensures RunFrom(depth, max, s, [a, b] + rest) == RunFrom(depth, max, Step(depth, max, Step(depth, max, s, a), b), rest)
  {
  }

  lemma RunOne(depth: nat, max: nat, s: State, a: Label)
    ensures RunFrom(depth, max, s, [a]) == Step(depth, max, s, a)
  {
  }

  // A failed attempt and the wait that follows it.
  lemma RetrySteps(depth: nat, max: nat, s: State, job: nat, w: nat, k: nat)
    requires w < |s.workers| && s.workers[w] == Attempt(job, k) && job < |s.runs| && k < max
    ensures Step(depth, max, Step(depth, max, s, FailRetryable(w)), BackoffElapsed(w))
            == s.(runs := Ran(s, w), retried := s.retried + 1, workers := s.workers[w := Attempt(job, k + 1)])
  {
  }

  lemma AbortSteps(depth: nat, max: nat, s: State, job: nat, w: nat, k: nat)
    requires w < |s.workers| && s.workers[w] == Attempt(job, k) && job < |s.runs| && k < max
    ensures Step(depth, max, Step(depth, max, Step(depth, max, s, FailRetryable(w)), Cancel), BackoffCancelled(w))
            == s.(runs := Ran(s, w), retried := s.retried + 1, failed := s.failed + 1, aborted := s.aborted + 1,
                  cancelled := true, workers := s.workers[w := Idle])
  {
  }

  // The handler call that settles the job.
  lemma LoopEnds(depth: nat, max: nat, outcome: nat -> Outcome, cancelled: nat -> bool, s: State, job: nat, w: nat, k: nat)
    requires LastRun(max, outcome, cancelled, k, k)
    requires w < |s.workers| && s.workers[w] == Attempt(job, k) && job < |s.runs|
    ensures var s' := RunFrom(depth, max, s, LoopLabels(max, outcome, cancelled, w, k));
            Settled(s, s', job, w, 1, if outcome(k).Retryable? && k < max then 1 else 0, outcome(k).Success?)
  {
    if outcome(k).Retryable? && k < max {
      RunTwo(depth, max, s, FailRetryable(w), Cancel, [BackoffCancelled(w)]);
      RunOne(depth, max, Step(depth, max, Step(depth, max, s, FailRetryable(w)), Cancel), BackoffCancelled(w));
      AbortSteps(depth, max, s, job, w, k);
    } else {
      RunOne(depth, max, s, LoopLabels(max, outcome, cancelled, w, k)[0]);
    }
  }

  lemma SettledLater(s: State, s': State, job: nat, w: nat, next: Worker, runs: nat, retried: nat, succeeded: bool)
    requires w < |s.workers| && s.workers[w].Attempt? && s.workers[w].job == job && job < |s.runs|
    requires Settled(s.(runs := Ran(s, w), retried := s.retried + 1, workers := s.workers[w := next]),
                     s', job, w, runs, retried, succeeded)
    ensures Settled(s, s', job, w, runs + 1, retried + 1, succeeded)
  {
  }

  // RunWithRetries' outcome is what those steps leave in the processor's state.
  lemma {:induction false} LoopIsTheseSteps(depth: nat, max: nat, outcome: nat -> Outcome, cancelled: nat -> bool,
                                            s: State, job: nat, w: nat, k: nat, runs: nat)
    requires LastRun(max, outcome, cancelled, k, runs)
    requires w < |s.workers| && s.workers[w] == Attempt(job, k) && job < |s.runs|
    ensures var s' := RunFrom(depth, max, s, LoopLabels(max, outcome, cancelled, w, k));
            Settled(s, s', job, w, runs + 1 - k,
                    if outcome(runs).Retryable? && runs < max then runs + 1 - k else runs - k, outcome(runs).Success?)
    decreases max - k
  {
    if runs == k {
      LoopEnds(depth, max, outcome, cancelled, s, job, w, k);
    } else {
      RunTwo(depth, max, s, FailRetryable(w), BackoffElapsed(w), LoopLabels(max, outcome, cancelled, w, k + 1));
      RetrySteps(depth, max, s, job, w, k);
      var next := Attempt(job, k + 1);
      var s1 := s.(runs := Ran(s, w), retried := s.retried + 1, workers := s.workers[w := next]);
      LoopIsTheseSteps(depth, max, outcome, cancelled, s1, job, w, k + 1, runs);
      var end := RunFrom(depth, max, s1, LoopLabels(max, outcome, cancelled, w, k + 1));
      SettledLater(s, end, job, w, next, runs - k,
                   if outcome(runs).Retryable? && runs < max then runs - k else runs - k - 1, outcome(runs).Success?);
    }
  }

  // ---- Accounting ----

  predicate HasJob(w: Worker) { w.Attempt? || w.Backoff? }
  function Running(): Worker -> bool { (w: Worker) => HasJob(w) }

  function Itself(): nat -> nat { (n: nat) => n }

  // Enqueued jobs are queued, running, succeeded or failed; every handler call is accounted for.
  ghost predicate Accounts(s: State) {
    && |s.runs| == s.tail
    && s.tail == (s.tail - s.head) + Count(s.workers, Running()) + s.succeeded + s.failed
    && s.accepted + s.accepting == s.tail
    && Sum(s.runs, Itself()) + s.aborted == s.succeeded + s.failed + s.retried
  }

  ghost predicate DistinctJobs(ws: seq<Worker>) {
    forall v, w :: 0 <= v < w < |ws| && HasJob(ws[v]) && HasJob(ws[w]) ==> ws[v].job != ws[w].job
  }

  ghost predicate AttemptOf(max: nat, s: State, w: Worker)
    requires |s.runs| == s.tail && s.head <= s.tail
  {
    && (w.Attempt? ==> w.job < s.head && 1 <= w.k <= max && s.runs[w.job] == w.k - 1)
    && (w.Backoff? ==> w.job < s.head && 1 <= w.k < max && s.runs[w.job] == w.k)
  }

  // A worker's attempt counter is the number of handler calls its job has had.
  ghost predicate Attempts(max: nat, s: State)
  {
    && |s.runs| == s.tail && s.head <= s.tail
    && (forall j :: 0 <= j < s.tail ==> s.runs[j] <= max)
    && (forall j :: s.head <= j < s.tail ==> s.runs[j] == 0)
    && (forall w :: 0 <= w < |s.workers| ==> AttemptOf(max, s, s.workers[w]))
    && DistinctJobs(s.workers)
  }

  lemma DistinctUpdate(ws: seq<Worker>, w: nat, v: Worker)
    requires w < |ws| && DistinctJobs(ws)
    requires HasJob(v) ==>
      || (HasJob(ws[w]) && ws[w].job == v.job)
      || (forall u :: 0 <= u < |ws| && HasJob(ws[u]) ==> ws[u].job != v.job)
    ensures DistinctJobs(ws[w := v])
  {
  }

  ghost predicate Bounded(n: nat, depth: nat, s: State) {
    && |s.workers| == n
    && s.head <= s.tail <= s.head + depth
    && (!s.cancelled && (exists w :: 0 <= w < n && s.workers[w].Exited?) ==> s.closed && s.head == s.tail)
    && (!s.cancelled ==> s.aborted == 0)
  }

  ghost predicate Invariant(n: nat, depth: nat, max: nat, s: State) {
    Bounded(n, depth, s) && Accounts(s) && Attempts(max, s)
  }

  lemma StepBounded(n: nat, depth: nat, max: nat, s: State, l: Label)
    requires Bounded(n, depth, s)
    ensures Bounded(n, depth, Step(depth, max, s, l))
  {
  }

  lemma SubmitAccounts(depth: nat, s: State, l: Label)
    requires Accounts(s) && Enabled(depth, s, l) && !ByWorker(l)
    ensures Accounts(ApplySubmit(s, l))
  {
    assert (s.runs + [0])[..|s.runs|] == s.runs;
    if l.HandOver? {
      CountUpdate(s.workers, l.w, Attempt(s.tail, 1), Running());
    }
  }

  lemma RanAccounts(s: State, w: nat, v: Worker, retried: nat, succeeded: nat, failed: nat)
    requires Accounts(s) && w < |s.workers| && s.workers[w].Attempt? && s.workers[w].job < |s.runs|
    requires retried + succeeded + failed == s.retried + s.succeeded + s.failed + 1
    requires succeeded + failed + Weight(HasJob(v)) == s.succeeded + s.failed + 1
    ensures Accounts(s.(runs := Ran(s, w), workers := s.workers[w := v],
                        retried := retried, succeeded := succeeded, failed := failed))
  {
    CountUpdate(s.workers, w, v, Running());
    SumUpdate(s.runs, s.workers[w].job, s.runs[s.workers[w].job] + 1, Itself());
  }

  lemma MovedAccounts(max: nat, s: State, l: Label)
    requires Accounts(s) && ByWorker(l) && Enabled(0, s, l)
    requires !l.Succeed? && !l.FailForGood? && !l.FailRetryable?
    ensures Accounts(ApplyWorker(max, s, l))
  {
    CountUpdate(s.workers, l.w, ApplyWorker(max, s, l).workers[l.w], Running());
  }

  lemma WorkerAccounts(max: nat, s: State, l: Label)
    requires Accounts(s) && ByWorker(l) && Enabled(0, s, l)
    ensures Accounts(ApplyWorker(max, s, l))
  {
    var s' := ApplyWorker(max, s, l);
    if l.Succeed? || l.FailForGood? || l.FailRetryable? {
      RanAccounts(s, l.w, s'.workers[l.w], s'.retried, s'.succeeded, s'.failed);
    } else {
      MovedAccounts(max, s, l);
    }
  }

  lemma SubmitAttempts(depth: nat, max: nat, s: State, l: Label)
    requires Attempts(max, s) && max >= 1 && Enabled(depth, s, l) && !ByWorker(l)
    ensures Attempts(max, ApplySubmit(s, l))
  {
    var s' := ApplySubmit(s, l);
    forall w | 0 <= w < |s'.workers| ensures AttemptOf(max, s', s'.workers[w]) {
      assert AttemptOf(max, s, s.workers[w]);
    }
    if l.HandOver? {
      forall v | 0 <= v < |s.workers| && HasJob(s.workers[v]) ensures s.workers[v].job < s.head {
        assert AttemptOf(max, s, s.workers[v]);
      }
    }
  }

  // A handler call by worker w leaves every other worker's counter right.
  lemma RanAttempts(max: nat, s: State, w: nat, v: Worker, retried: nat, succeeded: nat, failed: nat)
    requires Attempts(max, s) && w < |s.workers| && s.workers[w].Attempt? && s.workers[w].job < |s.runs|
    requires v == Idle || (v == Backoff(s.workers[w].job, s.workers[w].k) && s.workers[w].k < max)
    ensures Attempts(max, s.(runs := Ran(s, w), workers := s.workers[w := v],
                             retried := retried, succeeded := succeeded, failed := failed))
  {
  }

  lemma MovedAttempts(max: nat, s: State, l: Label)
    requires Attempts(max, s) && max >= 1 && ByWorker(l) && Enabled(0, s, l)
    requires !l.Succeed? && !l.FailForGood? && !l.FailRetryable?
    ensures Attempts(max, ApplyWorker(max, s, l))
  {
    var s' := ApplyWorker(max, s, l);
    assert AttemptOf(max, s, s.workers[l.w]);
    forall w | 0 <= w < |s'.workers| ensures AttemptOf(max, s', s'.workers[w]) {
      assert AttemptOf(max, s, s.workers[w]);
    }
    forall v | 0 <= v < |s.workers| && HasJob(s.workers[v]) ensures s.workers[v].job < s.head {
      assert AttemptOf(max, s, s.workers[v]);
    }
    DistinctUpdate(s.workers, l.w, s'.workers[l.w]);
  }

  lemma WorkerAttempts(max: nat, s: State, l: Label)
    requires Attempts(max, s) && max >= 1 && ByWorker(l) && Enabled(0, s, l)
    ensures Attempts(max, ApplyWorker(max, s, l))
  {
    if l.Succeed? || l.FailForGood? || l.FailRetryable? {
      var s' := ApplyWorker(max, s, l);
      RanAttempts(max, s, l.w, s'.workers[l.w], s'.retried, s'.succeeded, s'.failed);
    } else {
      MovedAttempts(max, s, l);
    }
  }

  // At every step of every interleaving: the queue is within its depth, every enqueued job is in exactly one of
  // the four places, and no job has been run more than MaxAttempts times.
  lemma {:induction false} JobsAccountedFor(n: nat, depth: nat, max: nat, ls: seq<Label>)
    requires max >= 1
    ensures Invariant(n, depth, max, Run(n, depth, max, ls))
  {
    if ls == [] {
      CountZero(Init(n).workers, Running());
    } else {
      var s := Run(n, depth, max, ls[..|ls| - 1]);
      var l := ls[|ls| - 1];
      JobsAccountedFor(n, depth, max, ls[..|ls| - 1]);
      StepBounded(n, depth, max, s, l);
      if Enabled(depth, s, l) {
        if ByWorker(l) {
          WorkerAccounts(max, s, l);
          WorkerAttempts(max, s, l);
        } else {
          SubmitAccounts(depth, s, l);
          SubmitAttempts(depth, max, s, l);
        }
      }
    }
  }

  predicate StopReturned(s: State) {
    s.closed && forall w :: 0 <= w < |s.workers| ==> s.workers[w].Exited?
  }

  // What the counters say when Stop returns. Under cancellation jobs may be left in the queue and a job may
  // fail without another handler call; without it, and with a worker to drain the queue, the books close.
  lemma StopClosesTheBooks(n: nat, depth: nat, max: nat, ls: seq<Label>)
    requires max >= 1
    requires var s := Run(n, depth, max, ls); StopReturned(s) && s.accepting == 0
    ensures var s := Run(n, depth, max, ls);
            && s.accepted == s.succeeded + s.failed + (s.tail - s.head)
            && Sum(s.runs, Itself()) + s.aborted == s.succeeded + s.failed + s.retried
            && (forall j :: 0 <= j < |s.runs| ==> s.runs[j] <= max)
            && (n >= 1 && !s.cancelled ==>
                  && s.accepted == s.succeeded + s.failed
                  && Sum(s.runs, Itself()) == s.succeeded + s.failed + s.retried)
  {
    JobsAccountedFor(n, depth, max, ls);
    var s := Run(n, depth, max, ls);
    CountZero(s.workers, Running());
    if n >= 1 {
      assert s.workers[0].Exited?;
    }
  }

  // Submits that were answered: the job went in, or ErrOverloaded came back.
  function Submitted(n: nat, depth: nat, max: nat, ls: seq<Label>): nat {
    if ls == [] then 0
    else
      var k := |ls| - 1;
      Submitted(n, depth, max, ls[..k])
      + if (ls[k].Enqueue? || ls[k].HandOver? || ls[k].Reject?) && Enabled(depth, Run(n, depth, max, ls[..k]), ls[k])
        then 1 else 0
  }

  lemma SubmitCounters(depth: nat, max: nat, s: State, l: Label)
    ensures var s' := Step(depth, max, s, l);
            s'.accepted + s'.accepting + s'.rejected == s.accepted + s.accepting + s.rejected
            + if (l.Enqueue? || l.HandOver? || l.Reject?) && Enabled(depth, s, l) then 1 else 0
  {
  }

  // Every Submit is counted once, as accepted (now or shortly) or as rejected.
  lemma {:induction false} EverySubmitCounts(n: nat, depth: nat, max: nat, ls: seq<Label>)
    requires max >= 1
    ensures var s := Run(n, depth, max, ls);
            Submitted(n, depth, max, ls) == s.accepted + s.accepting + s.rejected
  {
    JobsAccountedFor(n, depth, max, ls);
    if ls == [] {
    } else {
      var k := |ls| - 1;
      EverySubmitCounts(n, depth, max, ls[..k]);
      SubmitCounters(depth, max, Run(n, depth, max, ls[..k]), ls[k]);
    }
  }

  // A Submit is rejected only when the queue is exactly full, and an accepted one never makes it fuller than that.
  lemma RejectsOnlyWhenFull(n: nat, depth: nat, max: nat, ls: seq<Label>, l: Label)
    requires max >= 1
    ensures var s := Run(n, depth, max, ls);
            var s' := Step(depth, max, s, l);
            && (s'.rejected != s.rejected <==> l.Reject? && Enabled(depth, s, l))
            && (s'.rejected != s.rejected ==> s.tail - s.head == depth && s'.rejected == s.rejected + 1)
            && s'.tail - s'.head <= depth
  {
    JobsAccountedFor(n, depth, max, ls);
    StepBounded(n, depth, max, Run(n, depth, max, ls), l);
  }

  lemma NoWorkerStep(depth: nat, max: nat, s: State, l: Label)
    requires s.workers == []
    ensures var s' := Step(depth, max, s, l);
            s'.head == s.head && s'.succeeded == s.succeeded && s'.failed == s.failed && s'.workers == []
  {
  }

  // A processor without workers never drains: what it accepted stays queued when Stop returns.
  lemma {:induction false} NoWorkersNoDrain(depth: nat, max: nat, ls: seq<Label>)
    ensures var s := Run(0, depth, max, ls); s.head == 0 && s.succeeded + s.failed == 0 && s.workers == []
  {
    if ls == [] {
    } else {
      var s := Run(0, depth, max, ls[..|ls| - 1]);
      NoWorkersNoDrain(depth, max, ls[..|ls| - 1]);
      NoWorkerStep(depth, max, s, ls[|ls| - 1]);
    }
  }

  // ---- Stop terminates ----

  // After Stop has closed the queue, some worker can move until all have returned.
  lemma DrainNeverBlocks(n: nat, depth: nat, max: nat, ls: seq<Label>) returns (l: Label)
    requires max >= 1
    requires var s := Run(n, depth, max, ls); s.closed && !StopReturned(s)
    ensures ByWorker(l) && Enabled(depth, Run(n, depth, max, ls), l)
  {
    JobsAccountedFor(n, depth, max, ls);
    var s := Run(n, depth, max, ls);
    var w :| 0 <= w < n && !s.workers[w].Exited?;
    assert AttemptOf(max, s, s.workers[w]);
    l := match s.workers[w]
      case Idle => if s.head < s.tail then Dequeue(w) else SeeClosed(w)
      case Attempt(_, _) => Succeed(w)
      case Backoff(_, _) => BackoffElapsed(w)
      case Exited => Stop;
  }

  function Left(max: nat, k: nat): nat { if k <= max then max - k else 0 }

  function Todo(max: nat, w: Worker): nat {
    match w
    case Idle => 1
    case Attempt(_, k) => 2 * Left(max, k) + 2
    case Backoff(_, k) => 2 * Left(max, k) + 1
    case Exited => 0
  }

  function TodoOf(max: nat): Worker -> nat { (w: Worker) => Todo(max, w) }

  lemma {:induction false} IdleTodo(max: nat, n: nat)
    ensures Sum(Init(n).workers, TodoOf(max)) == n
  {
    if n == 0 {
    } else {
      assert Init(n).workers[..n - 1] == Init(n - 1).workers;
      IdleTodo(max, n - 1);
    }
  }

  // The most steps that a number of jobs can cost the workers.
  function Cost(max: nat, jobs: nat): nat {
    if jobs == 0 then 0 else Cost(max, jobs - 1) + 2 * max
  }

  function Measure(max: nat, s: State): int
    requires s.head <= s.tail
  {
    Cost(max, s.tail - s.head) + Sum(s.workers, TodoOf(max))
  }

  // What a worker step does to the one worker that takes it.
  lemma TodoDrops(max: nat, s: State, l: Label)
    requires Attempts(max, s) && max >= 1 && ByWorker(l) && Enabled(0, s, l)
    ensures var s' := ApplyWorker(max, s, l);
            && s'.workers == s.workers[l.w := s'.workers[l.w]]
            && (if l.Dequeue? then s'.head == s.head + 1 && Todo(max, s'.workers[l.w]) == 2 * max && s.workers[l.w] == Idle
                else s'.head == s.head && Todo(max, s'.workers[l.w]) < Todo(max, s.workers[l.w]))
            && s'.tail == s.tail
  {
  }

  lemma WorkerMeasure(max: nat, s: State, l: Label)
    requires Attempts(max, s) && max >= 1 && ByWorker(l) && Enabled(0, s, l)
    ensures var s' := ApplyWorker(max, s, l); s'.head <= s'.tail && Measure(max, s') <= Measure(max, s) - 1
  {
    TodoDrops(max, s, l);
    SumUpdate(s.workers, l.w, ApplyWorker(max, s, l).workers[l.w], TodoOf(max));
  }

  lemma SubmitMeasure(depth: nat, max: nat, s: State, l: Label)
    requires Attempts(max, s) && max >= 1 && !ByWorker(l) && Enabled(depth, s, l)
    ensures var s' := ApplySubmit(s, l);
            && s'.head <= s'.tail && s.tail <= s'.tail
            && Measure(max, s') - Cost(max, s'.tail) <= Measure(max, s) - Cost(max, s.tail)
  {
    if l.HandOver? {
      SumUpdate(s.workers, l.w, Attempt(s.tail, 1), TodoOf(max));
    }
  }

  function WorkerSteps(n: nat, depth: nat, max: nat, ls: seq<Label>): nat {
    if ls == [] then 0
    else
      var k := |ls| - 1;
      WorkerSteps(n, depth, max, ls[..k])
      + if ByWorker(ls[k]) && Enabled(depth, Run(n, depth, max, ls[..k]), ls[k]) then 1 else 0
  }

  // The workers take at most n + 2 * max * (jobs enqueued) steps, so after Stop every run is finite.
  lemma {:induction false} StopTerminates(n: nat, depth: nat, max: nat, ls: seq<Label>)
    requires max >= 1
    ensures var s := Run(n, depth, max, ls);
            s.head <= s.tail && WorkerSteps(n, depth, max, ls) + Measure(max, s) <= n + Cost(max, s.tail)
  {
    JobsAccountedFor(n, depth, max, ls);
    if ls == [] {
      IdleTodo(max, n);
    } else {
      var k := |ls| - 1;
      StopTerminates(n, depth, max, ls[..k]);
      JobsAccountedFor(n, depth, max, ls[..k]);
      var s := Run(n, depth, max, ls[..k]);
      if Enabled(depth, s, ls[k]) {
        if ByWorker(ls[k]) {
          WorkerMeasure(max, s, ls[k]);
        } else {
          SubmitMeasure(depth, max, s, ls[k]);
        }
      }
    }
  }
}
