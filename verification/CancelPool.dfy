/** The cancelable worker pool: every placement of cancellation among the steps of spawner, workers and finalizer. */
module CancelPool {
  import opened Counting

  // A worker is at its select, running a job, blocked on `out <- result`, or has returned.
  datatype Worker = Idle | Processing(job: int) | Sending(result: int) | Exited

  datatype Finalizer = Selecting | Draining | Closed

  datatype State = State(
    cancelled: bool,
    jobsClosed: bool,        // intake is closed, and drained if it was buffered
    workers: seq<Worker>,    // those spawned so far
    workerDone: bool,        // the channel closed after workers.Wait()
    finalizer: Finalizer,
    received: seq<int>,      // IDs of the jobs taken from intake
    read: seq<int>,          // IDs of the results the caller has taken from out
    outClosed: bool,
    panicked: bool)          // a send on, or a second close of, a closed channel

  datatype Label =
    // the environment
    | Cancel
    | CloseJobs
    | Receive(w: nat, job: int)
    // the caller: out is unbuffered, so a send and the caller's receive are one step
    | Send(w: nat)
    // the pool on its own
    | Spawn
    | SeeClosed(w: nat)
    | SeeCancel(w: nat)
    | Finish(w: nat)
    | AllReturned
    | CloseOnDone
    | BeginDrain
    | CloseAfterDrain

  predicate ByPool(l: Label) { !l.Cancel? && !l.CloseJobs? && !l.Receive? && !l.Send? }

  function Init(): State {
    State(false, false, [], false, Selecting, [], [], false, false)
  }

  predicate Enabled(n: nat, s: State, l: Label) {
    !s.panicked &&
    match l
    case Cancel => !s.cancelled
    case CloseJobs => !s.jobsClosed
    case Receive(w, _) => w < |s.workers| && s.workers[w].Idle? && !s.jobsClosed
    case Send(w) => w < |s.workers| && s.workers[w].Sending?
    case Spawn => |s.workers| < n
    case SeeClosed(w) => w < |s.workers| && s.workers[w].Idle? && s.jobsClosed
    case SeeCancel(w) => w < |s.workers| && s.workers[w].Idle? && s.cancelled
    case Finish(w) => w < |s.workers| && s.workers[w].Processing?
    case AllReturned => !s.workerDone && |s.workers| >= n && forall w :: 0 <= w < |s.workers| ==> s.workers[w].Exited?
    case CloseOnDone => s.finalizer.Selecting? && s.workerDone
    case BeginDrain => s.finalizer.Selecting? && s.cancelled
    case CloseAfterDrain => s.finalizer.Draining? && s.workerDone
  }

  function CloseOut(s: State): State {
    if s.outClosed then s.(panicked := true) else s.(outClosed := true, finalizer := Closed)
  }

  function Apply(n: nat, s: State, l: Label): State
    requires Enabled(n, s, l)
  {
    match l
    case Cancel => s.(cancelled := true)
    case CloseJobs => s.(jobsClosed := true)
    case Receive(w, j) => s.(workers := s.workers[w := Processing(j)], received := s.received + [j])
    case Send(w) =>
      if s.outClosed then s.(panicked := true)
      else s.(workers := s.workers[w := Idle], read := s.read + [s.workers[w].result])
    case Spawn => s.(workers := s.workers + [Idle])
    case SeeClosed(w) => s.(workers := s.workers[w := Exited])
    case SeeCancel(w) => s.(workers := s.workers[w := Exited])
    case Finish(w) => s.(workers := s.workers[w := Sending(s.workers[w].job)])
    case AllReturned => s.(workerDone := true)
    case CloseOnDone => CloseOut(s)
    case BeginDrain => s.(finalizer := Draining)
    case CloseAfterDrain => CloseOut(s)
  }

  function Step(n: nat, s: State, l: Label): State {
    if Enabled(n, s, l) then Apply(n, s, l) else s
  }

  function RunFrom(n: nat, s: State, ls: seq<Label>): State {
    if ls == [] then s else Step(n, RunFrom(n, s, ls[..|ls| - 1]), ls[|ls| - 1])
  }

  function Has(x: int): Worker -> bool { (w: Worker) => w == Processing(x) || w == Sending(x) }
  function Equals(x: int): int -> bool { (y: int) => y == x }

  // Every job taken from intake is with exactly one worker, or its result was read exactly once.
  ghost predicate ConservedFor(s: State, x: int) {
    Count(s.received, Equals(x)) == Count(s.workers, Has(x)) + Count(s.read, Equals(x))
  }

  ghost predicate Invariant(n: nat, s: State) {
    && |s.workers| <= n && !s.panicked
    && (s.workerDone ==> |s.workers| == n && forall w :: 0 <= w < n ==> s.workers[w].Exited?)
    && (s.outClosed <==> s.finalizer.Closed?)
    && (s.outClosed ==> s.workerDone)
    && (s.finalizer.Draining? ==> s.cancelled)
    && forall x :: ConservedFor(s, x)
  }

  lemma MoveConserves(s: State, w: nat, v: Worker, received: seq<int>, read: seq<int>, x: int)
    requires ConservedFor(s, x) && w < |s.workers|
    requires Count(received, Equals(x)) - Count(s.received, Equals(x)) ==
             Weight(Has(x)(v)) - Weight(Has(x)(s.workers[w])) + Count(read, Equals(x)) - Count(s.read, Equals(x))
    ensures Count(received, Equals(x)) == Count(s.workers[w := v], Has(x)) + Count(read, Equals(x))
  {
    CountUpdate(s.workers, w, v, Has(x));
  }

  lemma ChannelConserves(n: nat, s: State, l: Label, x: int)
    requires ConservedFor(s, x) && !s.outClosed && Enabled(n, s, l) && (l.Receive? || l.Send?)
    ensures ConservedFor(Apply(n, s, l), x)
  {
    if l.Receive? {
      CountPush(s.received, l.job, Equals(x));
      MoveConserves(s, l.w, Processing(l.job), s.received + [l.job], s.read, x);
    } else {
      CountPush(s.read, s.workers[l.w].result, Equals(x));
      MoveConserves(s, l.w, Idle, s.received, s.read + [s.workers[l.w].result], x);
    }
  }

  lemma LocalConserves(n: nat, s: State, l: Label, x: int)
    requires ConservedFor(s, x) && Enabled(n, s, l) && (l.SeeClosed? || l.SeeCancel? || l.Finish?)
    ensures ConservedFor(Apply(n, s, l), x)
  {
    var v := if l.Finish? then Sending(s.workers[l.w].job) else Exited;
    MoveConserves(s, l.w, v, s.received, s.read, x);
  }

  lemma StepConserves(n: nat, s: State, l: Label, x: int)
    requires ConservedFor(s, x) && !s.outClosed && Enabled(n, s, l)
    ensures ConservedFor(Apply(n, s, l), x)
  {
    if l.Receive? || l.Send? {
      ChannelConserves(n, s, l, x);
    } else if l.SeeClosed? || l.SeeCancel? || l.Finish? {
      LocalConserves(n, s, l, x);
    } else if l.Spawn? {
      assert (s.workers + [Idle])[..|s.workers|] == s.workers;
    }
  }

  // Nothing but the caller is left to move once out is closed.
  lemma ClosedConserves(n: nat, s: State, l: Label, x: int)
    requires Invariant(n, s) && s.outClosed && Enabled(n, s, l)
    ensures ConservedFor(Apply(n, s, l), x)
  {
    assert ConservedFor(s, x);
  }

  lemma StepInvariant(n: nat, s: State, l: Label)
    requires Invariant(n, s) && Enabled(n, s, l)
    ensures Invariant(n, Apply(n, s, l))
  {
    var s' := Apply(n, s, l);
    forall x ensures ConservedFor(s', x) {
      assert ConservedFor(s, x);
      if s.outClosed {
        ClosedConserves(n, s, l, x);
      } else {
        StepConserves(n, s, l, x);
      }
    }
  }

  // Wherever cancellation falls: no send on a closed channel, no second close, and out is closed only
  // after every worker has returned.
  lemma {:induction false} SafeClose(n: nat, ls: seq<Label>)
    ensures Invariant(n, RunFrom(n, Init(), ls))
    ensures var s := RunFrom(n, Init(), ls);
            s.outClosed ==> |s.workers| == n && forall w :: 0 <= w < n ==> s.workers[w].Exited?
  {
    if ls == [] {
      assert forall x :: ConservedFor(Init(), x);
    } else {
      SafeClose(n, ls[..|ls| - 1]);
      var s := RunFrom(n, Init(), ls[..|ls| - 1]);
      if Enabled(n, s, ls[|ls| - 1]) {
        StepInvariant(n, s, ls[|ls| - 1]);
      }
    }
  }

  lemma {:induction false} Multiplicity(xs: seq<int>, x: int)
    ensures multiset(xs)[x] == Count(xs, Equals(x))
  {
    if xs == [] {
    } else {
      Multiplicity(xs[..|xs| - 1], x);
      assert xs == xs[..|xs| - 1] + [xs[|xs| - 1]];
    }
  }

  // Cancellation drops no job that a worker had taken: when out closes, each has been read exactly once.
  lemma TakenJobsAreReported(n: nat, ls: seq<Label>)
    requires RunFrom(n, Init(), ls).outClosed
    ensures var s := RunFrom(n, Init(), ls); multiset(s.read) == multiset(s.received)
  {
    SafeClose(n, ls);
    var s := RunFrom(n, Init(), ls);
    forall x ensures multiset(s.read)[x] == multiset(s.received)[x] {
      assert ConservedFor(s, x);
      CountZero(s.workers, Has(x));
      Multiplicity(s.read, x);
      Multiplicity(s.received, x);
    }
  }

  // Once intake has ended, the pool can always move by itself, except while a worker waits for the caller to read.
  lemma StuckOnlyOnTheReader(n: nat, ls: seq<Label>)
    requires var s := RunFrom(n, Init(), ls); (s.cancelled || s.jobsClosed) && !s.outClosed
    ensures var s := RunFrom(n, Init(), ls);
            (forall l :: ByPool(l) ==> !Enabled(n, s, l)) <==>
            && |s.workers| == n && (s.cancelled ==> s.finalizer.Draining?)
            && (forall w :: 0 <= w < n ==> s.workers[w].Exited? || s.workers[w].Sending?)
            && exists w :: 0 <= w < n && s.workers[w].Sending?
  {
    SafeClose(n, ls);
    var s := RunFrom(n, Init(), ls);
    if forall l :: ByPool(l) ==> !Enabled(n, s, l) {
      assert !Enabled(n, s, Spawn) && !Enabled(n, s, AllReturned);
      assert !Enabled(n, s, CloseOnDone) && !Enabled(n, s, CloseAfterDrain) && !Enabled(n, s, BeginDrain);
      forall w | 0 <= w < n ensures s.workers[w].Exited? || s.workers[w].Sending? {
        assert !Enabled(n, s, Finish(w)) && !Enabled(n, s, SeeClosed(w)) && !Enabled(n, s, SeeCancel(w));
      }
    }
  }

  // So a caller that keeps reading gets out closed: once intake has ended, a run that neither the pool nor a read can
  // extend has closed it.
  lemma ReadToTheEnd(n: nat, ls: seq<Label>)
    requires var s := RunFrom(n, Init(), ls);
             && (s.cancelled || s.jobsClosed)
             && forall l :: ByPool(l) || l.Send? ==> !Enabled(n, s, l)
    ensures RunFrom(n, Init(), ls).outClosed
  {
    var s := RunFrom(n, Init(), ls);
    if !s.outClosed {
      StuckOnlyOnTheReader(n, ls);
      var w :| 0 <= w < n && s.workers[w].Sending?;
      SafeClose(n, ls);
      assert Enabled(n, s, Send(w));
    }
  }

  lemma SendingStays(n: nat, s: State, l: Label, w: nat)
    requires Invariant(n, s) && w < |s.workers| && s.workers[w].Sending? && l != Send(w)
    ensures w < |Step(n, s, l).workers| && Step(n, s, l).workers[w] == s.workers[w]
  {
  }

  // `out <- process(ctx, j)` does not select on ctx: a worker at its send stays there, and out stays open,
  // for as long as the caller does not read from it.
  lemma {:induction false} LeakWithoutReader(n: nat, s: State, later: seq<Label>, w: nat)
    requires Invariant(n, s) && w < |s.workers| && s.workers[w].Sending?
    requires Send(w) !in later
    ensures var s' := RunFrom(n, s, later);
            && Invariant(n, s') && !s'.outClosed
            && w < |s'.workers| && s'.workers[w] == s.workers[w]
  {
    if later == [] {
    } else {
      var k := |later| - 1;
      LeakWithoutReader(n, s, later[..k], w);
      var m := RunFrom(n, s, later[..k]);
      assert later[k] in later;
      SendingStays(n, m, later[k], w);
      if Enabled(n, m, later[k]) {
        StepInvariant(n, m, later[k]);
      }
    }
  }

  // The shortest such run: one worker, one job, cancellation while the result is waiting to be read.
  lemma CancelledButNeverClosed(later: seq<Label>)
    requires Send(0) !in later
    ensures var s := RunFrom(1, Init(), [Spawn, Receive(0, 7), Finish(0), Cancel]);
            s.cancelled && !RunFrom(1, s, later).outClosed
  {
    var l1 := [Spawn];
    var l2 := l1 + [Receive(0, 7)];
    var l3 := l2 + [Finish(0)];
    var l4 := [Spawn, Receive(0, 7), Finish(0), Cancel];
    assert l1[..0] == [] && l2[..1] == l1 && l3[..2] == l2 && l4[..3] == l3;
    assert RunFrom(1, Init(), l1).workers == [Idle];
    assert RunFrom(1, Init(), l2).workers == [Processing(7)];
    assert RunFrom(1, Init(), l3).workers == [Sending(7)];
    SafeClose(1, l4);
    LeakWithoutReader(1, RunFrom(1, Init(), l4), later, 0);
  }

  // ---- Bounded work ----

  function Todo(w: Worker): nat {
    match w
    case Processing(_) => 3
    case Sending(_) => 2
    case Idle => 1
    case Exited => 0
  }

  function TodoOf(): Worker -> nat { (w: Worker) => Todo(w) }

  function Measure(n: nat, s: State): int {
    2 * (n - |s.workers|) + Sum(s.workers, TodoOf()) + (if s.workerDone then 0 else 1)
    + match s.finalizer { case Selecting => 2 case Draining => 1 case Closed => 0 }
  }

  lemma StepMeasure(n: nat, s: State, l: Label)
    requires Invariant(n, s) && Enabled(n, s, l)
    ensures var m, m' := Measure(n, s), Measure(n, Apply(n, s, l));
            if l.Receive? then m' == m + 2
            else if l.Cancel? || l.CloseJobs? then m' == m
            else m' <= m - 1
  {
    match l
    case Receive(w, j) => SumUpdate(s.workers, w, Processing(j), TodoOf());
    case Send(w) => SumUpdate(s.workers, w, Idle, TodoOf());
    case SeeClosed(w) => SumUpdate(s.workers, w, Exited, TodoOf());
    case SeeCancel(w) => SumUpdate(s.workers, w, Exited, TodoOf());
    case Finish(w) => SumUpdate(s.workers, w, Sending(s.workers[w].job), TodoOf());
    case _ =>
  }

  // Steps of the pool and of the caller's reads that fired.
  function Work(n: nat, ls: seq<Label>): nat {
    if ls == [] then 0
    else
      var k := |ls| - 1;
      Work(n, ls[..k])
      + if (ByPool(ls[k]) || ls[k].Send?) && Enabled(n, RunFrom(n, Init(), ls[..k]), ls[k]) then 1 else 0
  }

  lemma StepWork(n: nat, s: State, l: Label)
    requires Invariant(n, s)
    ensures var s' := Step(n, s, l);
            Measure(n, s') - 2 * |s'.received| + (if (ByPool(l) || l.Send?) && Enabled(n, s, l) then 1 else 0)
            <= Measure(n, s) - 2 * |s.received|
  {
    if Enabled(n, s, l) {
      StepMeasure(n, s, l);
    }
  }

  // The pool does bounded work per job taken, so once intake ends every run with a reading caller is finite.
  lemma {:induction false} WorkIsBounded(n: nat, ls: seq<Label>)
    ensures var s := RunFrom(n, Init(), ls);
            && Work(n, ls) + Measure(n, s) <= 2 * n + 3 + 2 * |s.received|
            && Work(n, ls) <= 2 * n + 3 + 2 * |s.received|
  {
    SafeClose(n, ls);
    if ls == [] {
    } else {
      var k := |ls| - 1;
      WorkIsBounded(n, ls[..k]);
      SafeClose(n, ls[..k]);
      StepWork(n, RunFrom(n, Init(), ls[..k]), ls[k]);
    }
  }
}
