/** The bounded worker pool as a transition system: producer, n workers, closer and reader, in any interleaving. */
module WorkerPool {
  import opened Counting

  datatype Job = Job(id: int, name: string)

  // Output is "worker <id> did <name>": the worker and the job's name.
  datatype Result = Result(jobID: int, worker: nat, name: string)

  datatype Worker = Idle | Holding(job: Job) | Exited

  datatype State = State(
    next: nat,              // jobs handed over so far
    inClosed: bool,
    workers: seq<Worker>,
    buffer: seq<Result>,    // out, a channel of capacity |jobs|
    read: seq<Result>,      // what the caller has taken from out
    outClosed: bool,
    panicked: bool)         // a send on a closed channel

  // in is unbuffered, so a send and the matching receive are one step.
  datatype Label = Handoff(w: nat) | CloseIn | Exit(w: nat) | SendOut(w: nat) | CloseOut | Read

  function Init(n: nat): State {
    State(0, false, seq(n, _ => Idle), [], [], false, false)
  }

  predicate Enabled(jobs: seq<Job>, s: State, l: Label) {
    !s.panicked &&
    match l
    case Handoff(w) => s.next < |jobs| && w < |s.workers| && s.workers[w].Idle?
    case CloseIn => s.next >= |jobs| && !s.inClosed
    case Exit(w) => w < |s.workers| && s.workers[w].Idle? && s.inClosed
    case SendOut(w) => w < |s.workers| && s.workers[w].Holding? && (s.outClosed || |s.buffer| < |jobs|)
    case CloseOut => !s.outClosed && forall w :: 0 <= w < |s.workers| ==> s.workers[w].Exited?
    case Read => s.buffer != []
  }

  function Apply(jobs: seq<Job>, s: State, l: Label): State
    requires Enabled(jobs, s, l)
  {
    match l
    case Handoff(w) =>
      if s.inClosed then s.(panicked := true)
      else s.(next := s.next + 1, workers := s.workers[w := Holding(jobs[s.next])])
    case CloseIn => s.(inClosed := true)
    case Exit(w) => s.(workers := s.workers[w := Exited])
    case SendOut(w) =>
      if s.outClosed then s.(panicked := true)
      else
        var j := s.workers[w].job;
        s.(workers := s.workers[w := Idle], buffer := s.buffer + [Result(j.id, w, j.name)])
    case CloseOut => s.(outClosed := true)
    case Read => s.(buffer := s.buffer[1..], read := s.read + [s.buffer[0]])
  }

  // A label that is not enabled leaves the state alone, so every label sequence is an interleaving.
  function Step(jobs: seq<Job>, s: State, l: Label): State {
    if Enabled(jobs, s, l) then Apply(jobs, s, l) else s
  }

  function Run(jobs: seq<Job>, n: nat, ls: seq<Label>): State {
    if ls == [] then Init(n) else Step(jobs, Run(jobs, n, ls[..|ls| - 1]), ls[|ls| - 1])
  }

  function Busy(): Worker -> bool { (w: Worker) => w.Holding? }
  function Alive(): Worker -> bool { (w: Worker) => !w.Exited? }
  function Holds(x: Job): Worker -> bool { (w: Worker) => w == Holding(x) }
  function Is(x: Job): Job -> bool { (j: Job) => j == x }
  function Reports(x: Job): Result -> bool { (r: Result) => Job(r.jobID, r.name) == x }

  ghost predicate ConservedFor(jobs: seq<Job>, s: State, x: Job)
    requires s.next <= |jobs|
  {
    Count(jobs[..s.next], Is(x)) ==
      Count(s.workers, Holds(x)) + Count(s.read, Reports(x)) + Count(s.buffer, Reports(x))
  }

  // Every job handed over is with exactly one worker, or reported exactly once.
  ghost predicate Conserved(jobs: seq<Job>, s: State)
    requires s.next <= |jobs|
  {
    forall x: Job :: ConservedFor(jobs, s, x)
  }

  ghost predicate Invariant(jobs: seq<Job>, n: nat, s: State) {
    && s.next <= |jobs| && |s.workers| == n && !s.panicked
    && (s.inClosed ==> s.next == |jobs|)
    && (forall w :: 0 <= w < n && s.workers[w].Exited? ==> s.inClosed)
    && (s.outClosed ==> forall w :: 0 <= w < n ==> s.workers[w].Exited?)
    && s.next == Count(s.workers, Busy()) + |s.read| + |s.buffer|
    && Conserved(jobs, s)
  }

  // Jobs are handed over in order; a result carries its job's ID and name and the number of the worker that did it; the
  // caller reads results in the order they were sent.
  lemma StepReports(jobs: seq<Job>, s: State, l: Label)
    requires Enabled(jobs, s, l)
    ensures var s' := Apply(jobs, s, l);
            && (l.Handoff? && !s.inClosed ==> s'.workers == s.workers[l.w := Holding(jobs[s.next])] && s'.next == s.next + 1)
            && (l.SendOut? && !s.outClosed ==>
                  var j := s.workers[l.w].job;
                  s'.workers == s.workers[l.w := Idle] && s'.buffer == s.buffer + [Result(j.id, l.w, j.name)])
            && (!l.SendOut? ==> s'.read + s'.buffer == s.read + s.buffer)
            && (l.Read? ==> s'.read == s.read + [s.buffer[0]])
  {
  }

  lemma InitInvariant(jobs: seq<Job>, n: nat)
    ensures Invariant(jobs, n, Init(n))
  {
    CountZero(Init(n).workers, Busy());
    forall x ensures Count(Init(n).workers, Holds(x)) == 0 {
      CountZero(Init(n).workers, Holds(x));
    }
  }

  lemma HandoffConserves(jobs: seq<Job>, s: State, w: nat)
    requires s.next < |jobs| && w < |s.workers| && s.workers[w].Idle? && Conserved(jobs, s)
    ensures Conserved(jobs, s.(next := s.next + 1, workers := s.workers[w := Holding(jobs[s.next])]))
  {
    var s' := s.(next := s.next + 1, workers := s.workers[w := Holding(jobs[s.next])]);
    assert jobs[..s.next + 1][..s.next] == jobs[..s.next];
    forall x: Job ensures ConservedFor(jobs, s', x) {
      assert ConservedFor(jobs, s, x);
      CountUpdate(s.workers, w, Holding(jobs[s.next]), Holds(x));
    }
  }

  lemma SendConserves(jobs: seq<Job>, s: State, w: nat)
    requires s.next <= |jobs| && w < |s.workers| && s.workers[w].Holding? && Conserved(jobs, s)
    ensures var r := Result(s.workers[w].job.id, w, s.workers[w].job.name);
            Conserved(jobs, s.(workers := s.workers[w := Idle], buffer := s.buffer + [r]))
  {
    var r := Result(s.workers[w].job.id, w, s.workers[w].job.name);
    var s' := s.(workers := s.workers[w := Idle], buffer := s.buffer + [r]);
    forall x: Job ensures ConservedFor(jobs, s', x) {
      assert ConservedFor(jobs, s, x);
      CountUpdate(s.workers, w, Idle, Holds(x));
      assert (s.buffer + [r])[..|s.buffer|] == s.buffer;
    }
  }

  lemma ReadConserves(jobs: seq<Job>, s: State)
    requires s.next <= |jobs| && s.buffer != [] && Conserved(jobs, s)
    ensures Conserved(jobs, s.(buffer := s.buffer[1..], read := s.read + [s.buffer[0]]))
  {
    var r := s.buffer[0];
    assert s.buffer == [r] + s.buffer[1..];
    var s' := s.(buffer := s.buffer[1..], read := s.read + [r]);
    forall x: Job ensures ConservedFor(jobs, s', x) {
      assert ConservedFor(jobs, s, x);
      CountSplit([r], s.buffer[1..], Reports(x));
      CountSplit(s.read, [r], Reports(x));
    }
  }

  lemma ExitConserves(jobs: seq<Job>, s: State, w: nat)
    requires s.next <= |jobs| && w < |s.workers| && s.workers[w].Idle? && Conserved(jobs, s)
    ensures Conserved(jobs, s.(workers := s.workers[w := Exited]))
  {
    var s' := s.(workers := s.workers[w := Exited]);
    forall x: Job ensures ConservedFor(jobs, s', x) {
      assert ConservedFor(jobs, s, x);
      CountUpdate(s.workers, w, Exited, Holds(x));
    }
  }

  // What is still to do: each job is handed over, sent and read; each worker exits; both channels close.
  function Measure(jobs: seq<Job>, s: State): int {
    3 * (|jobs| - s.next) + 2 * Count(s.workers, Busy()) + |s.buffer| + Count(s.workers, Alive())
    + (if s.inClosed then 0 else 1) + (if s.outClosed then 0 else 1)
  }

  lemma StepInvariant(jobs: seq<Job>, n: nat, s: State, l: Label)
    requires Invariant(jobs, n, s) && Enabled(jobs, s, l)
    ensures Invariant(jobs, n, Apply(jobs, s, l))
  {
    match l
    case Handoff(w) =>
      HandoffConserves(jobs, s, w);
      CountUpdate(s.workers, w, Holding(jobs[s.next]), Busy());
    case SendOut(w) =>
      SendConserves(jobs, s, w);
      CountUpdate(s.workers, w, Idle, Busy());
    case Exit(w) =>
      ExitConserves(jobs, s, w);
      CountUpdate(s.workers, w, Exited, Busy());
    case Read =>
      ReadConserves(jobs, s);
    case _ =>
      var s' := Apply(jobs, s, l);
      forall x: Job ensures ConservedFor(jobs, s', x) {
        assert ConservedFor(jobs, s, x);
      }
  }

  lemma StepMeasure(jobs: seq<Job>, n: nat, s: State, l: Label)
    requires Invariant(jobs, n, s) && Enabled(jobs, s, l)
    ensures Measure(jobs, Apply(jobs, s, l)) == Measure(jobs, s) - 1
  {
    if l.Handoff? || l.SendOut? || l.Exit? {
      var v := Apply(jobs, s, l).workers[l.w];
      CountUpdate(s.workers, l.w, v, Busy());
      CountUpdate(s.workers, l.w, v, Alive());
    }
  }

  // In no interleaving does anyone send on a closed channel; out closes only after every worker has returned.
  lemma {:induction false} SafeClose(jobs: seq<Job>, n: nat, ls: seq<Label>)
    ensures Invariant(jobs, n, Run(jobs, n, ls))
  {
    if ls == [] {
      InitInvariant(jobs, n);
    } else {
      var s := Run(jobs, n, ls[..|ls| - 1]);
      SafeClose(jobs, n, ls[..|ls| - 1]);
      if Enabled(jobs, s, ls[|ls| - 1]) {
        StepInvariant(jobs, n, s, ls[|ls| - 1]);
      }
    }
  }

  // Until out is closed some step other than the caller's Read can be taken: results nobody reads block nothing.
  lemma NoDeadlock(jobs: seq<Job>, n: nat, ls: seq<Label>) returns (l: Label)
    requires n >= 1 && !Run(jobs, n, ls).outClosed
    ensures l != Read && Enabled(jobs, Run(jobs, n, ls), l)
  {
    SafeClose(jobs, n, ls);
    var s := Run(jobs, n, ls);
    if w :| 0 <= w < n && s.workers[w].Holding? {
      CountZero(s.workers, Busy());
      return SendOut(w);
    }
    if w :| 0 <= w < n && s.workers[w].Idle? {
      return if s.next < |jobs| then Handoff(w) else if s.inClosed then Exit(w) else CloseIn;
    }
    return CloseOut;
  }

  // At least one worker is needed: with none, out can close at once while the producer waits forever on its first send.
  lemma {:induction false} NoWorkersNoResults(jobs: seq<Job>, ls: seq<Label>)
    requires jobs != []
    ensures var s := Run(jobs, 0, ls);
            && s.next == 0 && !s.inClosed && s.read == s.buffer == []
            && (s.outClosed || Enabled(jobs, s, CloseOut))
  {
    SafeClose(jobs, 0, ls);
    if ls == [] {
    } else {
      NoWorkersNoResults(jobs, ls[..|ls| - 1]);
    }
  }

  // How many labels of ls actually fired.
  function Fired(jobs: seq<Job>, n: nat, ls: seq<Label>): nat {
    if ls == [] then 0
    else
      var k := |ls| - 1;
      Fired(jobs, n, ls[..k]) + if Enabled(jobs, Run(jobs, n, ls[..k]), ls[k]) then 1 else 0
  }

  // Every run is finite: whatever the interleaving, exactly this many steps can ever be taken.
  lemma {:induction false} EveryRunIsFinite(jobs: seq<Job>, n: nat, ls: seq<Label>)
    ensures Fired(jobs, n, ls) + Measure(jobs, Run(jobs, n, ls)) == 3 * |jobs| + n + 2
    ensures Fired(jobs, n, ls) <= 3 * |jobs| + n + 2
  {
    if ls == [] {
      CountZero(Init(n).workers, Busy());
      CountAll(Init(n).workers, Alive());
    } else {
      var k := |ls| - 1;
      EveryRunIsFinite(jobs, n, ls[..k]);
      SafeClose(jobs, n, ls[..k]);
      if Enabled(jobs, Run(jobs, n, ls[..k]), ls[k]) {
        StepMeasure(jobs, n, Run(jobs, n, ls[..k]), ls[k]);
      }
    }
    SafeClose(jobs, n, ls);
  }

  function Reported(rs: seq<Result>): seq<Job> {
    seq(|rs|, i requires 0 <= i < |rs| => Job(rs[i].jobID, rs[i].name))
  }

  lemma {:induction false} JobMultiplicity(js: seq<Job>, x: Job)
    ensures multiset(js)[x] == Count(js, Is(x))
  {
    if js == [] {
    } else {
      JobMultiplicity(js[..|js| - 1], x);
      assert js == js[..|js| - 1] + [js[|js| - 1]];
    }
  }

  lemma {:induction false} ReportMultiplicity(rs: seq<Result>, x: Job)
    ensures Count(Reported(rs), Is(x)) == Count(rs, Reports(x))
  {
    if rs == [] {
    } else {
      ReportMultiplicity(rs[..|rs| - 1], x);
      assert Reported(rs)[..|rs| - 1] == Reported(rs[..|rs| - 1]);
    }
  }

  // When out is closed (and there was at least one worker), the results read or still buffered are the jobs,
  // each exactly as often as it was submitted, in some order.
  lemma AllJobsReported(jobs: seq<Job>, n: nat, ls: seq<Label>)
    requires n >= 1 && Run(jobs, n, ls).outClosed
    ensures var s := Run(jobs, n, ls);
            multiset(Reported(s.read + s.buffer)) == multiset(jobs)
  {
    SafeClose(jobs, n, ls);
    var s := Run(jobs, n, ls);
    assert s.workers[0].Exited?;
    assert jobs[..s.next] == jobs;
    forall x: Job ensures multiset(Reported(s.read + s.buffer))[x] == multiset(jobs)[x] {
      assert ConservedFor(jobs, s, x);
      JobMultiplicity(jobs, x);
      JobMultiplicity(Reported(s.read + s.buffer), x);
      ReportMultiplicity(s.read + s.buffer, x);
      CountSplit(s.read, s.buffer, Reports(x));
      CountZero(s.workers, Holds(x));
    }
  }
}
