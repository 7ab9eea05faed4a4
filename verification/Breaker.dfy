/** The circuit breaker: a timed state machine driven by any number of interleaved callers. */
module Breaker {
  // An instant counts nanoseconds from Go's zero time; 0 is the zero time itself.
  const ZERO_TIME: int := 0

  datatype State = State(failures: int, threshold: int, cooldown: int, openUntil: int, halfOpen: bool)

  function Fresh(threshold: int, cooldown: int): State {
    State(0, threshold, cooldown, ZERO_TIME, false)
  }

  predicate Admits(b: State, now: int) { b.openUntil <= now && !b.halfOpen }

  function AllowStep(b: State, now: int): State {
    if Admits(b, now) && b.openUntil != ZERO_TIME && now > b.openUntil then b.(halfOpen := true) else b
  }

  function RecordStep(b: State, ok: bool, now: int): State {
    if b.halfOpen then
      if ok then b.(halfOpen := false, openUntil := ZERO_TIME, failures := 0)
      else b.(halfOpen := false, openUntil := now + b.cooldown)
    else if ok then b.(failures := 0)
    else if b.failures + 1 >= b.threshold then b.(failures := b.failures + 1, openUntil := now + b.cooldown)
    else b.(failures := b.failures + 1)
  }

  class CircuitBreaker {
    var failures: int
    const threshold: int
    const cooldown: int
    var openUntil: int
    var halfOpen: bool

    ghost function View(): State
      reads this
    {
      State(failures, threshold, cooldown, openUntil, halfOpen)
    }

    constructor (threshold: int, cooldown: int)
      ensures View() == Fresh(threshold, cooldown)
    {
      failures, openUntil, halfOpen := 0, ZERO_TIME, false;
      this.threshold, this.cooldown := threshold, cooldown;
    }

    method Allow(now: int) returns (admitted: bool)
      modifies this
      ensures admitted == Admits(old(View()), now)
      ensures View() == AllowStep(old(View()), now)
      ensures admitted <==> old(openUntil) <= now && !old(halfOpen)
      ensures halfOpen <==> old(halfOpen) || (old(openUntil) != ZERO_TIME && now > old(openUntil))
      ensures failures == old(failures) && openUntil == old(openUntil)
    {
      if now < openUntil {
        return false;
      }
      if halfOpen {
        return false;
      }
      if openUntil != ZERO_TIME && now > openUntil {
        halfOpen := true;
      }
      return true;
    }

    method Record(ok: bool, now: int)
      modifies this
      ensures View() == RecordStep(old(View()), ok, now)
      ensures !halfOpen
      ensures ok ==> failures == 0
      ensures ok ==> openUntil == if old(halfOpen) then ZERO_TIME else old(openUntil)
      ensures !ok ==> failures == old(failures) + if old(halfOpen) then 0 else 1
      ensures !ok ==> openUntil == if old(halfOpen) || failures >= threshold then now + cooldown else old(openUntil)
    {
      if halfOpen {
        halfOpen := false;
        openUntil := ZERO_TIME;
        if ok {
          failures := 0;
        } else {
          openUntil := now + cooldown;
        }
        return;
      }
      if ok {
        failures := 0;
        return;
      }
      failures := failures + 1;
      if failures >= threshold {
        openUntil := now + cooldown;
      }
    }
  }

  // ---- The storm bound: every call fails, at one instant ----

  // out callers are between Allow and Record; admitted have been let in so far; peak is the most ever out.
  datatype Storm = Storm(b: State, out: nat, admitted: nat, peak: nat)

  datatype Event = Arrive | Fail

  function Max(a: int, b: int): int { if a > b then a else b }

  function StormStep(s: Storm, e: Event, now: int): Storm {
    match e
    case Arrive =>
      if Admits(s.b, now) then Storm(AllowStep(s.b, now), s.out + 1, s.admitted + 1, Max(s.peak, s.out + 1))
      else s.(b := AllowStep(s.b, now))
    case Fail =>
      if s.out == 0 then s else s.(b := RecordStep(s.b, false, now), out := s.out - 1)
  }

  function RunStorm(threshold: int, cooldown: int, now: int, es: seq<Event>): Storm {
    if es == [] then Storm(Fresh(threshold, cooldown), 0, 0, 0)
    else StormStep(RunStorm(threshold, cooldown, now, es[..|es| - 1]), es[|es| - 1], now)
  }

  ghost predicate StormInvariant(s: Storm, threshold: int, cooldown: int, now: int) {
    && s.b.threshold == threshold && s.b.cooldown == cooldown && !s.b.halfOpen
    && s.b.failures + s.out == s.admitted && s.b.failures >= 0
    && s.out <= s.peak
    && (s.b.openUntil == ZERO_TIME || s.b.openUntil == now + cooldown)
    && (s.b.openUntil == ZERO_TIME ==> s.b.failures < Max(1, threshold))
    && (now < ZERO_TIME ==> s.admitted == 0 && s.b.openUntil == ZERO_TIME)
    && s.admitted <= Max(1, threshold) - 1 + s.peak
  }

  // Callers that all fail at one instant get in at most max(1, threshold) - 1 + P times, P being the most that
  // were ever between Allow and Record at once; before the zero time none does.
  lemma {:induction false} StormBound(threshold: int, cooldown: int, now: int, es: seq<Event>)
    requires cooldown > 0
    ensures var s := RunStorm(threshold, cooldown, now, es);
            StormInvariant(s, threshold, cooldown, now) && s.admitted <= Max(1, threshold) - 1 + s.peak
  {
    if es == [] {
    } else {
      StormBound(threshold, cooldown, now, es[..|es| - 1]);
    }
  }

  // k callers one after the other, each failing before the next arrives; then p callers at once.
  function Worst(k: nat, p: nat): seq<Event> {
    if p > 0 then Worst(k, p - 1) + [Arrive]
    else if k > 0 then Worst(k - 1, 0) + [Arrive, Fail]
    else []
  }

  lemma StormPush(threshold: int, cooldown: int, now: int, es: seq<Event>, e: Event)
    ensures RunStorm(threshold, cooldown, now, es + [e]) == StormStep(RunStorm(threshold, cooldown, now, es), e, now)
  {
    assert (es + [e])[..|es|] == es;
  }

  // The storm when k callers have failed and p more are out.
  function Calm(threshold: int, cooldown: int, k: nat, p: nat): Storm {
    Storm(State(k, threshold, cooldown, ZERO_TIME, false), p, k + p, Max(p, if k > 0 then 1 else 0))
  }

  lemma OneComes(threshold: int, cooldown: int, now: int, k: nat, p: nat)
    requires now >= ZERO_TIME
    ensures StormStep(Calm(threshold, cooldown, k, p), Arrive, now) == Calm(threshold, cooldown, k, p + 1)
  {
  }

  lemma OneFails(threshold: int, cooldown: int, now: int, k: nat)
    requires k + 1 < threshold
    ensures StormStep(Calm(threshold, cooldown, k, 1), Fail, now) == Calm(threshold, cooldown, k + 1, 0)
  {
  }

  lemma {:induction false} WorstRun(threshold: int, cooldown: int, now: int, k: nat, p: nat)
    requires cooldown > 0 && now >= ZERO_TIME && k < Max(1, threshold)
    ensures RunStorm(threshold, cooldown, now, Worst(k, p)) == Calm(threshold, cooldown, k, p)
    decreases k, p
  {
    if p > 0 {
      WorstRun(threshold, cooldown, now, k, p - 1);
      StormPush(threshold, cooldown, now, Worst(k, p - 1), Arrive);
      OneComes(threshold, cooldown, now, k, p - 1);
    } else if k > 0 {
      WorstRun(threshold, cooldown, now, k - 1, 0);
      var w := Worst(k - 1, 0);
      StormPush(threshold, cooldown, now, w, Arrive);
      StormPush(threshold, cooldown, now, w + [Arrive], Fail);
      assert w + [Arrive, Fail] == (w + [Arrive]) + [Fail];
      OneComes(threshold, cooldown, now, k - 1, 0);
      OneFails(threshold, cooldown, now, k - 1);
    }
  }

  // The bound is attained, for every threshold and every P >= 1.
  lemma StormBoundIsTight(threshold: int, cooldown: int, now: int, p: nat)
    requires cooldown > 0 && now >= ZERO_TIME && p >= 1
    ensures var s := RunStorm(threshold, cooldown, now, Worst(Max(1, threshold) - 1, p));
            s.peak == p && s.admitted == Max(1, threshold) - 1 + s.peak
  {
    WorstRun(threshold, cooldown, now, Max(1, threshold) - 1, p);
  }

  // ---- The half-open probe ----

  // Callers arriving at the given instants, none of which records an outcome.
  function Arrivals(b: State, times: seq<int>): State {
    if times == [] then b else AllowStep(Arrivals(b, times[..|times| - 1]), times[|times| - 1])
  }

  function Admitted(b: State, times: seq<int>): nat {
    if times == [] then 0
    else
      var n := |times| - 1;
      Admitted(b, times[..n]) + if Admits(Arrivals(b, times[..n]), times[n]) then 1 else 0
  }

  // While a probe is out nobody is admitted, whatever the clock says, until somebody records an outcome.
  lemma {:induction false} ProbeExcludesEveryone(b: State, times: seq<int>)
    requires b.halfOpen
    ensures Admitted(b, times) == 0 && Arrivals(b, times) == b
  {
    if times == [] {
    } else {
      ProbeExcludesEveryone(b, times[..|times| - 1]);
    }
  }

  predicate AnyAfter(times: seq<int>, u: int) { exists i :: 0 <= i < |times| && times[i] > u }

  // How many arrivals fall exactly on the instant u before any falls after it.
  function AtExpiry(times: seq<int>, u: int): nat {
    if times == [] then 0
    else
      var n := |times| - 1;
      AtExpiry(times[..n], u) + if times[n] == u && !AnyAfter(times[..n], u) then 1 else 0
  }

  // A tripped breaker admits, until the next Record, one probe after the cooldown and everyone who arrives on
  // the very instant it ends.
  lemma {:induction false} TrippedAdmitsExactly(b: State, times: seq<int>)
    requires !b.halfOpen && b.openUntil != ZERO_TIME
    ensures Admitted(b, times) == AtExpiry(times, b.openUntil) + if AnyAfter(times, b.openUntil) then 1 else 0
    ensures Arrivals(b, times) == b.(halfOpen := AnyAfter(times, b.openUntil))
  {
    if times == [] {
    } else {
      var n := |times| - 1;
      TrippedAdmitsExactly(b, times[..n]);
      assert AnyAfter(times, b.openUntil) <==> AnyAfter(times[..n], b.openUntil) || times[n] > b.openUntil;
    }
  }

  lemma {:induction false} NeverAtExpiry(times: seq<int>, u: int)
    requires forall i :: 0 <= i < |times| ==> times[i] != u
    ensures AtExpiry(times, u) == 0
  {
    if times == [] {
    } else {
      NeverAtExpiry(times[..|times| - 1], u);
    }
  }

  // So, until the next Record, "at most one probe" holds exactly when the clock reads the expiry instant at most once
  // before the probe, and not at all if there is one.
  lemma OneProbeIff(b: State, times: seq<int>)
    requires !b.halfOpen && b.openUntil != ZERO_TIME
    ensures Admitted(b, times) <= 1
            <==> AtExpiry(times, b.openUntil) + (if AnyAfter(times, b.openUntil) then 1 else 0) <= 1
    ensures (forall i :: 0 <= i < |times| ==> times[i] != b.openUntil) ==> Admitted(b, times) <= 1
  {
    TrippedAdmitsExactly(b, times);
    if forall i :: 0 <= i < |times| ==> times[i] != b.openUntil {
      NeverAtExpiry(times, b.openUntil);
    }
  }

  // Two callers on the expiry instant are both let in, although neither is a probe.
  lemma TwoAtExpiry(b: State)
    requires !b.halfOpen && b.openUntil != ZERO_TIME
    ensures Admitted(b, [b.openUntil, b.openUntil]) == 2
    ensures !Arrivals(b, [b.openUntil, b.openUntil]).halfOpen
  {
    var u := b.openUntil;
    assert [u, u][..1] == [u] && [u][..0] == [];
    TrippedAdmitsExactly(b, [u, u]);
    TrippedAdmitsExactly(b, [u]);
    assert Admits(b, u);
    assert Admitted(b, [u]) == 1;
  }

  // ---- Runs of Allow and Record by identified callers ----

  // Admissions are numbered. out: those not yet recorded. late: those among them let in after a trip. probe: the last
  // to be let in as the probe. Record does not ask who reports, so only the model knows.
  datatype Calls = Calls(b: State, next: nat, out: set<nat>, late: set<nat>, probe: nat)

  datatype Call = Enter(now: int) | Report(who: nat, ok: bool, now: int)

  function NoCalls(threshold: int, cooldown: int): Calls {
    Calls(Fresh(threshold, cooldown), 0, {}, {}, 0)
  }

  function EnterCalls(s: Calls, now: int): Calls {
    var b := AllowStep(s.b, now);
    if !Admits(s.b, now) then s.(b := b)
    else Calls(b, s.next + 1, s.out + {s.next},
               if s.b.openUntil != ZERO_TIME then s.late + {s.next} else s.late,
               if b.halfOpen then s.next else s.probe)
  }

  function ReportCalls(s: Calls, who: nat, ok: bool, now: int): Calls {
    s.(b := RecordStep(s.b, ok, now), out := s.out - {who}, late := s.late - {who})
  }

  function CallStep(s: Calls, l: Call): Calls {
    match l
    case Enter(now) => EnterCalls(s, now)
    case Report(who, ok, now) => if who in s.out then ReportCalls(s, who, ok, now) else s
  }

  function RunCalls(s: Calls, ls: seq<Call>): Calls {
    if ls == [] then s else CallStep(RunCalls(s, ls[..|ls| - 1]), ls[|ls| - 1])
  }

  // Somebody who is not the probe records an outcome while the probe is out.
  predicate StaleRecord(s: Calls, l: Call) { l.Report? && l.who in s.out && s.b.halfOpen && l.who != s.probe }

  // Somebody is let in on the very instant the cooldown ends.
  predicate ExpiryAdmission(s: Calls, l: Call) {
    l.Enter? && Admits(s.b, l.now) && s.b.openUntil != ZERO_TIME && l.now == s.b.openUntil
  }

  predicate Clean(s: Calls, l: Call) { !StaleRecord(s, l) && !ExpiryAdmission(s, l) }

  ghost predicate CleanRun(s: Calls, ls: seq<Call>) {
    forall i :: 0 <= i < |ls| ==> Clean(RunCalls(s, ls[..i]), ls[i])
  }

  // The promise: after a trip, one admission at a time.
  predicate OneProbe(s: Calls) { |s.late| <= 1 }

  // What holds in every run.
  predicate Tracked(s: Calls) {
    && s.late <= s.out && (forall i :: i in s.out ==> i < s.next)
    && (s.b.halfOpen ==> s.probe in s.late && s.b.openUntil != ZERO_TIME)
  }

  // Whoever is out after a trip is the probe, and the breaker knows it.
  predicate Guarded(s: Calls) { s.late == {} || (s.b.halfOpen && s.late == {s.probe}) }

  lemma StepTracked(s: Calls, l: Call)
    requires Tracked(s)
    ensures Tracked(CallStep(s, l))
  {
  }

  // A step leaves the guarded states exactly when it is one of the two.
  lemma StepGuardedIff(s: Calls, l: Call)
    requires Tracked(s) && Guarded(s)
    ensures Guarded(CallStep(s, l)) <==> Clean(s, l)
  {
    if l.Enter? && Admits(s.b, l.now) {
      assert s.late == {} && {} + {s.next} == {s.next};
    } else if l.Report? && l.who in s.out && s.late != {} {
      assert s.late - {l.who} == if l.who == s.probe then {} else {s.probe};
    }
  }

  lemma {:induction false} CleanStaysGuarded(s: Calls, ls: seq<Call>)
    requires Tracked(s) && Guarded(s) && CleanRun(s, ls)
    ensures Tracked(RunCalls(s, ls)) && Guarded(RunCalls(s, ls))
  {
    if ls == [] {
    } else {
      var n := |ls| - 1;
      forall i | 0 <= i < n ensures Clean(RunCalls(s, ls[..n][..i]), ls[..n][i]) {
        assert ls[..n][..i] == ls[..i];
      }
      CleanStaysGuarded(s, ls[..n]);
      StepTracked(RunCalls(s, ls[..n]), ls[n]);
      StepGuardedIff(RunCalls(s, ls[..n]), ls[n]);
    }
  }

  lemma {:induction false} RunCons(s: Calls, l: Call, ls: seq<Call>)
    ensures RunCalls(s, [l] + ls) == RunCalls(CallStep(s, l), ls)
    decreases |ls|
  {
    if ls == [] {
      assert [l] + ls == [l] && [l][..0] == [];
    } else {
      assert ([l] + ls)[..|ls|] == [l] + ls[..|ls| - 1];
      RunCons(s, l, ls[..|ls| - 1]);
    }
  }

  // A clean first step and a clean rest.
  lemma CleanThen(s: Calls, l: Call, ls: seq<Call>)
    requires Clean(s, l) && CleanRun(CallStep(s, l), ls)
    ensures CleanRun(s, [l] + ls) && RunCalls(s, [l] + ls) == RunCalls(CallStep(s, l), ls)
  {
    var all := [l] + ls;
    RunCons(s, l, ls);
    forall i | 0 <= i < |all| ensures Clean(RunCalls(s, all[..i]), all[i]) {
      if i == 0 {
        assert all[..0] == [];
      } else {
        assert all[..i] == [l] + ls[..i - 1];
        RunCons(s, l, ls[..i - 1]);
      }
    }
  }

  // A closed breaker is tripped by callers that come and fail one after the other, whoever else is still out; then
  // another probe is let in.
  lemma {:induction false} TripAndProbe(s: Calls) returns (ls: seq<Call>)
    requires Tracked(s) && |s.late| == 1 && !s.b.halfOpen
    ensures CleanRun(s, ls) && !OneProbe(RunCalls(s, ls))
    decreases if s.b.openUntil != ZERO_TIME then 0 else 1, s.b.threshold - s.b.failures
  {
    if s.b.openUntil != ZERO_TIME {
      var probe := Enter(s.b.openUntil + 1);
      assert s.next !in s.late && CallStep(s, probe).late == s.late + {s.next};
      CleanThen(s, probe, []);
      ls := [probe] + [];
    } else {
      var t := if s.b.cooldown < 0 then 1 - s.b.cooldown else 1;
      var come, fail := Enter(t), Report(s.next, false, t);
      var s1 := CallStep(s, come);
      var s2 := CallStep(s1, fail);
      StepTracked(s, come);
      StepTracked(s1, fail);
      assert s2.late == s.late;
      var rest := TripAndProbe(s2);
      CleanThen(s1, fail, rest);
      CleanThen(s, come, [fail] + rest);
      ls := [come] + ([fail] + rest);
    }
  }

  // Whatever clean steps follow, there is at most one admission at a time.
  ghost predicate AlwaysOneProbe(s: Calls) { forall ls :: CleanRun(s, ls) ==> OneProbe(RunCalls(s, ls)) }

  lemma LoneLate(s: Calls)
    requires Tracked(s) && OneProbe(s) && !Guarded(s)
    ensures |s.late| == 1 && !s.b.halfOpen
  {
    var i :| i in s.late;
    assert |s.late - {i}| == 0;
    assert s.late - {i} == {};
    assert s.late == {i};
  }

  lemma GuardedIff(s: Calls)
    requires Tracked(s)
    ensures AlwaysOneProbe(s) <==> Guarded(s)
  {
    if Guarded(s) {
      forall ls | CleanRun(s, ls) ensures OneProbe(RunCalls(s, ls)) {
        CleanStaysGuarded(s, ls);
      }
    } else {
      assert CleanRun(s, []) && RunCalls(s, []) == s;
      if OneProbe(s) {
        LoneLate(s);
        var ls := TripAndProbe(s);
      }
    }
  }

  lemma {:induction false} RunTracked(s: Calls, ls: seq<Call>)
    requires Tracked(s)
    ensures Tracked(RunCalls(s, ls))
  {
    if ls == [] {
    } else {
      RunTracked(s, ls[..|ls| - 1]);
      StepTracked(RunCalls(s, ls[..|ls| - 1]), ls[|ls| - 1]);
    }
  }

  lemma GuardedStep(s: Calls, ls: seq<Call>, i: nat)
    requires Tracked(s) && i < |ls|
    requires AlwaysOneProbe(RunCalls(s, ls[..i])) && AlwaysOneProbe(RunCalls(s, ls[..i + 1]))
    ensures Clean(RunCalls(s, ls[..i]), ls[i])
  {
    RunTracked(s, ls[..i]);
    RunTracked(s, ls[..i + 1]);
    GuardedIff(RunCalls(s, ls[..i]));
    GuardedIff(RunCalls(s, ls[..i + 1]));
    assert ls[..i + 1][..i] == ls[..i];
    StepGuardedIff(RunCalls(s, ls[..i]), ls[i]);
  }

  // The promise is safe at every point of a run, whatever clean steps may follow, if and only if nobody but the probe
  // records an outcome while the probe is out, and nobody is let in on the instant the cooldown ends.
  lemma {:induction false} OneProbeRunIff(threshold: int, cooldown: int, ls: seq<Call>)
    ensures var s := NoCalls(threshold, cooldown);
            (forall i :: 0 <= i <= |ls| ==> AlwaysOneProbe(RunCalls(s, ls[..i]))) <==> CleanRun(s, ls)
  {
    var s := NoCalls(threshold, cooldown);
    if CleanRun(s, ls) {
      forall i | 0 <= i <= |ls| ensures AlwaysOneProbe(RunCalls(s, ls[..i])) {
        forall j | 0 <= j < i ensures Clean(RunCalls(s, ls[..i][..j]), ls[..i][j]) {
          assert ls[..i][..j] == ls[..j];
        }
        CleanStaysGuarded(s, ls[..i]);
        GuardedIff(RunCalls(s, ls[..i]));
      }
    }
    if forall i :: 0 <= i <= |ls| ==> AlwaysOneProbe(RunCalls(s, ls[..i])) {
      forall i | 0 <= i < |ls| ensures Clean(RunCalls(s, ls[..i]), ls[i]) {
        GuardedStep(s, ls, i);
      }
    }
  }

  // Two callers are let in before the trip. The first trips the breaker; a third becomes the probe; the second, late,
  // records its outcome. If that is a failure a second probe is let in while the first is still out; if it is a
  // success the breaker closes. No reading falls on the instant a cooldown ends.
  lemma StaleRecordFreesTheProbe(cooldown: int)
    requires cooldown > 0
    ensures var s1 := CallStep(CallStep(NoCalls(1, cooldown), Enter(1)), Enter(1));
            var s2 := CallStep(s1, Report(0, false, 1));
            var s3 := CallStep(s2, Enter(2 + cooldown));
            var failed := CallStep(CallStep(s3, Report(1, false, 2 + cooldown)), Enter(3 + 2 * cooldown));
            var closed := CallStep(s3, Report(1, true, 2 + cooldown));
            && Guarded(s3) && s3.late == {2} && s3.b.halfOpen
            && failed.late == {2, 3} && failed.b.halfOpen && failed.probe == 3
            && closed.late == {2} && !closed.b.halfOpen && closed.b.openUntil == ZERO_TIME
  {
  }

  // ---- Trip and recover ----

  // Every outcome of a probe: success closes the breaker and leaves it as new, failure reopens it for a full cooldown.
  lemma ProbeOutcome(b: State, ok: bool, now: int, later: int)
    requires b.halfOpen
    ensures ok ==> RecordStep(b, ok, now) == Fresh(b.threshold, b.cooldown)
    ensures !ok ==> RecordStep(b, ok, now).failures == b.failures
    ensures !RecordStep(b, ok, now).halfOpen
    ensures ok ==> (Admits(RecordStep(b, ok, now), later) <==> later >= ZERO_TIME)
    ensures !ok ==> (Admits(RecordStep(b, ok, now), later) <==> later >= now + b.cooldown)
  {
  }

  function FailTimes(b: State, now: int, n: nat): State {
    if n == 0 then b else RecordStep(FailTimes(b, now, n - 1), false, now)
  }

  // A closed breaker opens on exactly the threshold-th failure in a row (the first, if the threshold is below 1).
  lemma {:induction false} TripsAtThreshold(b: State, now: int, n: nat)
    requires !b.halfOpen && b.failures == 0 && b.openUntil == ZERO_TIME && now + b.cooldown > ZERO_TIME
    ensures var b' := FailTimes(b, now, n);
            && !b'.halfOpen && b'.failures == n && b'.threshold == b.threshold && b'.cooldown == b.cooldown
            && (b'.openUntil != ZERO_TIME <==> n >= Max(1, b.threshold))
  {
    if n == 0 {
    } else {
      TripsAtThreshold(b, now, n - 1);
    }
  }

  // ---- Any sequence of outcomes ----

  datatype Outcome = Outcome(ok: bool, at: int)

  function Records(b: State, os: seq<Outcome>): State {
    if os == [] then b else RecordStep(Records(b, os[..|os| - 1]), os[|os| - 1].ok, os[|os| - 1].at)
  }

  // How many failures in a row os ends with.
  function Streak(os: seq<Outcome>): nat {
    if os == [] || os[|os| - 1].ok then 0 else Streak(os[..|os| - 1]) + 1
  }

  lemma {:induction false} StreakIff(os: seq<Outcome>, m: nat)
    ensures Streak(os) >= m <==> m <= |os| && forall i :: |os| - m <= i < |os| ==> !os[i].ok
  {
    if os == [] || m == 0 {
    } else {
      var init := os[..|os| - 1];
      StreakIff(init, m - 1);
      if m <= |os| && !os[|os| - 1].ok && forall i :: |init| - (m - 1) <= i < |init| ==> !init[i].ok {
        forall i | |os| - m <= i < |os| ensures !os[i].ok {
          assert i < |init| ==> os[i] == init[i];
        }
      }
    }
  }

  // When a breaker that starts closed is open until: a cooldown after the last failure that made, or prolonged, a
  // streak as long as the threshold.
  function OpenedBy(os: seq<Outcome>, threshold: int, cooldown: int): int {
    if os == [] then ZERO_TIME
    else if Streak(os) >= Max(1, threshold) then os[|os| - 1].at + cooldown
    else OpenedBy(os[..|os| - 1], threshold, cooldown)
  }

  // Whatever is recorded on a closed breaker, its count is the current streak of failures, and it opens by streaks only:
  // a success clears the count.
  lemma {:induction false} RecordsAre(b: State, os: seq<Outcome>)
    requires b == Fresh(b.threshold, b.cooldown)
    ensures Records(b, os) == State(Streak(os), b.threshold, b.cooldown, OpenedBy(os, b.threshold, b.cooldown), false)
  {
    if os == [] {
    } else {
      RecordsAre(b, os[..|os| - 1]);
    }
  }

  // So it opens, for the first time, exactly when the last max(1, threshold) outcomes are all failures. The same holds
  // after a successful probe, which leaves the breaker as new (see ProbeOutcome).
  lemma OpensIff(b: State, os: seq<Outcome>, o: Outcome)
    requires b == Fresh(b.threshold, b.cooldown) && Records(b, os).openUntil == ZERO_TIME && o.at + b.cooldown != ZERO_TIME
    ensures var all, m := os + [o], Max(1, b.threshold);
            && (Records(b, all).openUntil != ZERO_TIME
                <==> m <= |all| && forall i :: |all| - m <= i < |all| ==> !all[i].ok)
            && (Records(b, all).openUntil != ZERO_TIME ==> Records(b, all).openUntil == o.at + b.cooldown)
  {
    var all := os + [o];
    RecordsAre(b, os);
    RecordsAre(b, all);
    StreakIff(all, Max(1, b.threshold));
    assert all[..|all| - 1] == os;
  }
}
