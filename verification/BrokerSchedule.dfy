/** The backoff schedule: when a redelivery can come, and exactly when the schedule is kept. */
module BrokerSchedule {
  import opened Int64
  import opened Option
  import opened B = Broker
  import opened BrokerRuns
  import opened BrokerOrder

  // The sum of the delays before delivery n: 1 + 2 + 4 + ... times the base.
  function Backoffs(backoff: int, n: nat): int {
    if n <= 1 then 0 else Backoffs(backoff, n - 1) + backoff * Pow2(n - 2)
  }

  lemma {:induction false} BackoffsClosedForm(backoff: int, n: nat)
    requires n >= 1
    ensures Backoffs(backoff, n) == backoff * (Pow2(n - 1) - 1)
  {
    if n == 1 {
    } else {
      BackoffsClosedForm(backoff, n - 1);
      assert Pow2(n - 1) == 2 * Pow2(n - 2);
      assert backoff * (Pow2(n - 1) - 1) == backoff * (Pow2(n - 2) - 1) + backoff * Pow2(n - 2);
    }
  }

  // The largest delay that the cap allows does not overflow the int64 duration; a base that is not positive delays
  // nobody in any case.
  predicate DelaysFit(max: int, backoff: int64) {
    backoff <= 0 || max < 2 || Fits(backoff * Pow2(max - 2))
  }

  lemma {:induction false} Pow2Grows(j: nat, k: nat)
    requires j <= k
    ensures Pow2(j) <= Pow2(k)
    decreases k
  {
    if j == k {
    } else {
      Pow2Grows(j, k - 1);
    }
  }

  lemma TimesGrows(x: int, y: nat, z: nat)
    requires x >= 0 && y <= z
    ensures 0 <= x * y <= x * z
  {
  }

  lemma WrapNotBelow(x: int)
    requires x <= MAX
    ensures Wrap(x) >= x
  {
  }

  // Then no delay within the cap comes out shorter than it should be.
  lemma DelayHolds(max: int, backoff: int64, k: nat)
    requires DelaysFit(max, backoff) && k + 2 <= max
    ensures ShiftLeft(backoff, k) >= backoff * Pow2(k)
  {
    if backoff > 0 {
      Pow2Grows(k, max - 2);
      TimesGrows(backoff, Pow2(k), Pow2(max - 2));
    } else {
      TimesGrows(-(backoff as int), 0, Pow2(k));
    }
    WrapNotBelow(backoff * Pow2(k));
  }

  // At instant `at` a message on delivery n is not ahead of its schedule, and n is within the cap.
  predicate Timely(max: int, backoff: int64, m: Message, at: int) {
    || (m.attempts == 1 && m.firstFailedAt == ZERO_TIME)
    || (2 <= m.attempts <= max && m.firstFailedAt > ZERO_TIME && at >= m.firstFailedAt + Backoffs(backoff, m.attempts))
  }

  function OnTime(id: string, max: int, backoff: int64): Pending -> bool {
    (p: Pending) => p.msg.id == id ==> Timely(max, backoff, p.msg, p.visibleAt)
  }

  function OnTimeAt(id: string, max: int, backoff: int64, clock: int): Message -> bool {
    (m: Message) => m.id == id ==> Timely(max, backoff, m, clock)
  }

  ghost predicate Scheduled(s: System, id: string, max: int, backoff: int64, clock: int) {
    && s.b.maxAttempts == max && s.b.backoff == backoff && clock > ZERO_TIME
    && AllPending(s.b, OnTime(id, max, backoff)) && AllHands(s, OnTimeAt(id, max, backoff, clock))
  }

  lemma RetryTimely(b: State, queue: string, m: Message, reason: string, clock: int, t1: int, t2: int)
    requires Timely(b.maxAttempts, b.backoff, m, clock) && m.attempts < b.maxAttempts
    requires DelaysFit(b.maxAttempts, b.backoff) && ZERO_TIME < clock <= t1 <= t2
    ensures !ShiftPanics(m)
    ensures var p := Parked(b, queue, m, reason, t1, t2); Timely(b.maxAttempts, b.backoff, p.msg, p.visibleAt)
  {
    DelayHolds(b.maxAttempts, b.backoff, m.attempts - 1);
  }

  lemma StepScheduled(s: System, l: Label, id: string, max: int, backoff: int64, clock: int, clock': int)
    requires Scheduled(s, id, max, backoff, clock) && Ticks(clock, l, clock') && DelaysFit(max, backoff)
    requires l.Publish? && l.msg.id == id ==> l.msg.attempts == 0 && l.msg.firstFailedAt == ZERO_TIME
    ensures Scheduled(Step(s, l), id, max, backoff, clock')
  {
    if Enabled(s, l) {
      match l
      case Publish(q, m) => PublishKeeps(s.b, q, m, OnTime(id, max, backoff));
      case Poll(c, q, now, ids) =>
        PromoteFrame(s.b, ids);
        PromoteKeeps(s.b, ids, OnTime(id, max, backoff));
        TakeKeeps(Promote(s.b, ids), q, now, OnTime(id, max, backoff));
      case Finish(c, o, t1, t2) =>
        var h := s.hands[c].value;
        match Judge(s.b.maxAttempts, h.msg, o) {
          case Retry(reason) =>
            if h.msg.id == id {
              RetryTimely(s.b, h.queue, h.msg, reason, clock, t1, t2);
            }
            if !ShiftPanics(h.msg) {
              ParkKeeps(s, c, reason, t1, t2, OnTime(id, max, backoff));
            }
          case _ =>
        }
    }
  }

  lemma TimelyClosedForm(max: int, backoff: int64, m: Message, at: int)
    requires Timely(max, backoff, m, at) && m.attempts >= 2
    ensures at >= m.firstFailedAt + backoff * (Pow2(m.attempts - 1) - 1)
  {
    BackoffsClosedForm(backoff, m.attempts);
  }

  ghost predicate PublishedFresh(ls: seq<Label>, id: string) {
    forall i :: 0 <= i < |ls| && ls[i].Publish? && ls[i].msg.id == id ==>
      ls[i].msg.attempts == 0 && ls[i].msg.firstFailedAt == ZERO_TIME
  }

  lemma {:induction false} MessagesAreScheduled(n: nat, max: int, backoff: int64, t0: int, ls: seq<Label>, id: string)
    requires t0 > ZERO_TIME && Monotone(t0, ls) && DelaysFit(max, backoff) && PublishedFresh(ls, id)
    ensures Scheduled(Run(Init(n, max, backoff), ls), id, max, backoff, LastRead(t0, ls))
  {
    if ls == [] {
    } else {
      var init, l := ls[..|ls| - 1], ls[|ls| - 1];
      MessagesAreScheduled(n, max, backoff, t0, init, id);
      StepScheduled(Run(Init(n, max, backoff), init), l, id, max, backoff, LastRead(t0, init), LastRead(t0, ls));
    }
  }

  // A message published fresh is delivered for attempt n >= 2 no earlier than
  // FirstFailedAt + backoff * (2^(n-1) - 1), and never for more than max(1, maxAttempts) attempts.
  lemma DeliveredOnSchedule(n: nat, max: int, backoff: int64, t0: int, ls: seq<Label>, c: nat, queue: string, now: int,
                            ids: seq<string>)
    requires var all := ls + [Poll(c, queue, now, ids)];
             && t0 > ZERO_TIME && Monotone(t0, all) && DelaysFit(max, backoff)
             && c < n && var s := Run(Init(n, max, backoff), all);
                c < |s.hands| && s.hands[c].Some? && PublishedFresh(all, s.hands[c].value.msg.id)
    ensures var m := Run(Init(n, max, backoff), ls + [Poll(c, queue, now, ids)]).hands[c].value.msg;
            && 1 <= m.attempts <= (if max < 1 then 1 else max)
            && (m.attempts >= 2 ==> now >= m.firstFailedAt + backoff * (Pow2(m.attempts - 1) - 1))
  {
    var all := ls + [Poll(c, queue, now, ids)];
    var m := Run(Init(n, max, backoff), all).hands[c].value.msg;
    MessagesAreScheduled(n, max, backoff, t0, all, m.id);
    assert Timely(max, backoff, m, now);
    if m.attempts >= 2 {
      TimelyClosedForm(max, backoff, m, now);
    }
  }

  // ---- Exactly when the schedule holds ----

  ghost predicate AllFresh(ls: seq<Label>) {
    forall i :: 0 <= i < |ls| && ls[i].Publish? ==> ls[i].msg.attempts == 0 && ls[i].msg.firstFailedAt == ZERO_TIME
  }

  // No message in a hand is ahead of its schedule.
  ghost predicate OnSchedule(s: System, backoff: int64, clock: int) {
    forall c :: 0 <= c < |s.hands| && s.hands[c].Some? && s.hands[c].value.msg.attempts >= 2 ==>
      var m := s.hands[c].value.msg; clock >= m.firstFailedAt + Backoffs(backoff, m.attempts)
  }

  // In every run, of any number of consumers under any monotone clock.
  ghost predicate ScheduleHolds(max: int, backoff: int64) {
    forall n: nat, t0, ls :: t0 > ZERO_TIME && Monotone(t0, ls) && AllFresh(ls) ==>
      OnSchedule(Run(Init(n, max, backoff), ls), backoff, LastRead(t0, ls))
  }

  lemma RunOnSchedule(n: nat, max: int, backoff: int64, t0: int, ls: seq<Label>)
    requires DelaysFit(max, backoff) && t0 > ZERO_TIME && Monotone(t0, ls) && AllFresh(ls)
    ensures OnSchedule(Run(Init(n, max, backoff), ls), backoff, LastRead(t0, ls))
  {
    var s := Run(Init(n, max, backoff), ls);
    forall c | 0 <= c < |s.hands| && s.hands[c].Some? && s.hands[c].value.msg.attempts >= 2
      ensures var m := s.hands[c].value.msg; LastRead(t0, ls) >= m.firstFailedAt + Backoffs(backoff, m.attempts)
    {
      MessagesAreScheduled(n, max, backoff, t0, ls, s.hands[c].value.msg.id);
    }
  }

  // An overflowing delay comes out shorter than it should be; how much shorter, and whether the deadline even lies
  // in the future, depends on the bits that are left.
  lemma OverflowedDelayIsEarly(b: State, queue: string, m: Message, reason: string, t1: int, t2: int)
    requires b.backoff > 0 && m.attempts >= 1
    ensures Parked(b, queue, m, reason, t1, t2).visibleAt < t2 + b.backoff * Pow2(m.attempts - 1)
            <==> !Fits(b.backoff * Pow2(m.attempts - 1))
  {
    assert b.backoff * Pow2(m.attempts - 1) > 0;
  }

  // A base of 2^62 ns overflows on the second redelivery into a deadline before the failure itself.
  lemma OverflowedDelayIsInThePast(b: State, queue: string, m: Message, reason: string, t1: int, t2: int)
    requires b.backoff == 0x4000_0000_0000_0000 && m.attempts == 2
    ensures !ShiftPanics(m) && Parked(b, queue, m, reason, t1, t2).visibleAt < t2
  {
  }

  // A lone consumer, holding m, with nothing else about.
  ghost predicate OnlyHolds(s: System, m: Message, max: int, backoff: int64) {
    && s.hands == [Some(Hand("", m))] && s.b.inflight == map[] && Queue(s.b.ready, "") == [] && m.queue == ""
    && !s.crashed && s.b.maxAttempts == max && s.b.backoff == backoff
  }

  lemma FirstDelivery(max: int, backoff: int64) returns (ls: seq<Label>, m: Message)
    ensures Monotone(1, ls) && AllFresh(ls) && LastRead(1, ls) == 1
    ensures OnlyHolds(Run(Init(1, max, backoff), ls), m, max, backoff) && m.attempts == 1 && m.firstFailedAt == ZERO_TIME
  {
    var msg := Message("", "", "", 0, "", "", ZERO_TIME);
    var publish := Publish("", msg);
    var poll := Poll(0, "", 1, []);
    ls, m := [publish, poll], Stored("", msg);
    assert ls[..1] == [publish] && [publish][..0] == [];
    var s := PublishSys(Init(1, max, backoff), "", msg);
    assert Run(Init(1, max, backoff), [publish]) == s;
    assert Monotone(1, []) && Monotone(1, [publish]) && LastRead(1, [publish]) == 1;
    assert Queue(s.b.ready, "") == [Pending(m, ZERO_TIME)] && s.hands == [None];
    assert Walk([], Due(s.b, 1));
  }

  // Nothing about but one parked message.
  ghost predicate OnlyParked(s: System, p: Pending, max: int, backoff: int64) {
    && s.hands == [None] && s.b.inflight == map[p.msg.id := p] && Queue(s.b.ready, "") == [] && p.msg.queue == ""
    && !s.crashed && s.b.maxAttempts == max && s.b.backoff == backoff
  }

  lemma Fail(s: System, m: Message, max: int, backoff: int64, t: int)
    requires OnlyHolds(s, m, max, backoff) && 1 <= m.attempts < max
    ensures OnlyParked(Step(s, Finish(0, Retryable(""), t, t)), Parked(s.b, "", m, "", t, t), max, backoff)
  {
  }

  lemma PromoteLone(b: State, p: Pending)
    requires b.inflight == map[p.msg.id := p] && Queue(b.ready, "") == [] && p.msg.queue == ""
    ensures var b' := Promote(b, [p.msg.id]);
            && b'.inflight == map[] && Queue(b'.ready, "") == [p]
            && b'.maxAttempts == b.maxAttempts && b'.backoff == b.backoff
  {
    assert [p.msg.id][..0] == [] && Promote(b, []) == b;
    assert Promote(b, [p.msg.id]) == PromoteOne(b, p.msg.id);
  }

  // It fails retryably at t and is delivered again as soon as that is possible.
  lemma FailAndRedeliver(s: System, m: Message, max: int, backoff: int64, t: int, now: int)
    requires OnlyHolds(s, m, max, backoff) && 1 <= m.attempts < max
    requires now >= t + ShiftLeft(backoff, m.attempts - 1)
    ensures var s' := Step(Step(s, Finish(0, Retryable(""), t, t)), Poll(0, "", now, [m.id]));
            OnlyHolds(s', Stamp(m, t).(attempts := m.attempts + 1, reason := ""), max, backoff)
  {
    Fail(s, m, max, backoff, t);
    var s1, p := Step(s, Finish(0, Retryable(""), t, t)), Parked(s.b, "", m, "", t, t);
    assert Walk([m.id], Due(s1.b, now));
    PromoteLone(s1.b, p);
    assert FirstVisible([p], now) == 0;
  }

  lemma RunTwoMore(s: System, ls: seq<Label>, a: Label, b: Label)
    ensures Run(s, ls + [a, b]) == Step(Step(Run(s, ls), a), b)
  {
    assert (ls + [a, b])[..|ls| + 1] == ls + [a];
    assert (ls + [a])[..|ls|] == ls;
  }

  lemma ClockTwoMore(t0: int, ls: seq<Label>, a: Label, b: Label)
    requires Monotone(t0, ls) && a.Finish? && b.Poll? && LastRead(t0, ls) <= a.t1 <= a.t2 <= b.now
    ensures Monotone(t0, ls + [a, b]) && LastRead(t0, ls + [a, b]) == b.now
  {
    assert (ls + [a, b])[..|ls| + 1] == ls + [a];
    assert (ls + [a])[..|ls|] == ls;
    assert Monotone(t0, ls + [a]);
  }

  // The run that goes on like that.
  lemma Continue(max: int, backoff: int64, init: seq<Label>, m: Message, now: int) returns (ls: seq<Label>, m': Message)
    requires Monotone(1, init) && AllFresh(init) && OnlyHolds(Run(Init(1, max, backoff), init), m, max, backoff)
    requires 1 <= m.attempts < max
    requires now >= LastRead(1, init) && now >= LastRead(1, init) + ShiftLeft(backoff, m.attempts - 1)
    ensures Monotone(1, ls) && AllFresh(ls) && LastRead(1, ls) == now
    ensures OnlyHolds(Run(Init(1, max, backoff), ls), m', max, backoff)
    ensures m'.attempts == m.attempts + 1 && m'.firstFailedAt == Stamp(m, LastRead(1, init)).firstFailedAt
  {
    var t := LastRead(1, init);
    var fail, poll := Finish(0, Retryable(""), t, t), Poll(0, "", now, [m.id]);
    FailAndRedeliver(Run(Init(1, max, backoff), init), m, max, backoff, t, now);
    RunTwoMore(Init(1, max, backoff), init, fail, poll);
    ClockTwoMore(1, init, fail, poll);
    ls, m' := init + [fail, poll], Stamp(m, t).(attempts := m.attempts + 1, reason := "");
  }

  // As long as the delays fit, a message can be failed and delivered right on schedule.
  lemma {:induction false} Climb(max: int, backoff: int64, j: nat) returns (ls: seq<Label>, m: Message)
    requires backoff > 0 && 1 <= j && (j == 1 || j <= max)
    requires forall k: nat :: k + 2 <= j ==> Fits(backoff * Pow2(k))
    ensures Monotone(1, ls) && AllFresh(ls) && LastRead(1, ls) == 1 + Backoffs(backoff, j)
    ensures OnlyHolds(Run(Init(1, max, backoff), ls), m, max, backoff)
    ensures m.attempts == j && m.firstFailedAt == if j == 1 then ZERO_TIME else 1
    decreases j
  {
    if j == 1 {
      ls, m := FirstDelivery(max, backoff);
    } else {
      var init, before := Climb(max, backoff, j - 1);
      TimesGrows(backoff, 1, Pow2(j - 2));
      assert Fits(backoff * Pow2(j - 2));
      ls, m := Continue(max, backoff, init, before, 1 + Backoffs(backoff, j));
    }
  }

  // The first delay that does not fit.
  lemma FirstOverflow(max: int, backoff: int64) returns (k: nat)
    requires !DelaysFit(max, backoff)
    ensures k + 2 <= max && !Fits(backoff * Pow2(k)) && forall j: nat :: j < k ==> Fits(backoff * Pow2(j))
  {
    k := 0;
    while Fits(backoff * Pow2(k))
      invariant k + 2 <= max
      invariant forall j: nat :: j < k ==> Fits(backoff * Pow2(j))
      decreases max - k
    {
      k := k + 1;
    }
  }

  lemma IsEarly(s: System, m: Message, max: int, backoff: int64, clock: int)
    requires OnlyHolds(s, m, max, backoff) && m.attempts >= 2
    requires clock < m.firstFailedAt + Backoffs(backoff, m.attempts)
    ensures !OnSchedule(s, backoff, clock)
  {
    assert s.hands[0].Some? && s.hands[0].value.msg == m;
  }

  // A run in which a message, published fresh, is delivered ahead of its schedule.
  lemma EarlyDelivery(max: int, backoff: int64) returns (ls: seq<Label>)
    requires !DelaysFit(max, backoff)
    ensures Monotone(1, ls) && AllFresh(ls) && !OnSchedule(Run(Init(1, max, backoff), ls), backoff, LastRead(1, ls))
  {
    var k := FirstOverflow(max, backoff);
    var init, m := Climb(max, backoff, k + 1);
    var t, delay := 1 + Backoffs(backoff, k + 1), ShiftLeft(backoff, k);
    TimesGrows(backoff, 1, Pow2(k));
    var now := if delay < 0 then t else t + delay;
    assert now < 1 + Backoffs(backoff, k + 2);
    var m': Message;
    ls, m' := Continue(max, backoff, init, m, now);
    IsEarly(Run(Init(1, max, backoff), ls), m', max, backoff, now);
  }

  // The schedule is kept in every run if and only if no delay within the cap can overflow.
  lemma ScheduleHoldsIff(max: int, backoff: int64)
    ensures ScheduleHolds(max, backoff) <==> DelaysFit(max, backoff)
  {
    if DelaysFit(max, backoff) {
      forall n: nat, t0, ls | t0 > ZERO_TIME && Monotone(t0, ls) && AllFresh(ls)
        ensures OnSchedule(Run(Init(n, max, backoff), ls), backoff, LastRead(t0, ls))
      {
        RunOnSchedule(n, max, backoff, t0, ls);
      }
    } else {
      var ls := EarlyDelivery(max, backoff);
    }
  }
}
