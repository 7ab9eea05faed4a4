/** Order and time in the broker: first deliveries, the backoff schedule, the failure stamp. */
module BrokerOrder {
  import opened Int64
  import opened Sequences
  import opened Option
  import opened B = Broker
  import opened BrokerRuns

  // ---- First deliveries are FIFO ----

  // The first deliveries to a queue among the messages of a log.
  function Firsts(ms: seq<Message>, queue: string): seq<Message> {
    if ms == [] then []
    else
      var m := ms[|ms| - 1];
      Firsts(ms[..|ms| - 1], queue) + if m.queue == queue && m.attempts == 1 then [m] else []
  }

  function FirstsWaiting(ps: seq<Pending>): seq<Message> {
    if ps == [] then []
    else
      var m := ps[|ps| - 1].msg;
      FirstsWaiting(ps[..|ps| - 1]) + if m.attempts == 1 then [m] else []
  }

  lemma {:induction false} FirstsWaitingSplit(a: seq<Pending>, b: seq<Pending>)
    ensures FirstsWaiting(a + b) == FirstsWaiting(a) + FirstsWaiting(b)
  {
    if b == [] {
      assert a + b == a;
    } else {
      assert (a + b)[..|a + b| - 1] == a + b[..|b| - 1];
      FirstsWaitingSplit(a, b[..|b| - 1]);
    }
  }

  lemma {:induction false} NoFirsts(ps: seq<Pending>)
    requires forall i :: 0 <= i < |ps| ==> ps[i].msg.attempts != 1
    ensures FirstsWaiting(ps) == []
  {
    if ps == [] {
    } else {
      NoFirsts(ps[..|ps| - 1]);
    }
  }

  // A message that has never failed is visible from the start; a parked one has been delivered before.
  function Unfailed(): Pending -> bool { (p: Pending) => p.msg.attempts == 1 ==> p.visibleAt == ZERO_TIME }

  ghost predicate ParkedAreRedeliveries(b: State) {
    forall id :: id in b.inflight ==> b.inflight[id].msg.attempts >= 2
  }

  ghost predicate Fifo(s: System, queue: string) {
    Firsts(s.delivered, queue) + FirstsWaiting(Queue(s.b.ready, queue)) == Firsts(s.published, queue)
  }

  lemma {:induction false} PromoteFirsts(b: State, ids: seq<string>, queue: string)
    requires ParkedAreRedeliveries(b)
    ensures FirstsWaiting(Queue(Promote(b, ids).ready, queue)) == FirstsWaiting(Queue(b.ready, queue))
    ensures ParkedAreRedeliveries(Promote(b, ids))
  {
    if ids == [] {
    } else {
      PromoteFirsts(b, ids[..|ids| - 1], queue);
      var b', id := Promote(b, ids[..|ids| - 1]), ids[|ids| - 1];
      if id in b'.inflight {
        var p := b'.inflight[id];
        var q := Queue(b'.ready, p.msg.queue);
        assert (q + [p])[..|q|] == q;
      }
    }
  }

  lemma FirstsAround(before: seq<Pending>, p: Pending, after: seq<Pending>)
    ensures FirstsWaiting((before + [p]) + after)
            == FirstsWaiting(before) + ((if p.msg.attempts == 1 then [p.msg] else []) + FirstsWaiting(after))
  {
    FirstsWaitingSplit(before + [p], after);
    FirstsWaitingSplit(before, [p]);
    assert [p][..0] == [];
  }

  // Taking the first visible message takes the first of the firsts, or none of them.
  lemma TakeFirsts(q: seq<Pending>, i: nat, now: int)
    requires i < |q| && FirstVisible(q, now) == i
    requires forall j :: 0 <= j < |q| && q[j].msg.attempts == 1 ==> q[j].visibleAt == ZERO_TIME
    ensures FirstsWaiting(q) == (if q[i].msg.attempts == 1 then [q[i].msg] else []) + FirstsWaiting(Without(q, i))
  {
    SplitAt(q, i);
    FirstsAround(q[..i], q[i], q[i + 1..]);
    FirstsWaitingSplit(q[..i], q[i + 1..]);
    if q[i].msg.attempts == 1 {
      forall j | 0 <= j < i ensures q[..i][j].msg.attempts != 1 {
        assert now < q[j].visibleAt;
      }
      NoFirsts(q[..i]);
    }
  }

  lemma FirstsPush(ms: seq<Message>, m: Message, queue: string)
    ensures Firsts(ms + [m], queue) == Firsts(ms, queue) + if m.queue == queue && m.attempts == 1 then [m] else []
  {
  }

  lemma Reassociate<T>(a: seq<T>, b: seq<T>, c: seq<T>)
    ensures (a + b) + c == a + (b + c)
  {
  }

  // The first visible message moves from the queue to the log of deliveries.
  lemma HandOverFirst(delivered: seq<Message>, q: seq<Pending>, i: nat, now: int, queue: string)
    requires i < |q| && FirstVisible(q, now) == i && q[i].msg.queue == queue
    requires forall j :: 0 <= j < |q| && q[j].msg.attempts == 1 ==> q[j].visibleAt == ZERO_TIME
    ensures Firsts(delivered + [q[i].msg], queue) + FirstsWaiting(Without(q, i))
            == Firsts(delivered, queue) + FirstsWaiting(q)
  {
    var m := q[i].msg;
    FirstsPush(delivered, m, queue);
    TakeFirsts(q, i, now);
    Reassociate(Firsts(delivered, queue), if m.attempts == 1 then [m] else [], FirstsWaiting(Without(q, i)));
  }

  lemma TakeOwnFifo(s: System, c: nat, queue: string, now: int)
    requires Shaped(s) && c < |s.hands| && Fifo(s, queue) && AllPending(s.b, Unfailed())
    ensures Fifo(TakeSys(s, c, queue, now), queue)
  {
    var q := Queue(s.b.ready, queue);
    var i := FirstVisible(q, now);
    if i >= 0 {
      forall j | 0 <= j < |q| && q[j].msg.attempts == 1 ensures q[j].visibleAt == ZERO_TIME {
        assert Unfailed()(s.b.ready[queue][j]);
      }
      HandOverFirst(s.delivered, q, i, now, queue);
    }
  }

  lemma TakeOtherFifo(s: System, c: nat, queue: string, now: int, target: string)
    requires Shaped(s) && c < |s.hands| && target != queue && Fifo(s, target)
    ensures Fifo(TakeSys(s, c, queue, now), target)
  {
    var q := Queue(s.b.ready, queue);
    var i := FirstVisible(q, now);
    if i >= 0 {
      FirstsPush(s.delivered, q[i].msg, target);
    }
  }

  lemma TakeFifo(s: System, c: nat, queue: string, now: int, target: string)
    requires Shaped(s) && c < |s.hands| && Fifo(s, target) && AllPending(s.b, Unfailed())
    ensures Fifo(TakeSys(s, c, queue, now), target)
  {
    if target == queue {
      TakeOwnFifo(s, c, queue, now);
    } else {
      TakeOtherFifo(s, c, queue, now, target);
    }
  }

  lemma PublishFifo(s: System, queue: string, msg: Message, target: string)
    requires Fifo(s, target)
    ensures Fifo(PublishSys(s, queue, msg), target)
  {
    var m := Stored(queue, msg);
    assert (s.published + [m])[..|s.published|] == s.published;
    var q, p := Queue(s.b.ready, queue), Pending(m, ZERO_TIME);
    assert (q + [p])[..|q|] == q;
  }

  ghost predicate FifoInvariant(s: System, queue: string) {
    Shaped(s) && Fifo(s, queue) && AllPending(s.b, Unfailed()) && ParkedAreRedeliveries(s.b)
  }

  lemma StepFifo(s: System, l: Label, queue: string)
    requires FifoInvariant(s, queue)
    ensures FifoInvariant(Step(s, l), queue)
  {
    StepShaped(s, l);
    if Enabled(s, l) {
      match l
      case Publish(q, m) =>
        PublishFifo(s, q, m, queue);
        PublishKeeps(s.b, q, m, Unfailed());
      case Poll(c, q, now, ids) =>
        PromoteFirsts(s.b, ids, queue);
        PromoteKeeps(s.b, ids, Unfailed());
        PromoteShaped(s, ids);
        TakeFifo(s.(b := Promote(s.b, ids)), c, q, now, queue);
        TakeKeeps(Promote(s.b, ids), q, now, Unfailed());
      case Finish(c, o, t1, t2) =>
        match Judge(s.b.maxAttempts, s.hands[c].value.msg, o) {
          case Retry(reason) =>
            if !ShiftPanics(s.hands[c].value.msg) {
              ParkKeeps(s, c, reason, t1, t2, Unfailed());
            }
          case _ =>
        }
    }
  }

  // Whatever fails, across any number of consumers: the first deliveries of a queue are a prefix of the order in
  // which its messages were published, and those still to come are waiting in that order.
  lemma {:induction false} FirstDeliveriesAreFifo(n: nat, max: int, backoff: int64, ls: seq<Label>, queue: string)
    ensures var s := Run(Init(n, max, backoff), ls);
            FifoInvariant(s, queue) && Firsts(s.delivered, queue) <= Firsts(s.published, queue)
  {
    if ls == [] {
    } else {
      FirstDeliveriesAreFifo(n, max, backoff, ls[..|ls| - 1], queue);
      StepFifo(Run(Init(n, max, backoff), ls[..|ls| - 1]), ls[|ls| - 1], queue);
    }
  }

  // ---- The clock ----

  // The last reading of the clock, t0 before any.
  function LastRead(t0: int, ls: seq<Label>): int {
    if ls == [] then t0
    else match ls[|ls| - 1]
      case Publish(_, _) => LastRead(t0, ls[..|ls| - 1])
      case Poll(_, _, now, _) => now
      case Finish(_, _, _, t2) => t2
  }

  ghost predicate Ticks(clock: int, l: Label, clock': int) {
    match l
    case Publish(_, _) => clock' == clock
    case Poll(_, _, now, _) => clock <= now == clock'
    case Finish(_, _, t1, t2) => clock <= t1 <= t2 == clock'
  }

  ghost predicate Monotone(t0: int, ls: seq<Label>) {
    ls == [] ||
    (var init := ls[..|ls| - 1];
     Monotone(t0, init) && Ticks(LastRead(t0, init), ls[|ls| - 1], LastRead(t0, ls)))
  }

  // ---- Under a monotone clock, ready means visible ----

  ghost predicate ReadyBy(b: State, clock: int) {
    forall q, i :: q in b.ready && 0 <= i < |b.ready[q]| ==> b.ready[q][i].visibleAt <= clock
  }

  lemma {:induction false} PromoteReady(b: State, ids: seq<string>, now: int)
    requires ReadyBy(b, now) && forall id :: id in ids ==> id in Due(b, now)
    ensures ReadyBy(Promote(b, ids), now)
    ensures forall id :: id in Promote(b, ids).inflight <==> id in b.inflight && id !in ids
    ensures forall id :: id in Promote(b, ids).inflight ==> Promote(b, ids).inflight[id] == b.inflight[id]
  {
    if ids == [] {
    } else {
      var init, id := ids[..|ids| - 1], ids[|ids| - 1];
      assert ids == init + [id];
      PromoteReady(b, init, now);
      assert id in Due(b, now);
      assert id in Promote(b, init).inflight ==> Promote(b, init).inflight[id].visibleAt <= now;
    }
  }

  lemma TakeReady(b: State, queue: string, now: int, clock: int)
    requires ReadyBy(b, clock)
    ensures ReadyBy(TakeStep(b, queue, now).0, clock)
  {
  }

  lemma {:induction false} ReadyIsVisible(n: nat, max: int, backoff: int64, t0: int, ls: seq<Label>)
    requires t0 >= ZERO_TIME && Monotone(t0, ls)
    ensures ReadyBy(Run(Init(n, max, backoff), ls).b, LastRead(t0, ls)) && LastRead(t0, ls) >= ZERO_TIME
  {
    if ls == [] {
    } else {
      var init, l := ls[..|ls| - 1], ls[|ls| - 1];
      var s := Run(Init(n, max, backoff), init);
      ReadyIsVisible(n, max, backoff, t0, init);
      if Enabled(s, l) && l.Poll? {
        PromoteReady(s.b, l.ids, l.now);
        TakeReady(Promote(s.b, l.ids), l.queue, l.now, l.now);
      }
    }
  }

  // So a poll always takes the head of its ready queue: the scan past invisible messages never happens.
  lemma PollTakesTheHead(n: nat, max: int, backoff: int64, t0: int, ls: seq<Label>, queue: string, now: int, ids: seq<string>)
    requires t0 >= ZERO_TIME && Monotone(t0, ls) && LastRead(t0, ls) <= now
    requires Walk(ids, Due(Run(Init(n, max, backoff), ls).b, now))
    ensures var b := Run(Init(n, max, backoff), ls).b;
            var q := Queue(Promote(b, ids).ready, queue);
            NextStep(b, queue, now, ids).1 == if q == [] then None else Some(q[0].msg)
  {
    ReadyIsVisible(n, max, backoff, t0, ls);
    PromoteReady(Run(Init(n, max, backoff), ls).b, ids, now);
  }

  // ---- The failure stamp ----

  function StampIs(id: string, f: int): Message -> bool { (m: Message) => m.id == id ==> m.firstFailedAt == f }
  function PendingStampIs(id: string, f: int): Pending -> bool { (p: Pending) => p.msg.id == id ==> p.msg.firstFailedAt == f }

  ghost predicate Stamped(s: System, id: string, f: int) {
    && AllPending(s.b, PendingStampIs(id, f)) && AllHands(s, StampIs(id, f))
    && (forall q, i :: q in s.b.dlq && 0 <= i < |s.b.dlq[q]| ==> StampIs(id, f)(s.b.dlq[q][i]))
  }

  lemma StepStamped(s: System, l: Label, id: string, f: int)
    requires f != ZERO_TIME && Stamped(s, id, f) && (l.Publish? ==> l.msg.id != id)
    ensures Stamped(Step(s, l), id, f)
  {
    if Enabled(s, l) {
      match l
      case Publish(q, m) => PublishKeeps(s.b, q, m, PendingStampIs(id, f));
      case Poll(c, q, now, ids) =>
        PromoteFrame(s.b, ids);
        PromoteKeeps(s.b, ids, PendingStampIs(id, f));
        TakeKeeps(Promote(s.b, ids), q, now, PendingStampIs(id, f));
      case Finish(c, o, t1, t2) =>
        match Judge(s.b.maxAttempts, s.hands[c].value.msg, o) {
          case Retry(reason) =>
            if !ShiftPanics(s.hands[c].value.msg) {
              ParkKeeps(s, c, reason, t1, t2, PendingStampIs(id, f));
            }
          case _ =>
        }
    }
  }

  // Once FirstFailedAt is set it never changes, through every redelivery and into the dead-letter queue.
  lemma {:induction false} StampNeverChanges(s: System, ls: seq<Label>, id: string, f: int)
    requires f != ZERO_TIME && Stamped(s, id, f)
    requires forall i :: 0 <= i < |ls| && ls[i].Publish? ==> ls[i].msg.id != id
    ensures Stamped(Run(s, ls), id, f)
  {
    if ls == [] {
    } else {
      StampNeverChanges(s, ls[..|ls| - 1], id, f);
      StepStamped(Run(s, ls[..|ls| - 1]), ls[|ls| - 1], id, f);
    }
  }

  ghost predicate Triaged(s: System) {
    forall q, i :: q in s.b.dlq && 0 <= i < |s.b.dlq[q]| ==>
      s.b.dlq[q][i].firstFailedAt != ZERO_TIME && s.b.dlq[q][i].queue == q
  }

  lemma StepTriaged(s: System, l: Label)
    requires Shaped(s) && Triaged(s) && (l.Finish? ==> l.t1 != ZERO_TIME)
    ensures Triaged(Step(s, l))
  {
    if Enabled(s, l) && l.Poll? {
      PromoteFrame(s.b, l.ids);
    }
  }

  // Everything in a dead-letter queue carries a failure stamp and sits in the queue it was published to.
  lemma {:induction false} DeadAreTriaged(n: nat, max: int, backoff: int64, ls: seq<Label>)
    requires forall i :: 0 <= i < |ls| && ls[i].Finish? ==> ls[i].t1 != ZERO_TIME
    ensures Shaped(Run(Init(n, max, backoff), ls)) && Triaged(Run(Init(n, max, backoff), ls))
  {
    if ls == [] {
    } else {
      var s, l := Run(Init(n, max, backoff), ls[..|ls| - 1]), ls[|ls| - 1];
      DeadAreTriaged(n, max, backoff, ls[..|ls| - 1]);
      StepShaped(s, l);
      StepTriaged(s, l);
    }
  }
}
