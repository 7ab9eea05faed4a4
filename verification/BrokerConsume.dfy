/** Consume: one consumer's loop, as a run of the broker that terminates. */
module BrokerConsume {
  import opened Int64
  import opened Counting
  import opened Sequences
  import opened Option
  import opened B = Broker
  import opened BrokerRuns
  import opened BrokerSteps

  // ---- The potential: how many handler calls are still possible ----

  // The deliveries a message can still have: at least one, as it is delivered before anybody looks at its count.
  function Deliveries(max: int, m: Message): nat {
    if max + 1 - m.attempts > 1 then max + 1 - m.attempts else 1
  }

  function ReadyCost(ps: seq<Pending>, max: int): nat {
    if ps == [] then 0 else ReadyCost(ps[..|ps| - 1], max) + Deliveries(max, ps[|ps| - 1].msg)
  }

  function ParkedCostOf(p: Pending, queue: string, max: int): nat {
    if p.msg.queue == queue then Deliveries(max, p.msg) else 0
  }

  ghost function ParkedCost(inflight: map<string, Pending>, queue: string, max: int): nat
    decreases |inflight|
  {
    if inflight == map[] then 0
    else
      var id :| id in inflight;
      ParkedCostOf(inflight[id], queue, max) + ParkedCost(inflight - {id}, queue, max)
  }

  ghost function Potential(b: State, queue: string): nat {
    ReadyCost(Queue(b.ready, queue), b.maxAttempts) + ParkedCost(b.inflight, queue, b.maxAttempts)
  }

  // The sum over the parked messages does not depend on the order of summing.
  lemma {:induction false} ParkedCostRemove(inflight: map<string, Pending>, id: string, queue: string, max: int)
    requires id in inflight
    ensures ParkedCost(inflight, queue, max)
            == ParkedCostOf(inflight[id], queue, max) + ParkedCost(inflight - {id}, queue, max)
    decreases |inflight|
  {
    var k :| k in inflight && ParkedCost(inflight, queue, max)
             == ParkedCostOf(inflight[k], queue, max) + ParkedCost(inflight - {k}, queue, max);
    if k != id {
      ParkedCostRemove(inflight - {k}, id, queue, max);
      ParkedCostRemove(inflight - {id}, k, queue, max);
      assert inflight - {k} - {id} == inflight - {id} - {k};
    }
  }

  lemma ParkedCostInsert(inflight: map<string, Pending>, id: string, p: Pending, queue: string, max: int)
    ensures ParkedCost(inflight[id := p], queue, max) <= ParkedCost(inflight, queue, max) + ParkedCostOf(p, queue, max)
  {
    ParkedCostRemove(inflight[id := p], id, queue, max);
    if id in inflight {
      ParkedCostRemove(inflight, id, queue, max);
      assert inflight[id := p] - {id} == inflight - {id};
    } else {
      assert inflight[id := p] - {id} == inflight;
    }
  }

  lemma ReadyCostPush(ps: seq<Pending>, p: Pending, max: int)
    ensures ReadyCost(ps + [p], max) == ReadyCost(ps, max) + Deliveries(max, p.msg)
  {
  }

  lemma {:induction false} ReadyCostSplit(a: seq<Pending>, b: seq<Pending>, max: int)
    ensures ReadyCost(a + b, max) == ReadyCost(a, max) + ReadyCost(b, max)
  {
    if b == [] {
      assert a + b == a;
    } else {
      assert (a + b)[..|a + b| - 1] == a + b[..|b| - 1];
      ReadyCostSplit(a, b[..|b| - 1], max);
    }
  }

  lemma ReadyCostMiddle(a: seq<Pending>, p: Pending, b: seq<Pending>, max: int)
    ensures ReadyCost((a + [p]) + b, max) == ReadyCost(a + b, max) + Deliveries(max, p.msg)
  {
    ReadyCostSplit(a + [p], b, max);
    ReadyCostPush(a, p, max);
    ReadyCostSplit(a, b, max);
  }

  lemma {:induction false} PromotePotential(b: State, ids: seq<string>, queue: string)
    ensures Potential(Promote(b, ids), queue) == Potential(b, queue)
  {
    if ids == [] {
    } else {
      var b', id := Promote(b, ids[..|ids| - 1]), ids[|ids| - 1];
      PromotePotential(b, ids[..|ids| - 1], queue);
      if id in b'.inflight {
        var p := b'.inflight[id];
        ParkedCostRemove(b'.inflight, id, queue, b.maxAttempts);
        ReadyCostPush(Queue(b'.ready, p.msg.queue), p, b.maxAttempts);
        PromoteFrame(b, ids);
        PromoteFrame(b, ids[..|ids| - 1]);
      }
    }
  }

  // A delivery takes the message's share out of the potential.
  lemma NextPotential(b: State, queue: string, now: int, ids: seq<string>)
    ensures var (b', m) := NextStep(b, queue, now, ids);
            && b'.maxAttempts == b.maxAttempts
            && Potential(b', queue) + (if m.Some? then Deliveries(b.maxAttempts, m.value) else 0) == Potential(b, queue)
  {
    PromotePotential(b, ids, queue);
    PromoteFrame(b, ids);
    var q := Queue(Promote(b, ids).ready, queue);
    var i := FirstVisible(q, now);
    if i >= 0 {
      SplitAt(q, i);
      ReadyCostMiddle(q[..i], q[i], q[i + 1..], b.maxAttempts);
    }
  }

  // A redelivery puts back strictly less.
  lemma RedeliverPotential(b: State, queue: string, m: Message, reason: string, t1: int, t2: int)
    requires !ShiftPanics(m) && m.attempts < b.maxAttempts
    ensures Potential(RedeliverStep(b, queue, m, reason, t1, t2), queue)
            <= Potential(b, queue) + Deliveries(b.maxAttempts, m) - 1
  {
    ParkedCostInsert(b.inflight, m.id, Parked(b, queue, m, reason, t1, t2), queue, b.maxAttempts);
  }

  // ---- Any number of consumers ----

  // What a held message can still cost after the delivery that put it in a hand.
  function HandCost(h: Option<Hand>, queue: string, max: int): nat {
    if h.Some? && h.value.queue == queue then Deliveries(max, h.value.msg) - 1 else 0
  }

  function HandsCost(hands: seq<Option<Hand>>, queue: string, max: int): nat {
    if hands == [] then 0 else HandsCost(hands[..|hands| - 1], queue, max) + HandCost(hands[|hands| - 1], queue, max)
  }

  lemma {:induction false} HandsCostUpdate(hands: seq<Option<Hand>>, c: nat, h: Option<Hand>, queue: string, max: int)
    requires c < |hands|
    ensures HandsCost(hands[c := h], queue, max)
            == HandsCost(hands, queue, max) - HandCost(hands[c], queue, max) + HandCost(h, queue, max)
  {
    var k := |hands| - 1;
    if c == k {
      assert hands[c := h][..k] == hands[..k];
    } else {
      assert hands[c := h][..k] == hands[..k][c := h];
      HandsCostUpdate(hands[..k], c, h, queue, max);
    }
  }

  ghost function SystemPotential(s: System, queue: string): nat {
    Potential(s.b, queue) + HandsCost(s.hands, queue, s.b.maxAttempts)
  }

  function ToQueue(queue: string): Message -> bool { (m: Message) => m.queue == queue }

  // A take moves the message's share from the ready queue into the hand and the log of deliveries.
  lemma TakePotential(s: System, c: nat, from: string, i: nat, queue: string)
    requires c < |s.hands| && s.hands[c].None?
    requires i < |Queue(s.b.ready, from)| && Queue(s.b.ready, from)[i].msg.queue == from
    ensures var q := Queue(s.b.ready, from);
            var b' := s.b.(ready := s.b.ready[from := q[..i] + q[i + 1..]]);
            var m := q[i].msg;
            Potential(b', queue) + HandsCost(s.hands[c := Some(Hand(from, m))], queue, s.b.maxAttempts)
            + Count(s.delivered + [m], ToQueue(queue))
            == SystemPotential(s, queue) + Count(s.delivered, ToQueue(queue))
  {
    var q := Queue(s.b.ready, from);
    SplitAt(q, i);
    ReadyCostMiddle(q[..i], q[i], q[i + 1..], s.b.maxAttempts);
    HandsCostUpdate(s.hands, c, Some(Hand(from, q[i].msg)), queue, s.b.maxAttempts);
    CountPush(s.delivered, q[i].msg, ToQueue(queue));
  }

  lemma TakeSysPotential(s: System, c: nat, from: string, now: int, queue: string)
    requires Shaped(s) && c < |s.hands| && s.hands[c].None?
    ensures var s' := TakeSys(s, c, from, now);
            SystemPotential(s', queue) + Count(s'.delivered, ToQueue(queue))
            == SystemPotential(s, queue) + Count(s.delivered, ToQueue(queue))
  {
    var i := FirstVisible(Queue(s.b.ready, from), now);
    if i >= 0 {
      assert s.b.ready[from][i].msg.queue == from;
      TakePotential(s, c, from, i, queue);
    }
  }

  lemma PollPotential(s: System, c: nat, from: string, now: int, ids: seq<string>, queue: string)
    requires Shaped(s) && c < |s.hands| && s.hands[c].None?
    ensures var s' := PollSys(s, c, from, now, ids);
            SystemPotential(s', queue) + Count(s'.delivered, ToQueue(queue))
            == SystemPotential(s, queue) + Count(s.delivered, ToQueue(queue))
  {
    PromotePotential(s.b, ids, queue);
    PromoteFrame(s.b, ids);
    PromoteShaped(s, ids);
    TakeSysPotential(s.(b := Promote(s.b, ids)), c, from, now, queue);
  }

  lemma RetryPotential(s: System, c: nat, reason: string, t1: int, t2: int, queue: string)
    requires c < |s.hands| && s.hands[c].Some? && s.hands[c].value.msg.attempts < s.b.maxAttempts
    ensures SystemPotential(RetrySys(s, c, reason, t1, t2), queue) <= SystemPotential(s, queue)
  {
    var h := s.hands[c].value;
    if !ShiftPanics(h.msg) {
      var max := s.b.maxAttempts;
      ParkedCostInsert(s.b.inflight, h.msg.id, Parked(s.b, h.queue, h.msg, reason, t1, t2), queue, max);
      HandsCostUpdate(s.hands, c, None, queue, max);
    }
  }

  lemma StepPotential(s: System, l: Label, queue: string)
    requires Shaped(s) && !(l.Publish? && l.queue == queue)
    ensures SystemPotential(Step(s, l), queue) + Count(Step(s, l).delivered, ToQueue(queue))
            <= SystemPotential(s, queue) + Count(s.delivered, ToQueue(queue))
  {
    if Enabled(s, l) {
      match l
      case Publish(_, _) =>
      case Poll(c, from, now, ids) => PollPotential(s, c, from, now, ids, queue);
      case Finish(c, o, t1, t2) =>
        match Judge(s.b.maxAttempts, s.hands[c].value.msg, o) {
          case Retry(reason) => RetryPotential(s, c, reason, t1, t2, queue);
          case _ => HandsCostUpdate(s.hands, c, None, queue, s.b.maxAttempts);
        }
    }
  }

  // However many consumers interleave, whatever the clock and the handlers do: while nothing is published to a
  // queue, it sees no more deliveries than its potential.
  lemma {:induction false} DeliveriesAreBounded(s: System, ls: seq<Label>, queue: string)
    requires Shaped(s)
    requires forall i :: 0 <= i < |ls| && ls[i].Publish? ==> ls[i].queue != queue
    ensures Shaped(Run(s, ls))
    ensures SystemPotential(Run(s, ls), queue) + Count(Run(s, ls).delivered, ToQueue(queue))
            <= SystemPotential(s, queue) + Count(s.delivered, ToQueue(queue))
  {
    if ls == [] {
    } else {
      var n := |ls| - 1;
      DeliveriesAreBounded(s, ls[..n], queue);
      StepShaped(Run(s, ls[..n]), ls[n]);
      StepPotential(Run(s, ls[..n]), ls[n], queue);
    }
  }

  // ---- Consume ----

  // One consumer, its hand empty, in front of this broker.
  function Solo(b: State): System { System(b, [None], [], [], [], [], false) }

  // Where Consume stands after the labels of trace.
  ghost predicate Reached(start: State, trace: seq<Label>, now: State, calls: nat) {
    var s := Run(Solo(start), trace);
    s.b == now && s.hands == [None] && |s.delivered| == calls && !s.crashed
  }

  lemma RunSnoc(s: System, trace: seq<Label>, l: Label)
    ensures Run(s, trace + [l]) == Step(Run(s, trace), l)
  {
  }

  predicate IsPoll(l: Label, queue: string, now: int) { l.Poll? && l.c == 0 && l.queue == queue && l.now == now }

  // What trace says of the outside world: call i answers the i-th message delivered with what the handler, or its
  // panic, comes to, and the clock is read three times a turn.
  ghost predicate Script(w: World, queue: string, start: State, trace: seq<Label>, calls: nat) {
    && |trace| == 2 * calls
    && (calls > 0 ==>
          var i := calls - 1;
          var delivered := Run(Solo(start), trace[..2 * i + 1]).delivered;
          && Script(w, queue, start, trace[..2 * i], i)
          && IsPoll(trace[2 * i], queue, w.clock(3 * i))
          && |delivered| == calls
          && trace[2 * i + 1] == Finish(0, Handle(w.handler(i, delivered[i])), w.clock(3 * i + 1), w.clock(3 * i + 2)))
  }

  // The same, and one more poll.
  ghost predicate ScriptThenPoll(w: World, queue: string, start: State, trace: seq<Label>, calls: nat) {
    && |trace| == 2 * calls + 1 && Script(w, queue, start, trace[..2 * calls], calls)
    && IsPoll(trace[2 * calls], queue, w.clock(3 * calls))
  }

  lemma TwoMore(trace: seq<Label>, a: Label, b: Label)
    ensures (trace + [a] + [b])[..|trace|] == trace && (trace + [a] + [b])[..|trace| + 1] == trace + [a]
  {
  }

  lemma ScriptIs(w: World, queue: string, start: State, all: seq<Label>, calls: nat)
    requires |all| == 2 * calls + 2 && Script(w, queue, start, all[..2 * calls], calls)
    requires IsPoll(all[2 * calls], queue, w.clock(3 * calls))
    requires var delivered := Run(Solo(start), all[..2 * calls + 1]).delivered;
             && |delivered| == calls + 1
             && all[2 * calls + 1]
                == Finish(0, Handle(w.handler(calls, delivered[calls])), w.clock(3 * calls + 1), w.clock(3 * calls + 2))
    ensures Script(w, queue, start, all, calls + 1)
  {
  }

  // A poll that finds nothing.
  lemma TurnEmpty(start: State, trace: seq<Label>, b: State, calls: nat, queue: string, now: int, ids: seq<string>)
    requires Reached(start, trace, b, calls) && Walk(ids, Due(b, now)) && NextStep(b, queue, now, ids).1.None?
    ensures Reached(start, trace + [Poll(0, queue, now, ids)], NextStep(b, queue, now, ids).0, calls)
  {
  }

  // The broker after Consume's switch on one answer.
  ghost predicate SettledAs(b: State, queue: string, m: Message, o: Outcome, t1: int, t2: int, after: State, crashed: bool) {
    match Judge(b.maxAttempts, m, o)
    case Ack => !crashed && after == b
    case Bury(reason) => !crashed && after == DeadStep(b, queue, m, reason, t1)
    case Retry(reason) =>
      && (crashed <==> ShiftPanics(m))
      && after == if crashed then b else RedeliverStep(b, queue, m, reason, t1, t2)
  }

  // A poll that delivers.
  lemma PollDelivers(start: State, trace: seq<Label>, b: State, calls: nat, queue: string, now: int, ids: seq<string>)
    requires Reached(start, trace, b, calls) && Walk(ids, Due(b, now)) && NextStep(b, queue, now, ids).1.Some?
    ensures var (b', m) := NextStep(b, queue, now, ids);
            var s := Run(Solo(start), trace + [Poll(0, queue, now, ids)]);
            && s.hands == [Some(Hand(queue, m.value))] && s.b == b' && !s.crashed
            && |s.delivered| == calls + 1 && s.delivered[calls] == m.value
  {
    RunSnoc(Solo(start), trace, Poll(0, queue, now, ids));
  }

  // A poll that delivers, and the verdict on the handler's answer, are two labels of the run.
  lemma TurnFull(start: State, trace: seq<Label>, b: State, calls: nat, queue: string, now: int, ids: seq<string>,
                 o: Outcome, t1: int, t2: int, after: State, crashed: bool)
    requires Reached(start, trace, b, calls) && Walk(ids, Due(b, now)) && NextStep(b, queue, now, ids).1.Some?
    requires var (b', m) := NextStep(b, queue, now, ids); SettledAs(b', queue, m.value, o, t1, t2, after, crashed)
    ensures var trace' := trace + [Poll(0, queue, now, ids)] + [Finish(0, o, t1, t2)];
            if crashed then Run(Solo(start), trace').crashed && Run(Solo(start), trace').b == after
            else Reached(start, trace', after, calls + 1)
  {
    PollDelivers(start, trace, b, calls, queue, now, ids);
    RunSnoc(Solo(start), trace + [Poll(0, queue, now, ids)], Finish(0, o, t1, t2));
    assert Run(Solo(start), trace + [Poll(0, queue, now, ids)]).hands[0 := None] == [None];
  }

  // Nothing is visible to a consumer of the queue at that instant: not in ready, and not parked.
  ghost predicate NothingVisible(b: State, queue: string, now: int) {
    && (forall i :: 0 <= i < |Queue(b.ready, queue)| ==> now < Queue(b.ready, queue)[i].visibleAt)
    && (forall id :: id in b.inflight ==> now < b.inflight[id].visibleAt)
  }

  lemma EmptyPollSeesNothing(b: State, queue: string, now: int, ids: seq<string>)
    requires Walk(ids, Due(b, now)) && NextStep(b, queue, now, ids).1.None?
    ensures NothingVisible(NextStep(b, queue, now, ids).0, queue, now)
  {
    PromoteLeaves(b, ids);
  }

  // Consume's switch: acknowledge, bury, or redeliver.
  method Settle(b: Broker, queue: string, msg: Message, o: Outcome, t1: int, t2: int) returns (crashed: bool)
    modifies b
    ensures o.Success? ==> !crashed && b.View() == old(b.View())
    ensures FailsForGood(msg, o, b.maxAttempts) ==>
      && !crashed && b.ready == old(b.ready) && b.inflight == old(b.inflight)
      && |Queue(b.dlq, queue)| == |Queue(old(b.dlq), queue)| + 1
      && Queue(b.dlq, queue)[..|Queue(old(b.dlq), queue)|] == Queue(old(b.dlq), queue)
      && IsLetter(Queue(b.dlq, queue)[|Queue(old(b.dlq), queue)|], msg, o, b.maxAttempts, t1)
    ensures IsRetried(msg, o, b.maxAttempts) ==> b.ready == old(b.ready) && b.dlq == old(b.dlq)
    ensures crashed <==> IsRetried(msg, o, b.maxAttempts) && msg.attempts < 1
    ensures IsRetried(msg, o, b.maxAttempts) && msg.attempts >= 1 ==>
      && msg.id in b.inflight && b.inflight == old(b.inflight)[msg.id := b.inflight[msg.id]]
      && (msg.queue == queue ==> IsParkedAs(b.inflight[msg.id], msg, o, b.backoff, t1, t2))
    ensures SettledAs(old(b.View()), queue, msg, o, t1, t2, b.View(), crashed)
    ensures Potential(b.View(), queue) <= old(Potential(b.View(), queue)) + Deliveries(b.maxAttempts, msg) - 1
  {
    crashed := false;
    match o {
      case Success =>
      case TerminalError(reason) => b.Dead(queue, msg, reason, t1);
      case Retryable(reason) =>
        if msg.attempts >= b.maxAttempts {
          b.Dead(queue, msg, Exhausted(b.maxAttempts, reason), t1);
        } else {
          if !ShiftPanics(msg) {
            RedeliverPotential(b.View(), queue, msg, reason, t1, t2);
          }
          crashed := b.Redeliver(queue, msg, reason, t1, t2);
        }
    }
  }

  // One turn of the loop: a poll and, if it delivers, the handler call and its verdict. The clock is read at most
  // three times a turn; which of its answers go unread does not matter.
  method Turn(b: Broker, queue: string, w: World, calls: nat, ghost start: State, ghost trace: seq<Label>)
    returns (done: Option<Exit>, ghost trace': seq<Label>)
    requires Reached(start, trace, b.View(), calls) && Script(w, queue, start, trace, calls)
    modifies b
    ensures done != Some(Drained) ==> Script(w, queue, start, trace', calls + 1)
    ensures done == Some(Drained) ==> ScriptThenPoll(w, queue, start, trace', calls)
    ensures done.None? || done.value.Drained? || done.value.Crashed?
    ensures done.None? ==> Reached(start, trace', b.View(), calls + 1)
    ensures done == Some(Crashed) ==> Run(Solo(start), trace').crashed && Run(Solo(start), trace').b == b.View()
    ensures done == Some(Drained) ==>
      Reached(start, trace', b.View(), calls) && NothingVisible(b.View(), queue, w.clock(3 * calls))
    ensures Potential(b.View(), queue) + (if done == Some(Drained) then 0 else 1) <= old(Potential(b.View(), queue))
  {
    ghost var before := b.View();
    var now := w.clock(3 * calls);
    var r, ids := b.Next(queue, now);
    NextPotential(before, queue, now, ids);
    if r.None? {
      TurnEmpty(start, trace, before, calls, queue, now, ids);
      EmptyPollSeesNothing(before, queue, now, ids);
      trace' := trace + [Poll(0, queue, now, ids)];
      assert trace'[..2 * calls] == trace;
      return Some(Drained), trace';
    }
    var msg := r.value;
    var o := Handle(w.handler(calls, msg));
    var t1, t2 := w.clock(3 * calls + 1), w.clock(3 * calls + 2);
    var crashed := Settle(b, queue, msg, o, t1, t2);
    TurnFull(start, trace, before, calls, queue, now, ids, o, t1, t2, b.View(), crashed);
    trace' := trace + [Poll(0, queue, now, ids)] + [Finish(0, o, t1, t2)];
    PollDelivers(start, trace, before, calls, queue, now, ids);
    TwoMore(trace, Poll(0, queue, now, ids), Finish(0, o, t1, t2));
    ScriptIs(w, queue, start, trace', calls);
    done := if crashed then Some(Crashed) else None;
  }

  // The context was alive before each of the first `calls` turns.
  ghost predicate NeverCancelled(w: World, calls: nat) { forall i :: 0 <= i < calls ==> !w.cancelled(i) }

  lemma NotCancelledYet(w: World, calls: nat)
    requires NeverCancelled(w, calls) && !w.cancelled(calls)
    ensures NeverCancelled(w, calls + 1)
  {
  }

  // For any handler that does not publish, with nobody else publishing, and for any clock (a zero or negative
  // backoff included) the loop ends, after at most as many handler calls as the potential allows. What it did is
  // a run of one consumer (trace), so everything proved of runs holds of it; whenever it stops other than by
  // crashing, its hand is empty.
  method Consume(b: Broker, queue: string, w: World) returns (exit: Exit, calls: nat, ghost trace: seq<Label>)
    modifies b
    ensures calls <= old(Potential(b.View(), queue))
    ensures !exit.Crashed? ==> Reached(old(b.View()), trace, b.View(), calls)
    ensures exit.Crashed? ==> Run(Solo(old(b.View())), trace).crashed && Run(Solo(old(b.View())), trace).b == b.View()
    ensures !exit.Drained? ==> Script(w, queue, old(b.View()), trace, calls)
    ensures exit.Drained? ==>
      ScriptThenPoll(w, queue, old(b.View()), trace, calls) && NothingVisible(b.View(), queue, w.clock(3 * calls))
    ensures exit.Cancelled? ==> w.cancelled(calls)
    ensures NeverCancelled(w, calls)
  {
    ghost var start := b.View();
    calls, trace := 0, [];
    while true
      invariant Reached(start, trace, b.View(), calls) && Script(w, queue, start, trace, calls)
      invariant calls + Potential(b.View(), queue) <= Potential(start, queue)
      invariant NeverCancelled(w, calls)
      decreases Potential(b.View(), queue)
    {
      if w.cancelled(calls) {
        return Cancelled, calls, trace;
      }
      var done: Option<Exit>;
      done, trace := Turn(b, queue, w, calls, start, trace);
      if done == Some(Drained) {
        return Drained, calls, trace;
      }
      NotCancelledYet(w, calls);
      calls := calls + 1;
      if done == Some(Crashed) {
        return Crashed, calls, trace;
      }
    }
  }
}
