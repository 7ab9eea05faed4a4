/** What each step of the broker does to a message, and what that comes to over a run. */
module BrokerSteps {
  import opened Int64
  import opened Counting
  import opened Option
  import opened Decimal
  import opened B = Broker
  import opened BrokerRuns

  // ---- Publish ----

  // A published message is the last of its queue, visible at once, on its first delivery unless it says otherwise.
  lemma PublishStores(s: System, queue: string, msg: Message)
    requires !s.crashed
    ensures var s' := Step(s, Publish(queue, msg));
            var q := Queue(s'.b.ready, queue);
            && |q| == |Queue(s.b.ready, queue)| + 1 && q[..|q| - 1] == Queue(s.b.ready, queue)
            && q[|q| - 1].visibleAt == ZERO_TIME
            && s'.published == s.published + [q[|q| - 1].msg]
            && (forall r :: r != queue ==> Queue(s'.b.ready, r) == Queue(s.b.ready, r))
            && s'.b.inflight == s.b.inflight && s'.b.dlq == s.b.dlq && s'.hands == s.hands
    ensures var q := Queue(Step(s, Publish(queue, msg)).b.ready, queue);
            var m := q[|q| - 1].msg;
            && IdentOf(m) == Ident(msg.id, queue, msg.key, msg.value)
            && m.attempts == (if msg.attempts == 0 then 1 else msg.attempts)
            && m.reason == msg.reason && m.firstFailedAt == msg.firstFailedAt
  {
  }

  // ---- Poll ----

  // The parked messages of queue r among ids, in that order.
  function Arrived(inflight: map<string, Pending>, ids: seq<string>, r: string): seq<Pending> {
    if ids == [] then []
    else
      var id := ids[|ids| - 1];
      Arrived(inflight, ids[..|ids| - 1], r)
      + if id in inflight && inflight[id].msg.queue == r then [inflight[id]] else []
  }

  lemma OneSends(b: State, id: string, r: string)
    requires id in b.inflight
    ensures var x := b.inflight[id];
            Queue(PromoteOne(b, id).ready, r) == Queue(b.ready, r) + if x.msg.queue == r then [x] else []
  {
  }

  lemma {:induction false} PromoteSends(b: State, ids: seq<string>, r: string)
    requires forall i, j :: 0 <= i < j < |ids| ==> ids[i] != ids[j]
    ensures Queue(Promote(b, ids).ready, r) == Queue(b.ready, r) + Arrived(b.inflight, ids, r)
  {
    if ids == [] {
    } else {
      var init, id := ids[..|ids| - 1], ids[|ids| - 1];
      PromoteSends(b, init, r);
      PromoteLeaves(b, init);
      if id in b.inflight {
        assert id in Promote(b, init).inflight && Promote(b, init).inflight[id] == b.inflight[id];
        OneSends(Promote(b, init), id, r);
      }
    }
  }

  lemma PromoteIs(b: State, ids: seq<string>, r: string)
    requires forall i, j :: 0 <= i < j < |ids| ==> ids[i] != ids[j]
    ensures Queue(Promote(b, ids).ready, r) == Queue(b.ready, r) + Arrived(b.inflight, ids, r)
    ensures Promote(b, ids).inflight == map id | id in b.inflight && id !in ids :: b.inflight[id]
    ensures Promote(b, ids).dlq == b.dlq
  {
    PromoteSends(b, ids, r);
    PromoteLeaves(b, ids);
    PromoteFrame(b, ids);
  }

  // What is parked after a promotion at `now`: exactly what is not due.
  lemma StillParked(b: State, now: int, ids: seq<string>, r: string)
    requires Walk(ids, Due(b, now))
    ensures Promote(b, ids).inflight == map id | id in b.inflight && now < b.inflight[id].visibleAt :: b.inflight[id]
  {
    PromoteIs(b, ids, r);
    assert forall id :: id in b.inflight ==> (id !in ids <==> now < b.inflight[id].visibleAt) by {
      assert forall id :: id in b.inflight ==> (id in Due(b, now) <==> b.inflight[id].visibleAt <= now);
    }
  }

  // Taking touches one queue.
  lemma TakeTouches(s: System, c: nat, queue: string, now: int, r: string)
    requires c < |s.hands|
    ensures var s' := TakeSys(s, c, queue, now);
            && (r != queue ==> Queue(s'.b.ready, r) == Queue(s.b.ready, r))
            && s'.b.inflight == s.b.inflight && s'.b.dlq == s.b.dlq
            && s'.acked == s.acked && s'.published == s.published && s'.lost == s.lost
  {
  }

  // A poll sends what is due to the back of its own queues, and touches nothing else but the queue polled.
  lemma PollPromotes(s: System, c: nat, queue: string, now: int, ids: seq<string>, r: string)
    requires Enabled(s, Poll(c, queue, now, ids))
    ensures var s' := Step(s, Poll(c, queue, now, ids));
            && (r != queue ==> Queue(s'.b.ready, r) == Queue(s.b.ready, r) + Arrived(s.b.inflight, ids, r))
            && s'.b.inflight == (map id | id in s.b.inflight && now < s.b.inflight[id].visibleAt :: s.b.inflight[id])
            && s'.b.dlq == s.b.dlq && s'.acked == s.acked && s'.published == s.published && s'.lost == s.lost
  {
    PromoteIs(s.b, ids, r);
    StillParked(s.b, now, ids, r);
    TakeTouches(s.(b := Promote(s.b, ids)), c, queue, now, r);
  }

  // Of the queue polled, what came due included, the first visible message goes to the consumer.
  lemma PollTakes(s: System, c: nat, queue: string, now: int, ids: seq<string>)
    requires Enabled(s, Poll(c, queue, now, ids))
    ensures var s' := Step(s, Poll(c, queue, now, ids));
            var q := Queue(s.b.ready, queue) + Arrived(s.b.inflight, ids, queue);
            var i := FirstVisible(q, now);
            && (i < 0 ==> s'.hands == s.hands && s'.delivered == s.delivered && Queue(s'.b.ready, queue) == q)
            && (i >= 0 ==> && s'.hands == s.hands[c := Some(Hand(queue, q[i].msg))]
                           && s'.delivered == s.delivered + [q[i].msg]
                           && Queue(s'.b.ready, queue) == q[..i] + q[i + 1..])
  {
    PromoteIs(s.b, ids, queue);
  }

  // ---- Finish ----

  // A handler that panics has failed terminally; one that returns has answered what it returned.
  lemma PanicIsTerminal(c: Called)
    ensures Handle(c).Success? <==> c == Returned(Success)
    ensures c.Panicked? ==> Handle(c) == TerminalError("terminal: panic in handler: " + c.value)
    ensures c.Returned? ==> Handle(c) == c.outcome
  {
  }

  // The answers after which a message is not delivered again.
  predicate FailsForGood(m: Message, o: Outcome, max: int) {
    o.TerminalError? || (o.Retryable? && m.attempts >= max)
  }

  predicate IsRetried(m: Message, o: Outcome, max: int) { o.Retryable? && m.attempts < max }

  // The dead letter: the message itself, with the reason, stamped with its first failure.
  predicate IsLetter(d: Message, m: Message, o: Outcome, max: int, now: int)
    requires !o.Success?
  {
    && IdentOf(d) == IdentOf(m) && d.attempts == m.attempts
    && d.firstFailedAt == (if m.firstFailedAt == ZERO_TIME then now else m.firstFailedAt)
    && d.reason == if o.TerminalError? then o.reason else "max attempts (" + Print(max) + ") reached: " + o.reason
  }

  // The parked message: the message itself on its next attempt, with the reason, due after its backoff.
  predicate IsParkedAs(p: Pending, m: Message, o: Outcome, backoff: int64, t1: int, t2: int)
    requires o.Retryable? && m.attempts >= 1
  {
    && IdentOf(p.msg) == IdentOf(m) && p.msg.attempts == m.attempts + 1 && p.msg.reason == o.reason
    && p.msg.firstFailedAt == (if m.firstFailedAt == ZERO_TIME then t1 else m.firstFailedAt)
    && p.visibleAt == t2 + Wrap(backoff * Pow2(m.attempts - 1))
  }

  // Only a success is acknowledged.
  lemma FinishAcks(s: System, c: nat, o: Outcome, t1: int, t2: int)
    requires Enabled(s, Finish(c, o, t1, t2))
    ensures var s' := Step(s, Finish(c, o, t1, t2));
            && s'.acked == s.acked + (if o.Success? then [s.hands[c].value.msg] else [])
            && s'.delivered == s.delivered && s'.published == s.published && s'.b.ready == s.b.ready
            && (!s'.crashed ==> s'.hands == s.hands[c := None])
            && (o.Success? ==> s'.b == s.b)
  {
  }

  // A terminal failure, and a retryable one at the cap, add exactly one dead letter to the message's own queue; nothing
  // else does.
  lemma FinishBuries(s: System, c: nat, o: Outcome, t1: int, t2: int)
    requires Shaped(s) && Enabled(s, Finish(c, o, t1, t2))
    ensures var s', m := Step(s, Finish(c, o, t1, t2)), s.hands[c].value.msg;
            && (!FailsForGood(m, o, s.b.maxAttempts) ==> s'.b.dlq == s.b.dlq)
            && (FailsForGood(m, o, s.b.maxAttempts) ==>
                  var d := Queue(s'.b.dlq, m.queue);
                  && |d| == |Queue(s.b.dlq, m.queue)| + 1 && d[..|d| - 1] == Queue(s.b.dlq, m.queue)
                  && IsLetter(d[|d| - 1], m, o, s.b.maxAttempts, t1)
                  && (forall q :: q != m.queue ==> Queue(s'.b.dlq, q) == Queue(s.b.dlq, q))
                  && s'.b.inflight == s.b.inflight && !s'.crashed)
  {
  }

  // Every other retryable failure parks the message, or panics; nothing else touches what is parked.
  lemma FinishParks(s: System, c: nat, o: Outcome, t1: int, t2: int)
    requires Shaped(s) && Enabled(s, Finish(c, o, t1, t2))
    ensures var s', m := Step(s, Finish(c, o, t1, t2)), s.hands[c].value.msg;
            && (!IsRetried(m, o, s.b.maxAttempts) ==> s'.b.inflight == s.b.inflight && !s'.crashed)
            && (IsRetried(m, o, s.b.maxAttempts) && m.attempts < 1 ==> s'.crashed && s'.b == s.b)
            && (IsRetried(m, o, s.b.maxAttempts) && m.attempts >= 1 ==>
                  && !s'.crashed && m.id in s'.b.inflight
                  && IsParkedAs(s'.b.inflight[m.id], m, o, s.b.backoff, t1, t2)
                  && s'.b.inflight == s.b.inflight[m.id := s'.b.inflight[m.id]])
  {
  }

  // ---- Over runs ----

  ghost predicate IsAnswer(s: System, l: Label, x: Ident, success: bool) {
    && l.Finish? && Enabled(s, l) && IdentOf(s.hands[l.c].value.msg) == x
    && if success then l.outcome.Success? else FailsForGood(s.hands[l.c].value.msg, l.outcome, s.b.maxAttempts)
  }

  // The answers in ls of one kind, given for copies of x: the successes, or the failures for good.
  ghost function Answers(s: System, ls: seq<Label>, x: Ident, success: bool): nat {
    if ls == [] then 0
    else
      var n := |ls| - 1;
      Answers(s, ls[..n], x, success) + Weight(IsAnswer(Run(s, ls[..n]), ls[n], x, success))
  }

  lemma LetterPushed(d: seq<Message>, d': seq<Message>, m: Message, x: Ident)
    requires |d'| == |d| + 1 && d'[..|d|] == d && IdentOf(d'[|d|]) == IdentOf(m)
    ensures Count(d', IsMsg(x)) == Count(d, IsMsg(x)) + Weight(IdentOf(m) == x)
  {
    CountPush(d, d'[|d|], IsMsg(x));
    assert d' == d + [d'[|d|]];
  }

  lemma LetterCounts(s: System, c: nat, o: Outcome, t1: int, t2: int, x: Ident)
    requires Shaped(s) && Enabled(s, Finish(c, o, t1, t2))
    ensures Buried(Step(s, Finish(c, o, t1, t2)), x)
            == Buried(s, x) + Weight(IsAnswer(s, Finish(c, o, t1, t2), x, false))
  {
    var s' := Step(s, Finish(c, o, t1, t2));
    var m := s.hands[c].value.msg;
    FinishBuries(s, c, o, t1, t2);
    if FailsForGood(m, o, s.b.maxAttempts) {
      if x.queue == m.queue {
        LetterPushed(Queue(s.b.dlq, m.queue), Queue(s'.b.dlq, m.queue), m, x);
      } else {
        assert Queue(s'.b.dlq, x.queue) == Queue(s.b.dlq, x.queue);
      }
    }
  }

  lemma StepAnswers(s: System, l: Label, x: Ident)
    requires Shaped(s)
    ensures Count(Step(s, l).acked, IsMsg(x)) == Count(s.acked, IsMsg(x)) + Weight(IsAnswer(s, l, x, true))
    ensures Buried(Step(s, l), x) == Buried(s, x) + Weight(IsAnswer(s, l, x, false))
  {
    if Enabled(s, l) {
      match l
      case Publish(q, m) => PublishStores(s, q, m);
      case Poll(c, q, now, ids) => PollPromotes(s, c, q, now, ids, q);
      case Finish(c, o, t1, t2) =>
        FinishAcks(s, c, o, t1, t2);
        FinishBuries(s, c, o, t1, t2);
        CountPush(s.acked, s.hands[c].value.msg, IsMsg(x));
        LetterCounts(s, c, o, t1, t2, x);
    }
  }

  // In every run a message has been acknowledged as often as a handler has succeeded with it, and is in its dead-letter
  // queue as often as one has failed with it for good.
  lemma {:induction false} RunAnswers(s: System, ls: seq<Label>, x: Ident)
    requires Shaped(s)
    ensures Shaped(Run(s, ls))
    ensures Count(Run(s, ls).acked, IsMsg(x)) == Count(s.acked, IsMsg(x)) + Answers(s, ls, x, true)
    ensures Buried(Run(s, ls), x) == Buried(s, x) + Answers(s, ls, x, false)
  {
    if ls == [] {
    } else {
      var n := |ls| - 1;
      RunAnswers(s, ls[..n], x);
      StepShaped(Run(s, ls[..n]), ls[n]);
      StepAnswers(Run(s, ls[..n]), ls[n], x);
    }
  }
}
