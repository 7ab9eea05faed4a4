/** Every run of the broker: publishers, consumers and the clock interleaved at the broker's atomic steps. */
module BrokerRuns {
  import opened Int64
  import opened Counting
  import opened Sequences
  import opened Option
  import opened B = Broker

  // What a consumer holds between next and the verdict on the handler's answer.
  datatype Hand = Hand(queue: string, msg: Message)

  datatype System = System(
    b: State,
    hands: seq<Option<Hand>>,   // one per consumer
    published: seq<Message>,    // logs: as stored, as delivered, as acknowledged
    delivered: seq<Message>,
    acked: seq<Message>,
    lost: seq<Message>,         // overwritten while parked
    crashed: bool)              // a negative shift count has panicked

  datatype Label =
    | Publish(queue: string, msg: Message)
    | Poll(c: nat, queue: string, now: int, ids: seq<string>)
    | Finish(c: nat, outcome: Outcome, t1: int, t2: int)

  function Init(consumers: nat, maxAttempts: int, backoff: int64): System {
    System(New(maxAttempts, backoff), seq(consumers, _ => None), [], [], [], [], false)
  }

  ghost predicate Enabled(s: System, l: Label) {
    !s.crashed &&
    match l
    case Publish(_, _) => true
    case Poll(c, _, now, ids) => c < |s.hands| && s.hands[c].None? && Walk(ids, Due(s.b, now))
    case Finish(c, _, _, _) => c < |s.hands| && s.hands[c].Some?
  }

  function PublishSys(s: System, queue: string, msg: Message): System {
    s.(b := PublishStep(s.b, queue, msg), published := s.published + [Stored(queue, msg)])
  }

  function TakeSys(s: System, c: nat, queue: string, now: int): System
    requires c < |s.hands|
  {
    var (b, m) := TakeStep(s.b, queue, now);
    if m.None? then s.(b := b)
    else s.(b := b, hands := s.hands[c := Some(Hand(queue, m.value))], delivered := s.delivered + [m.value])
  }

  function PollSys(s: System, c: nat, queue: string, now: int, ids: seq<string>): System
    requires c < |s.hands|
  {
    TakeSys(s.(b := Promote(s.b, ids)), c, queue, now)
  }

  function AckSys(s: System, c: nat): System
    requires c < |s.hands| && s.hands[c].Some?
  {
    s.(hands := s.hands[c := None], acked := s.acked + [s.hands[c].value.msg])
  }

  function BurySys(s: System, c: nat, reason: string, now: int): System
    requires c < |s.hands| && s.hands[c].Some?
  {
    var h := s.hands[c].value;
    s.(hands := s.hands[c := None], b := DeadStep(s.b, h.queue, h.msg, reason, now))
  }

  // redeliver stores under the message ID alone: whatever was parked there is gone.
  function Overwritten(b: State, id: string): seq<Message> {
    if id in b.inflight then [b.inflight[id].msg] else []
  }

  function RetrySys(s: System, c: nat, reason: string, t1: int, t2: int): System
    requires c < |s.hands| && s.hands[c].Some?
  {
    var h := s.hands[c].value;
    if ShiftPanics(h.msg) then s.(crashed := true)
    else s.(hands := s.hands[c := None],
            b := RedeliverStep(s.b, h.queue, h.msg, reason, t1, t2),
            lost := s.lost + Overwritten(s.b, h.msg.id))
  }

  function FinishSys(s: System, c: nat, o: Outcome, t1: int, t2: int): System
    requires c < |s.hands| && s.hands[c].Some?
  {
    match Judge(s.b.maxAttempts, s.hands[c].value.msg, o)
    case Ack => AckSys(s, c)
    case Bury(reason) => BurySys(s, c, reason, t1)
    case Retry(reason) => RetrySys(s, c, reason, t1, t2)
  }

  ghost function Step(s: System, l: Label): System {
    if !Enabled(s, l) then s
    else match l
      case Publish(q, m) => PublishSys(s, q, m)
      case Poll(c, q, now, ids) => PollSys(s, c, q, now, ids)
      case Finish(c, o, t1, t2) => FinishSys(s, c, o, t1, t2)
  }

  ghost function Run(s: System, ls: seq<Label>): System {
    if ls == [] then s else Step(Run(s, ls[..|ls| - 1]), ls[|ls| - 1])
  }

  // ---- Shape: messages sit where their own fields say ----

  ghost predicate Shaped(s: System) {
    && (forall q, i :: q in s.b.ready && 0 <= i < |s.b.ready[q]| ==> s.b.ready[q][i].msg.queue == q)
    && (forall id :: id in s.b.inflight ==> s.b.inflight[id].msg.id == id)
    && (forall c :: 0 <= c < |s.hands| && s.hands[c].Some? ==> s.hands[c].value.msg.queue == s.hands[c].value.queue)
  }

  lemma PromoteOneShaped(s: System, id: string)
    requires Shaped(s) && id in s.b.inflight
    ensures Shaped(s.(b := PromoteOne(s.b, id)))
  {
  }

  lemma {:induction false} PromoteShaped(s: System, ids: seq<string>)
    requires Shaped(s)
    ensures Shaped(s.(b := Promote(s.b, ids)))
  {
    if ids == [] {
    } else {
      PromoteShaped(s, ids[..|ids| - 1]);
      var s' := s.(b := Promote(s.b, ids[..|ids| - 1]));
      if ids[|ids| - 1] in s'.b.inflight {
        PromoteOneShaped(s', ids[|ids| - 1]);
      }
    }
  }

  lemma TakeShaped(s: System, c: nat, queue: string, now: int)
    requires Shaped(s) && c < |s.hands|
    ensures Shaped(TakeSys(s, c, queue, now))
  {
    var q := Queue(s.b.ready, queue);
    var i := FirstVisible(q, now);
    if i >= 0 {
      forall j | 0 <= j < |Without(q, i)| ensures Without(q, i)[j].msg.queue == queue {
        assert Without(q, i)[j] == if j < i then q[j] else q[j + 1];
      }
    }
  }

  lemma StepShaped(s: System, l: Label)
    requires Shaped(s)
    ensures Shaped(Step(s, l))
  {
    if Enabled(s, l) {
      match l
      case Publish(_, _) =>
      case Poll(c, q, now, ids) =>
        PromoteShaped(s, ids);
        TakeShaped(s.(b := Promote(s.b, ids)), c, q, now);
      case Finish(c, o, t1, t2) =>
    }
  }

  // ---- Conservation ----

  // What never changes about a message.
  datatype Ident = Ident(id: string, queue: string, key: string, value: string)

  function IdentOf(m: Message): Ident { Ident(m.id, m.queue, m.key, m.value) }

  function IsMsg(x: Ident): Message -> bool { (m: Message) => IdentOf(m) == x }
  function IsPending(x: Ident): Pending -> bool { (p: Pending) => IdentOf(p.msg) == x }
  function IsHeld(x: Ident): Option<Hand> -> bool { (h: Option<Hand>) => h.Some? && IdentOf(h.value.msg) == x }

  predicate IsParked(b: State, x: Ident) { x.id in b.inflight && IdentOf(b.inflight[x.id].msg) == x }

  // Copies of x waiting in its queue or parked.
  function Waiting(b: State, x: Ident): nat {
    Count(Queue(b.ready, x.queue), IsPending(x)) + Weight(IsParked(b, x))
  }

  function Live(s: System, x: Ident): nat { Waiting(s.b, x) + Count(s.hands, IsHeld(x)) }

  function Buried(s: System, x: Ident): nat { Count(Queue(s.b.dlq, x.queue), IsMsg(x)) }

  // Everything published is live (ready, parked or in a consumer's hand), acknowledged, dead, or overwritten.
  ghost predicate Conserved(s: System, x: Ident) {
    Count(s.published, IsMsg(x)) == Live(s, x) + Count(s.acked, IsMsg(x)) + Buried(s, x) + Count(s.lost, IsMsg(x))
  }

  lemma CountMiddle<T>(a: seq<T>, x: T, b: seq<T>, p: T -> bool)
    ensures Count((a + [x]) + b, p) == Count(a + b, p) + Weight(p(x))
  {
    CountSplit(a + [x], b, p);
    CountPush(a, x, p);
    CountSplit(a, b, p);
  }

  lemma CountWithout<T>(xs: seq<T>, i: nat, p: T -> bool)
    requires i < |xs|
    ensures Count(Without(xs, i), p) == Count(xs, p) - Weight(p(xs[i]))
  {
    SplitAt(xs, i);
    CountMiddle(xs[..i], xs[i], xs[i + 1..], p);
  }

  lemma PromoteOneWaiting(s: System, id: string, x: Ident)
    requires Shaped(s) && id in s.b.inflight
    ensures Waiting(PromoteOne(s.b, id), x) == Waiting(s.b, x)
  {
    var b, p, q := PromoteOne(s.b, id), s.b.inflight[id], Queue(s.b.ready, x.queue);
    assert Queue(b.ready, x.queue) == if p.msg.queue == x.queue then q + [p] else q;
    assert IsParked(b, x) <==> x.id != id && IsParked(s.b, x);
    CountPush(q, p, IsPending(x));
  }

  lemma {:induction false} PromoteWaiting(s: System, ids: seq<string>, x: Ident)
    requires Shaped(s)
    ensures Waiting(Promote(s.b, ids), x) == Waiting(s.b, x)
  {
    if ids == [] {
    } else {
      PromoteWaiting(s, ids[..|ids| - 1], x);
      PromoteShaped(s, ids[..|ids| - 1]);
      var s' := s.(b := Promote(s.b, ids[..|ids| - 1]));
      if ids[|ids| - 1] in s'.b.inflight {
        PromoteOneWaiting(s', ids[|ids| - 1], x);
      }
    }
  }

  lemma TakeLive(s: System, c: nat, queue: string, now: int, x: Ident)
    requires Shaped(s) && c < |s.hands| && s.hands[c].None?
    ensures Live(TakeSys(s, c, queue, now), x) == Live(s, x)
  {
    var q := Queue(s.b.ready, queue);
    var i := FirstVisible(q, now);
    if i >= 0 {
      CountWithout(q, i, IsPending(x));
      CountUpdate(s.hands, c, Some(Hand(queue, q[i].msg)), IsHeld(x));
      assert q[i].msg.queue == queue;
    }
  }

  // What a promotion leaves parked.
  lemma {:induction false} PromoteLeaves(b: State, ids: seq<string>)
    ensures forall id :: id in Promote(b, ids).inflight <==> id in b.inflight && id !in ids
    ensures forall id :: id in Promote(b, ids).inflight ==> Promote(b, ids).inflight[id] == b.inflight[id]
  {
    if ids == [] {
    } else {
      PromoteLeaves(b, ids[..|ids| - 1]);
      assert ids == ids[..|ids| - 1] + [ids[|ids| - 1]];
    }
  }

  lemma {:induction false} PromoteFrame(b: State, ids: seq<string>)
    ensures Promote(b, ids).dlq == b.dlq
    ensures Promote(b, ids).maxAttempts == b.maxAttempts && Promote(b, ids).backoff == b.backoff
  {
    if ids == [] {
    } else {
      PromoteFrame(b, ids[..|ids| - 1]);
    }
  }

  lemma PollLive(s: System, c: nat, queue: string, now: int, ids: seq<string>, x: Ident)
    requires Shaped(s) && c < |s.hands| && s.hands[c].None?
    ensures var s' := PollSys(s, c, queue, now, ids);
            && Live(s', x) == Live(s, x) && Buried(s', x) == Buried(s, x)
            && s'.acked == s.acked && s'.lost == s.lost && s'.published == s.published
  {
    PromoteWaiting(s, ids, x);
    PromoteShaped(s, ids);
    PromoteFrame(s.b, ids);
    TakeLive(s.(b := Promote(s.b, ids)), c, queue, now, x);
  }

  lemma PublishConserves(s: System, queue: string, msg: Message, x: Ident)
    requires Conserved(s, x)
    ensures Conserved(PublishSys(s, queue, msg), x)
    ensures Live(PublishSys(s, queue, msg), x) == Live(s, x) + Weight(IdentOf(Stored(queue, msg)) == x)
  {
    var m := Stored(queue, msg);
    CountPush(s.published, m, IsMsg(x));
    CountPush(Queue(s.b.ready, queue), Pending(m, ZERO_TIME), IsPending(x));
  }

  lemma AckConserves(s: System, c: nat, x: Ident)
    requires c < |s.hands| && s.hands[c].Some? && Conserved(s, x)
    ensures Conserved(AckSys(s, c), x) && Live(AckSys(s, c), x) <= Live(s, x)
  {
    CountUpdate(s.hands, c, None, IsHeld(x));
    CountPush(s.acked, s.hands[c].value.msg, IsMsg(x));
  }

  lemma BuryConserves(s: System, c: nat, reason: string, now: int, x: Ident)
    requires Shaped(s) && c < |s.hands| && s.hands[c].Some? && Conserved(s, x)
    ensures Conserved(BurySys(s, c, reason, now), x) && Live(BurySys(s, c, reason, now), x) <= Live(s, x)
  {
    var h := s.hands[c].value;
    CountUpdate(s.hands, c, None, IsHeld(x));
    CountPush(Queue(s.b.dlq, h.queue), Stamp(h.msg, now).(reason := reason), IsMsg(x));
  }

  // Parking a message under its ID, over whatever was parked there.
  lemma ParkWaiting(s: System, queue: string, m: Message, reason: string, t1: int, t2: int, x: Ident)
    requires Shaped(s) && !ShiftPanics(m) && m.queue == queue
    ensures Waiting(RedeliverStep(s.b, queue, m, reason, t1, t2), x) + Count(Overwritten(s.b, m.id), IsMsg(x))
            == Waiting(s.b, x) + Weight(IdentOf(m) == x)
  {
  }

  lemma RetryConserves(s: System, c: nat, reason: string, t1: int, t2: int, x: Ident)
    requires Shaped(s) && c < |s.hands| && s.hands[c].Some? && Conserved(s, x)
    ensures Conserved(RetrySys(s, c, reason, t1, t2), x) && Live(RetrySys(s, c, reason, t1, t2), x) <= Live(s, x)
  {
    var h := s.hands[c].value;
    if !ShiftPanics(h.msg) {
      CountUpdate(s.hands, c, None, IsHeld(x));
      ParkWaiting(s, h.queue, h.msg, reason, t1, t2, x);
      CountSplit(s.lost, Overwritten(s.b, h.msg.id), IsMsg(x));
    }
  }

  lemma StepConserves(s: System, l: Label, x: Ident)
    requires Shaped(s) && Conserved(s, x)
    ensures Conserved(Step(s, l), x)
    ensures !l.Publish? ==> Live(Step(s, l), x) <= Live(s, x)
  {
    if Enabled(s, l) {
      match l
      case Publish(q, m) => PublishConserves(s, q, m, x);
      case Poll(c, q, now, ids) => PollLive(s, c, q, now, ids, x);
      case Finish(c, o, t1, t2) =>
        match Judge(s.b.maxAttempts, s.hands[c].value.msg, o) {
          case Ack => AckConserves(s, c, x);
          case Bury(reason) => BuryConserves(s, c, reason, t1, x);
          case Retry(reason) => RetryConserves(s, c, reason, t1, t2, x);
        }
    }
  }

  // In every interleaving each published message, with its ID, queue, key and value, is accounted for in exactly
  // one way. (A cancelled consumer takes no step with an empty hand, so cancellation changes nothing here.)
  lemma {:induction false} Conservation(n: nat, max: int, backoff: int64, ls: seq<Label>, x: Ident)
    ensures Shaped(Run(Init(n, max, backoff), ls)) && Conserved(Run(Init(n, max, backoff), ls), x)
  {
    if ls == [] {
      CountZero(Init(n, max, backoff).hands, IsHeld(x));
    } else {
      var s := Run(Init(n, max, backoff), ls[..|ls| - 1]);
      Conservation(n, max, backoff, ls[..|ls| - 1], x);
      StepShaped(s, ls[|ls| - 1]);
      StepConserves(s, ls[|ls| - 1], x);
    }
  }

  // ---- Distinct IDs: nothing is overwritten ----

  ghost predicate UniqueLive(s: System) {
    && (forall x :: Live(s, x) <= 1)
    && (forall x: Ident, y: Ident :: x.id == y.id && Live(s, x) > 0 && Live(s, y) > 0 ==> x == y)
  }

  ghost predicate NotLive(s: System, id: string) { forall x: Ident :: x.id == id ==> Live(s, x) == 0 }

  // No message is published under the ID of a message that is still live.
  ghost predicate FreshIds(s: System, ls: seq<Label>) {
    ls == [] ||
    (var k := |ls| - 1;
     FreshIds(s, ls[..k]) && (ls[k].Publish? ==> NotLive(Run(s, ls[..k]), ls[k].msg.id)))
  }

  lemma HeldIsLive(s: System, c: nat)
    requires c < |s.hands| && s.hands[c].Some?
    ensures Count(s.hands, IsHeld(IdentOf(s.hands[c].value.msg))) >= 1
  {
    CountZero(s.hands, IsHeld(IdentOf(s.hands[c].value.msg)));
  }

  lemma RetryOverwritesNothing(s: System, c: nat)
    requires Shaped(s) && UniqueLive(s) && c < |s.hands| && s.hands[c].Some?
    ensures Overwritten(s.b, s.hands[c].value.msg.id) == []
  {
    var m := s.hands[c].value.msg;
    HeldIsLive(s, c);
    if m.id in s.b.inflight {
      var y := IdentOf(s.b.inflight[m.id].msg);
      assert IsParked(s.b, y);
    }
  }

  lemma PublishUnique(s: System, queue: string, msg: Message)
    requires UniqueLive(s) && NotLive(s, msg.id)
    requires forall x :: Conserved(s, x)
    ensures UniqueLive(PublishSys(s, queue, msg))
  {
    var s' := PublishSys(s, queue, msg);
    forall x ensures Live(s', x) <= 1 && (Live(s', x) > 0 ==> Live(s, x) > 0 || x == IdentOf(Stored(queue, msg))) {
      PublishConserves(s, queue, msg, x);
    }
  }

  lemma StepLosesNothing(s: System, l: Label)
    requires Shaped(s) && UniqueLive(s) && s.lost == [] && (l.Publish? ==> NotLive(s, l.msg.id))
    requires forall x :: Conserved(s, x)
    ensures UniqueLive(Step(s, l)) && Step(s, l).lost == []
  {
    if l.Publish? {
      if Enabled(s, l) {
        PublishUnique(s, l.queue, l.msg);
      }
    } else {
      forall x ensures Live(Step(s, l), x) <= Live(s, x) {
        StepConserves(s, l, x);
      }
      if Enabled(s, l) && l.Finish? {
        RetryOverwritesNothing(s, l.c);
      }
    }
  }

  // While live IDs are distinct, every live message is in one place only and none is ever lost.
  lemma {:induction false} NothingIsLost(n: nat, max: int, backoff: int64, ls: seq<Label>)
    requires FreshIds(Init(n, max, backoff), ls)
    ensures var s := Run(Init(n, max, backoff), ls); UniqueLive(s) && s.lost == []
  {
    if ls == [] {
      forall x ensures Live(Init(n, max, backoff), x) == 0 {
        CountZero(Init(n, max, backoff).hands, IsHeld(x));
      }
    } else {
      var init, l := ls[..|ls| - 1], ls[|ls| - 1];
      var s := Run(Init(n, max, backoff), init);
      NothingIsLost(n, max, backoff, init);
      Conservation(n, max, backoff, init, Ident("", "", "", ""));
      forall x ensures Conserved(s, x) {
        Conservation(n, max, backoff, init, x);
      }
      StepLosesNothing(s, l);
    }
  }

  // So a message published once is in exactly one place: live (ready, parked or held), acknowledged, or dead.
  lemma ExactlyOnePlace(n: nat, max: int, backoff: int64, ls: seq<Label>, x: Ident)
    requires FreshIds(Init(n, max, backoff), ls)
    requires Count(Run(Init(n, max, backoff), ls).published, IsMsg(x)) == 1
    ensures var s := Run(Init(n, max, backoff), ls);
            Count(Queue(s.b.ready, x.queue), IsPending(x)) + Weight(IsParked(s.b, x)) + Count(s.hands, IsHeld(x))
            + Count(s.acked, IsMsg(x)) + Buried(s, x) == 1
  {
    Conservation(n, max, backoff, ls, x);
    NothingIsLost(n, max, backoff, ls);
  }

  // Two live messages that share an ID, each published to a queue of its own and taken by a consumer of its own.
  function BothHeld(m: Message, backoff: int64): System {
    var s := PublishSys(PublishSys(Init(2, 3, backoff), "a", m), "b", m);
    PollSys(PollSys(s, 0, "a", 1, []), 1, "b", 1, [])
  }

  ghost predicate TwoInHand(s: System, ma: Message, mb: Message) {
    && s.hands == [Some(Hand("a", ma)), Some(Hand("b", mb))] && s.published == [ma, mb]
    && Queue(s.b.ready, "a") == [] && s.b.inflight == map[] && s.b.dlq == map[] && s.acked == [] && s.lost == []
  }

  lemma BothHeldIs(m: Message, backoff: int64)
    requires m.attempts == 0
    ensures TwoInHand(BothHeld(m, backoff), Stored("a", m), Stored("b", m))
  {
  }

  lemma BothParked(s: System, ma: Message, mb: Message)
    requires TwoInHand(s, ma, mb) && ma.id == mb.id && ma.attempts == mb.attempts == 1
    ensures var s' := RetrySys(RetrySys(s, 0, "e", 1, 1), 1, "e", 1, 1);
            && s'.hands == [None, None] && s'.b.ready == s.b.ready && s'.b.dlq == s.b.dlq
            && s'.published == s.published && s'.acked == s.acked
            && s'.lost == [Parked(s.b, "a", ma, "e", 1, 1).msg]
            && s'.b.inflight.Keys == {ma.id} && s'.b.inflight[ma.id].msg.queue == "b"
  {
  }

  ghost predicate Vanished(s: System, x: Ident) {
    Count(s.published, IsMsg(x)) == 1 && Live(s, x) == 0 && Count(s.acked, IsMsg(x)) == 0 && Buried(s, x) == 0
  }

  lemma CountPair(ma: Message, mb: Message, x: Ident)
    ensures Count([ma, mb], IsMsg(x)) == Weight(IdentOf(ma) == x) + Weight(IdentOf(mb) == x)
  {
  }

  // When both fail retryably the second overwrites the first, although they belong to different queues: the
  // message of queue a is then neither waiting, held, acknowledged nor dead.
  lemma SharedIdLosesAMessage(m: Message, backoff: int64)
    requires m.attempts == 0
    ensures var s := RetrySys(RetrySys(BothHeld(m, backoff), 0, "e", 1, 1), 1, "e", 1, 1);
            Vanished(s, Ident(m.id, "a", m.key, m.value))
  {
    BothHeldIs(m, backoff);
    BothParked(BothHeld(m, backoff), Stored("a", m), Stored("b", m));
    var s := RetrySys(RetrySys(BothHeld(m, backoff), 0, "e", 1, 1), 1, "e", 1, 1);
    CountPair(Stored("a", m), Stored("b", m), Ident(m.id, "a", m.key, m.value));
    CountZero(s.hands, IsHeld(Ident(m.id, "a", m.key, m.value)));
  }

  // ---- What holds of every waiting message ----

  ghost predicate AllPending(b: State, p: Pending -> bool) {
    && (forall q, i :: q in b.ready && 0 <= i < |b.ready[q]| ==> p(b.ready[q][i]))
    && (forall id :: id in b.inflight ==> p(b.inflight[id]))
  }

  ghost predicate AllHands(s: System, h: Message -> bool) {
    forall c :: 0 <= c < |s.hands| && s.hands[c].Some? ==> h(s.hands[c].value.msg)
  }

  lemma {:induction false} PromoteKeeps(b: State, ids: seq<string>, p: Pending -> bool)
    requires AllPending(b, p)
    ensures AllPending(Promote(b, ids), p)
  {
    if ids == [] {
    } else {
      PromoteKeeps(b, ids[..|ids| - 1], p);
    }
  }

  lemma TakeKeeps(b: State, queue: string, now: int, p: Pending -> bool)
    requires AllPending(b, p)
    ensures AllPending(TakeStep(b, queue, now).0, p)
    ensures var i := FirstVisible(Queue(b.ready, queue), now);
            i >= 0 ==> p(Queue(b.ready, queue)[i])
  {
  }

  lemma ParkKeeps(s: System, c: nat, reason: string, t1: int, t2: int, p: Pending -> bool)
    requires AllPending(s.b, p) && c < |s.hands| && s.hands[c].Some? && !ShiftPanics(s.hands[c].value.msg)
    requires var h := s.hands[c].value; p(Parked(s.b, h.queue, h.msg, reason, t1, t2))
    ensures AllPending(RetrySys(s, c, reason, t1, t2).b, p)
  {
  }

  lemma PublishKeeps(b: State, queue: string, msg: Message, p: Pending -> bool)
    requires AllPending(b, p) && p(Pending(Stored(queue, msg), ZERO_TIME))
    ensures AllPending(PublishStep(b, queue, msg), p)
  {
  }

  // ---- No crash ----

  function Counted(): Pending -> bool { (p: Pending) => p.msg.attempts >= 1 }
  function CountedMsg(): Message -> bool { (m: Message) => m.attempts >= 1 }

  ghost predicate NoCrash(s: System) {
    !s.crashed && AllPending(s.b, Counted()) && AllHands(s, CountedMsg())
  }

  lemma StepNoCrash(s: System, l: Label)
    requires NoCrash(s) && (l.Publish? ==> l.msg.attempts >= 0)
    ensures NoCrash(Step(s, l))
  {
    if Enabled(s, l) {
      match l
      case Publish(q, m) => PublishKeeps(s.b, q, m, Counted());
      case Poll(c, q, now, ids) =>
        PromoteKeeps(s.b, ids, Counted());
        TakeKeeps(Promote(s.b, ids), q, now, Counted());
      case Finish(c, o, t1, t2) =>
        match Judge(s.b.maxAttempts, s.hands[c].value.msg, o) {
          case Retry(reason) => ParkKeeps(s, c, reason, t1, t2, Counted());
          case _ =>
        }
    }
  }

  // redeliver's shift count is never negative if nobody publishes a negative attempt count.
  lemma {:induction false} NeverCrashes(n: nat, max: int, backoff: int64, ls: seq<Label>)
    requires forall i :: 0 <= i < |ls| && ls[i].Publish? ==> ls[i].msg.attempts >= 0
    ensures NoCrash(Run(Init(n, max, backoff), ls))
  {
    if ls == [] {
    } else {
      NeverCrashes(n, max, backoff, ls[..|ls| - 1]);
      StepNoCrash(Run(Init(n, max, backoff), ls[..|ls| - 1]), ls[|ls| - 1]);
    }
  }

  // Exactly when a step crashes: somebody fails retryably, within the cap, while holding a message with an attempt
  // count below 1.
  lemma CrashIff(s: System, l: Label)
    requires !s.crashed
    ensures Step(s, l).crashed <==>
            && l.Finish? && l.outcome.Retryable? && l.c < |s.hands| && s.hands[l.c].Some?
            && s.hands[l.c].value.msg.attempts < 1 && s.hands[l.c].value.msg.attempts < s.b.maxAttempts
  {
  }

  // A message published with a negative attempt count panics on its first retryable failure, outside the handler's
  // recovery, if the cap is above that count; otherwise it is dead-lettered.
  lemma NegativeAttemptsCrash(m: Message, max: int, backoff: int64, reason: string, t1: int, t2: int)
    requires m.attempts < 0
    ensures var s := PollSys(PublishSys(Init(1, max, backoff), "q", m), 0, "q", 0, []);
            var s' := Step(s, Finish(0, Retryable(reason), t1, t2));
            && Enabled(s, Finish(0, Retryable(reason), t1, t2))
            && (s'.crashed <==> m.attempts < max)
            && (!s'.crashed ==> |Queue(s'.b.dlq, "q")| == 1)
  {
    var s := PublishSys(Init(1, max, backoff), "q", m);
    assert Queue(s.b.ready, "q") == [Pending(Stored("q", m), ZERO_TIME)];
    CrashIff(PollSys(s, 0, "q", 0, []), Finish(0, Retryable(reason), t1, t2));
  }
}
